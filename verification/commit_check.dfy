/** `do_commit_check` (merge-check.go, lines 28-77) with git as a parameter: the
    parents are read from the text `git cat-file -p` printed, the merge-base and the
    diff-tree outputs come from a `Repo` oracle, and the queries the check makes are
    returned so that what is (and is not) asked can be stated. */
module CommitCheck {
  import opened Text
  import opened Bias
  import opened DiffTree

  /** The two git queries made after the parents are known. `git merge-base` may fail
      (None); `git diff-tree -r` failing aborts the whole run and is not modelled. */
  datatype Repo = Repo(
    mergeBase: (string, string) -> Option<string>,
    diffTree: (string, string) -> string)

  /** A question put to git: `git merge-base a b` or `git diff-tree -r from to`. */
  datatype Query = MergeBaseQuery(a: string, b: string) | DiffTreeQuery(from: string, to: string)

  /** Outcome of scanning the commit object for its parents. `IndexOutOfRange` stands
      for the Go runtime panic on writing past the end of `parents [2]string`. */
  datatype ParentScan = Merge(mine: string, theirs: string) | NotMerge | Octopus | IndexOutOfRange

  /** What one commit check reports: a score on the result stream or one of the
      three diagnostics. */
  datatype Verdict = Score(score: int) | NotMergeCommit | OctopusCommit | NoMergeBase

  const ParentPrefix: string := "parent "

  /** `strings.Split(line, " ")[1]` on a line starting with "parent "; see
      `ParentFieldSpec`. */
  function ParentField(line: string): string
    requires HasPrefix(line, ParentPrefix)
  {
    SplitAfterPiece(ParentPrefix[..|ParentPrefix| - 1], ' ', line[|ParentPrefix|..]);
    assert line == ParentPrefix[..|ParentPrefix| - 1] + [' '] + line[|ParentPrefix|..];
    Split(line, ' ')[1]
  }

  /** The second space-separated field of a "parent " line is the run of characters
      right after the prefix up to the next blank or the end of the line, possibly
      empty (when the prefix is followed by a second blank). */
  lemma ParentFieldSpec(line: string)
    requires HasPrefix(line, ParentPrefix)
    ensures var id := ParentField(line);
      && ' ' !in id
      && |ParentPrefix| + |id| <= |line|
      && line[|ParentPrefix|..|ParentPrefix| + |id|] == id
      && (|ParentPrefix| + |id| == |line| || line[|ParentPrefix| + |id|] == ' ')
  {
    var rest := line[|ParentPrefix|..];
    SplitAfterPiece(ParentPrefix[..|ParentPrefix| - 1], ' ', rest);
    assert line == ParentPrefix[..|ParentPrefix| - 1] + [' '] + rest;
    SplitSpec(rest, ' ');
    SplitSpec(line, ' ');
  }

  /** A scanned line of the commit object names a parent once trimmed. */
  predicate IsParentLine(line: string) {
    HasPrefix(TrimSpace(line), ParentPrefix)
  }

  /** The parent ids the scan collects, in order: the field after "parent " of every
      line that starts with it once trimmed. Every other line is ignored. */
  function ParentIds(lines: seq<string>): seq<string> {
    if |lines| == 0 then []
    else
      var last := lines[|lines| - 1];
      ParentIds(lines[..|lines| - 1])
        + (if IsParentLine(last) then [ParentField(TrimSpace(last))] else [])
  }

  /** The scan works line by line: the ids of two blocks of lines are those of the
      first block followed by those of the second. */
  lemma {:induction false} ParentIdsAppend(a: seq<string>, b: seq<string>)
    ensures ParentIds(a + b) == ParentIds(a) + ParentIds(b)
  {
    if |b| > 0 {
      ParentIdsAppend(a, b[..|b| - 1]);
      assert (a + b)[..|a + b| - 1] == a + b[..|b| - 1];
    } else {
      assert a + b == a;
    }
  }

  /** One line contributes its parent id if it is a parent line and nothing otherwise. */
  lemma ParentIdsOfLine(line: string)
    ensures IsParentLine(line) ==> ParentIds([line]) == [ParentField(TrimSpace(line))]
    ensures !IsParentLine(line) ==> ParentIds([line]) == []
  {
    assert [line][..0] == [];
  }

  /** One more line extends the ids of a prefix by that line's contribution. */
  lemma ParentIdsStep(lines: seq<string>, i: nat)
    requires i < |lines|
    ensures ParentIds(lines[..i + 1]) == ParentIds(lines[..i])
      + (if IsParentLine(lines[i]) then [ParentField(TrimSpace(lines[i]))] else [])
  {
    assert lines[..i + 1][..i] == lines[..i];
  }

  /** The ids of a prefix of the lines are a prefix of the ids of all the lines. */
  lemma ParentIdsOfPrefix(lines: seq<string>, i: nat)
    requires i <= |lines|
    ensures |ParentIds(lines[..i])| <= |ParentIds(lines)|
    ensures ParentIds(lines[..i]) == ParentIds(lines)[..|ParentIds(lines[..i])|]
  {
    ParentIdsAppend(lines[..i], lines[i..]);
    assert lines == lines[..i] + lines[i..];
  }

  /** The loop of lines 37-51 as written: the id goes into `parents[count]` before
      the `count > 2` test, so a third parent line indexes past the end of the
      two-element array and the Go runtime panics; "octopus" is never reported. */
  method ScanParentsAsWritten(catFile: string) returns (res: ParentScan)
    ensures var ids := ParentIds(ScanLines(catFile));
      && (|ids| < 2 <==> res == NotMerge)
      && (|ids| > 2 <==> res == IndexOutOfRange)
      && (|ids| == 2 ==> res == Merge(ids[0], ids[1]))
    ensures res != Octopus
  {
    var parents := new string[2];
    var count := 0;
    var lines := ScanLines(catFile);
    var i := 0;
    while i < |lines|
      invariant 0 <= i <= |lines|
      invariant 0 <= count <= parents.Length
      invariant parents[..count] == ParentIds(lines[..i])
    {
      var line := TrimSpace(lines[i]);
      ParentIdsStep(lines, i);
      if HasPrefix(line, ParentPrefix) {
        if count >= parents.Length {
          ParentIdsOfPrefix(lines, i + 1);
          return IndexOutOfRange;
        }
        ghost var before := parents[..count];
        parents[count] := ParentField(line);
        assert parents[..count + 1] == before + [ParentField(line)];
        count := count + 1;
      }
      i := i + 1;
    }
    assert lines[..i] == lines;
    if count < 2 {
      return NotMerge;
    }
    return Merge(parents[0], parents[1]);
  }

  /** The loop of lines 37-51 with the octopus test moved before the write, as the
      diagnostic at line 43 intends: a third parent line reports an octopus commit. */
  method ScanParents(catFile: string) returns (res: ParentScan)
    ensures var ids := ParentIds(ScanLines(catFile));
      && (|ids| < 2 <==> res == NotMerge)
      && (|ids| > 2 <==> res == Octopus)
      && (|ids| == 2 ==> res == Merge(ids[0], ids[1]))
    ensures res != IndexOutOfRange
  {
    var parents := new string[2];
    var count := 0;
    var lines := ScanLines(catFile);
    var i := 0;
    while i < |lines|
      invariant 0 <= i <= |lines|
      invariant 0 <= count <= parents.Length
      invariant parents[..count] == ParentIds(lines[..i])
    {
      var line := TrimSpace(lines[i]);
      ParentIdsStep(lines, i);
      if HasPrefix(line, ParentPrefix) {
        if count == parents.Length {
          ParentIdsOfPrefix(lines, i + 1);
          return Octopus;
        }
        ghost var before := parents[..count];
        parents[count] := ParentField(line);
        assert parents[..count + 1] == before + [ParentField(line)];
        count := count + 1;
      }
      i := i + 1;
    }
    assert lines[..i] == lines;
    if count < 2 {
      return NotMerge;
    }
    return Merge(parents[0], parents[1]);
  }

  /** The decision of lines 37-73 once git's answers are known: the parent list,
      whether `git merge-base` succeeded, and the four change counts. Only a commit
      with exactly two parents and a merge-base gets a score. The octopus test is
      the corrected one of `ScanParents` (see ## Findings in README.md): as written,
      a third parent panics at line 40 instead. */
  function Decide(parents: seq<string>, mergeBaseFound: bool, counts: Counts): (v: Verdict)
    ensures v.Score? <==> |parents| == 2 && mergeBaseFound
    ensures |parents| < 2 <==> v == NotMergeCommit
    ensures |parents| > 2 <==> v == OctopusCommit
    ensures v == NoMergeBase <==> |parents| == 2 && !mergeBaseFound
    ensures v.Score? ==> 0 <= v.score <= 100
    ensures v.Score? ==> v.score >= Deviation(counts.mergeTheirs, counts.baseMine)
    ensures v.Score? ==> v.score >= Deviation(counts.mergeMine, counts.baseTheirs)
    ensures v.Score? ==>
              || v.score == Deviation(counts.mergeTheirs, counts.baseMine)
              || v.score == Deviation(counts.mergeMine, counts.baseTheirs)
  {
    if |parents| > 2 then OctopusCommit
    else if |parents| < 2 then NotMergeCommit
    else if !mergeBaseFound then NoMergeBase
    else Score(MergeScore(counts))
  }

  /** The four counts of lines 61-64 for a merge `commit` of `mine` and `theirs`
      whose merge-base is `base`. */
  function MergeCounts(repo: Repo, commit: string, base: string, mine: string, theirs: string): Counts {
    Counts(
      DiffCount(repo.diffTree(base, mine)),
      DiffCount(repo.diffTree(base, theirs)),
      DiffCount(repo.diffTree(commit, mine)),
      DiffCount(repo.diffTree(commit, theirs)))
  }

  /** `git merge-base mine theirs` (lines 53-57): the one place the check asks git
      for a merge-base. The answer comes from `repo`, and the query joins the trace. */
  method AskMergeBase(repo: Repo, mine: string, theirs: string, asked: seq<Query>)
    returns (out: Option<string>, after: seq<Query>)
    ensures out == repo.mergeBase(mine, theirs)
    ensures after == asked + [MergeBaseQuery(mine, theirs)]
  {
    out := repo.mergeBase(mine, theirs);
    after := asked + [MergeBaseQuery(mine, theirs)];
  }

  /** `get_diff_tree(from, to)` (lines 79-93): git's diff-tree output for the pair,
      counted by `CountChanges`; the query joins the trace. */
  method GetDiffTree(repo: Repo, from: string, to: string, asked: seq<Query>)
    returns (count: nat, after: seq<Query>)
    ensures count == DiffCount(repo.diffTree(from, to))
    ensures after == asked + [DiffTreeQuery(from, to)]
  {
    count := CountChanges(repo.diffTree(from, to));
    after := asked + [DiffTreeQuery(from, to)];
  }

  /** `do_commit_check(commit)` with the octopus test corrected (see ## Findings in
      README.md). A commit that is not a two-parent merge is reported before git is
      asked anything more; a failed merge-base is reported before any diff is taken;
      otherwise the four diffs are taken in the source's order and the score is the
      larger deviation. Every question to git goes through `AskMergeBase` or
      `GetDiffTree`, so the trace is exactly the queries made. */
  method CheckCommit(commit: string, catFile: string, repo: Repo) returns (v: Verdict, asked: seq<Query>)
    ensures var ids := ParentIds(ScanLines(catFile));
      |ids| < 2 ==> v == NotMergeCommit && asked == []
    ensures var ids := ParentIds(ScanLines(catFile));
      |ids| > 2 ==> v == OctopusCommit && asked == []
    ensures var ids := ParentIds(ScanLines(catFile));
      |ids| == 2 && repo.mergeBase(ids[0], ids[1]).None? ==>
        asked == [MergeBaseQuery(ids[0], ids[1])] && v == NoMergeBase
    ensures var ids := ParentIds(ScanLines(catFile));
      |ids| == 2 && repo.mergeBase(ids[0], ids[1]).Some? ==>
        var base := TrimSpace(repo.mergeBase(ids[0], ids[1]).value);
        && asked == [MergeBaseQuery(ids[0], ids[1]),
                     DiffTreeQuery(base, ids[0]), DiffTreeQuery(base, ids[1]),
                     DiffTreeQuery(commit, ids[0]), DiffTreeQuery(commit, ids[1])]
        && v == Decide(ids, true, MergeCounts(repo, commit, base, ids[0], ids[1]))
  {
    asked := [];
    var scan := ScanParents(catFile);
    if scan.Octopus? {
      return OctopusCommit, asked;
    }
    if scan.NotMerge? {
      return NotMergeCommit, asked;
    }
    var mine, theirs := scan.mine, scan.theirs;
    var out;
    out, asked := AskMergeBase(repo, mine, theirs, asked);
    if out.None? {
      return NoMergeBase, asked;
    }
    var base := TrimSpace(out.value);
    var baseMine, baseTheirs, mergeMine, mergeTheirs;
    baseMine, asked := GetDiffTree(repo, base, mine, asked);
    baseTheirs, asked := GetDiffTree(repo, base, theirs, asked);
    mergeMine, asked := GetDiffTree(repo, commit, mine, asked);
    mergeTheirs, asked := GetDiffTree(repo, commit, theirs, asked);
    var bias1 := Deviation(mergeTheirs, baseMine);
    var bias2 := Deviation(mergeMine, baseTheirs);
    var bias;
    if bias1 > bias2 {
      bias := bias1;
    } else {
      bias := bias2;
    }
    v := Score(bias);
  }

  /** A parent id as git prints it: not empty and free of white space. */
  predicate IsObjectId(id: string) {
    id != "" && forall k :: 0 <= k < |id| ==> !IsSpace(id[k])
  }

  /** The header lines naming `ids` as parents, one "parent <id>" line each. */
  function ParentLines(ids: seq<string>): (lines: seq<string>)
    ensures |lines| == |ids|
  {
    if |ids| == 0 then [] else ParentLines(ids[..|ids| - 1]) + [ParentPrefix + ids[|ids| - 1]]
  }

  /** Scanning the parent lines of a commit object gives back its parent ids, in
      order. With three of them `ScanParentsAsWritten` indexes past the array where
      `ScanParents` reports an octopus commit. */
  lemma {:induction false} ParentLinesGiveIds(ids: seq<string>)
    requires forall k :: 0 <= k < |ids| ==> IsObjectId(ids[k])
    ensures ParentIds(ParentLines(ids)) == ids
  {
    if |ids| > 0 {
      var init, id := ids[..|ids| - 1], ids[|ids| - 1];
      ParentLinesGiveIds(init);
      var line := ParentPrefix + id;
      TrimSpaceOfTrimmed(line);
      assert HasPrefix(line, ParentPrefix);
      ParentFieldSpec(line);
      var field := ParentField(line);
      assert line[|ParentPrefix|..] == id;
      assert field == id;
      ParentIdsOfLine(line);
      ParentIdsAppend(ParentLines(init), [line]);
    }
  }
}
