/** The parts of `main` (merge-check.go, lines 114-199) that decide what is checked:
    the commit list read from the `-f` file or taken from the arguments, and the
    clamp on the `-j` job count. Opening the file, changing directory and running
    the commit checks concurrently are not modelled. */
module Driver {
  import opened Text

  /** A line of the commit file is a comment when it starts with '#' once trimmed. */
  predicate IsComment(line: string) {
    HasPrefix(TrimSpace(line), "#")
  }

  /** The commits a list of lines names, in order: each line trimmed, the comment
      lines dropped. Empty lines are not dropped; they name the empty commit id. */
  function KeptCommits(lines: seq<string>): seq<string> {
    if |lines| == 0 then []
    else
      var last := lines[|lines| - 1];
      KeptCommits(lines[..|lines| - 1]) + (if IsComment(last) then [] else [TrimSpace(last)])
  }

  /** The filter keeps the order of the lines: two blocks of lines give the commits
      of the first block followed by those of the second. */
  lemma {:induction false} KeptCommitsAppend(a: seq<string>, b: seq<string>)
    ensures KeptCommits(a + b) == KeptCommits(a) + KeptCommits(b)
  {
    if |b| > 0 {
      KeptCommitsAppend(a, b[..|b| - 1]);
      assert (a + b)[..|a + b| - 1] == a + b[..|b| - 1];
    } else {
      assert a + b == a;
    }
  }

  /** A single line gives nothing when it is a comment and its trimmed self otherwise;
      in particular a blank line gives the empty commit id. */
  lemma KeptCommitsOfLine(line: string)
    ensures IsComment(line) ==> KeptCommits([line]) == []
    ensures !IsComment(line) ==> KeptCommits([line]) == [TrimSpace(line)]
    ensures TrimSpace(line) == "" ==> KeptCommits([line]) == [""]
  {
    assert [line][..0] == [];
  }

  /** Every line gives at most one commit, exactly the non-comment lines give one, and
      no commit kept starts with '#'. */
  lemma {:induction false} KeptCommitsCount(lines: seq<string>)
    ensures |KeptCommits(lines)| <= |lines|
    ensures |KeptCommits(lines)| == |lines| <==> forall k :: 0 <= k < |lines| ==> !IsComment(lines[k])
    ensures forall k :: 0 <= k < |KeptCommits(lines)| ==> !HasPrefix(KeptCommits(lines)[k], "#")
  {
    if |lines| > 0 {
      var init := lines[..|lines| - 1];
      KeptCommitsCount(init);
      assert forall k :: 0 <= k < |init| ==> init[k] == lines[k];
      var kept := KeptCommits(lines);
      if !IsComment(lines[|lines| - 1]) {
        assert kept[|kept| - 1] == TrimSpace(lines[|lines| - 1]);
      }
    }
  }

  /** Lines 126-133: scan the file line by line, trim each line, skip the comments
      and append the rest to the commit list. */
  method ReadCommitList(fileText: string) returns (commits: seq<string>)
    ensures commits == KeptCommits(ScanLines(fileText))
    ensures forall k :: 0 <= k < |commits| ==> !HasPrefix(commits[k], "#")
  {
    commits := [];
    var lines := ScanLines(fileText);
    var i := 0;
    while i < |lines|
      invariant 0 <= i <= |lines|
      invariant commits == KeptCommits(lines[..i])
    {
      assert lines[..i + 1][..i] == lines[..i];
      var commit := TrimSpace(lines[i]);
      if HasPrefix(commit, "#") {
        i := i + 1;
        continue;
      }
      commits := commits + [commit];
      i := i + 1;
    }
    assert lines[..i] == lines;
    KeptCommitsCount(lines);
  }

  /** Lines 119-142: with `-f` the commits come from the file; otherwise the
      positional arguments are the commits, untrimmed and unfiltered. */
  method BuildCommitList(fileText: Option<string>, args: seq<string>) returns (commits: seq<string>)
    ensures fileText.Some? ==> commits == KeptCommits(ScanLines(fileText.value))
    ensures fileText.None? ==> commits == args
  {
    if fileText.Some? {
      commits := ReadCommitList(fileText.value);
    } else if |args| != 0 {
      commits := [];
      for i := 0 to |args|
        invariant commits == args[..i]
      {
        commits := commits + [args[i]];
      }
    } else {
      commits := [];
    }
  }

  /** The parsed command-line flags that `main` changes in place. */
  class Flags {
    var jobs: int

    constructor (jobs: int)
      ensures this.jobs == jobs
    {
      this.jobs := jobs;
    }

    /** Lines 151-153: a job count below 1 becomes 1; any other is kept. */
    method ClampJobs()
      modifies this
      ensures jobs == JobLimit(old(jobs))
    {
      if jobs < 1 {
        jobs := 1;
      }
    }
  }

  /** The job limit the clamp leaves: at least 1, and the requested count whenever
      that is at least 1. */
  function JobLimit(requested: int): (limit: int)
    ensures limit >= 1
    ensures requested >= 1 ==> limit == requested
    ensures limit == requested || limit == 1
  {
    if requested < 1 then 1 else requested
  }
}
