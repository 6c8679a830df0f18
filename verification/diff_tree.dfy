/** The counting half of `get_diff_tree` (merge-check.go, lines 79-93): the raw
    output of `git diff-tree -r` becomes the number of its entries that do not name
    a binary file. Running git is not modelled; its output is the input here. */
module DiffTree {
  import opened Text

  /** `binary_pattern.MatchString(entry)` for the pattern `\.(xls|doc|o|a|zip|rar)$`:
      the entry ends in one of the binary extensions, compared case-sensitively. `$` without the multi-line flag
      anchors at the very end of the text. */
  predicate IsBinaryEntry(entry: string) {
    || HasSuffix(entry, ".xls") || HasSuffix(entry, ".doc") || HasSuffix(entry, ".o")
    || HasSuffix(entry, ".a") || HasSuffix(entry, ".zip") || HasSuffix(entry, ".rar")
  }

  /** The suffix test is exact and case-sensitive: an object file or an archive is
      binary, an upper-case extension or a longer one is not. */
  lemma BinaryEntryExamples()
    ensures IsBinaryEntry("util.o")
    ensures !IsBinaryEntry("util.O")
    ensures !IsBinaryEntry("a.docx")
  {
  }

  /** The entries `get_diff_tree` looks at: the trimmed output split on newlines. */
  function Entries(output: string): (entries: seq<string>)
    ensures |entries| >= 1
    ensures TrimSpace(output) == "" ==> entries == [""]
  {
    Split(TrimSpace(output), '\n')
  }

  /** How many of `entries` are not binary. */
  function NonBinaryCount(entries: seq<string>): nat {
    if |entries| == 0 then 0
    else NonBinaryCount(entries[..|entries| - 1]) + (if IsBinaryEntry(entries[|entries| - 1]) then 0 else 1)
  }

  /** Counting over two lists one after the other adds up. */
  lemma {:induction false} NonBinaryCountAppend(a: seq<string>, b: seq<string>)
    ensures NonBinaryCount(a + b) == NonBinaryCount(a) + NonBinaryCount(b)
  {
    if |b| > 0 {
      NonBinaryCountAppend(a, b[..|b| - 1]);
      assert (a + b)[..|a + b| - 1] == a + b[..|b| - 1];
    } else {
      assert a + b == a;
    }
  }

  /** The count never exceeds the number of entries; it reaches it exactly when no
      entry is binary, and it is 0 exactly when every entry is. */
  lemma {:induction false} NonBinaryCountBounds(entries: seq<string>)
    ensures NonBinaryCount(entries) <= |entries|
    ensures NonBinaryCount(entries) == |entries| <==> forall k :: 0 <= k < |entries| ==> !IsBinaryEntry(entries[k])
    ensures NonBinaryCount(entries) == 0 <==> forall k :: 0 <= k < |entries| ==> IsBinaryEntry(entries[k])
  {
    if |entries| > 0 {
      var init := entries[..|entries| - 1];
      NonBinaryCountBounds(init);
      assert forall k :: 0 <= k < |init| ==> init[k] == entries[k];
    }
  }

  /** One more entry adds one to the count unless it is binary. */
  lemma NonBinaryCountStep(entries: seq<string>, i: nat)
    requires i < |entries|
    ensures NonBinaryCount(entries[..i + 1])
      == NonBinaryCount(entries[..i]) + (if IsBinaryEntry(entries[i]) then 0 else 1)
  {
    assert entries[..i + 1][..i] == entries[..i];
  }

  /** The count `get_diff_tree` returns for a diff-tree output. */
  function DiffCount(output: string): nat {
    NonBinaryCount(Entries(output))
  }

  /** Empty (or all-white-space) output still splits into one empty entry, which is
      not binary, so an empty diff counts as one change. */
  lemma EmptyDiffCountsOne(output: string)
    requires TrimSpace(output) == ""
    ensures DiffCount(output) == 1
  {
    assert Entries(output) == [""];
    assert !IsBinaryEntry("");
    assert [""][..0] == [];
  }

  /** The diff count of a non-empty output is the number of its lines that do not
      name a binary file, one line per entry. */
  lemma DiffCountOfLines(entries: seq<string>)
    requires |entries| > 0
    requires forall k :: 0 <= k < |entries| ==> '\n' !in entries[k]
    requires TrimSpace(Join(entries, '\n')) == Join(entries, '\n')
    ensures DiffCount(Join(entries, '\n')) == NonBinaryCount(entries)
  {
    SplitJoin(entries, '\n');
  }

  /** The loop of `get_diff_tree`: walk the entries, skip the binary ones, count the rest. */
  method CountChanges(output: string) returns (count: nat)
    ensures count == DiffCount(output)
    ensures count <= |Entries(output)|
  {
    var diff := TrimSpace(output);
    var entries := Split(diff, '\n');
    count := 0;
    var i := 0;
    while i < |entries|
      invariant 0 <= i <= |entries|
      invariant count == NonBinaryCount(entries[..i])
    {
      NonBinaryCountStep(entries, i);
      if IsBinaryEntry(entries[i]) {
        i := i + 1;
        continue;
      }
      count := count + 1;
      i := i + 1;
    }
    assert entries[..i] == entries;
    NonBinaryCountBounds(entries);
  }
}
