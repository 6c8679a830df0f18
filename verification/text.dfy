/** The pieces of Go's `strings` and `bufio` packages that merge-check.go leans on,
    written over `string` (a sequence of Unicode scalar values): `strings.TrimSpace`,
    `strings.HasPrefix`, `strings.Split` with a one-character separator, and the
    line splitting of a `bufio.Scanner` with its default `ScanLines` split function. */
module Text {

  /** An optional value: a git answer that may be missing. */
  datatype Option<T> = None | Some(value: T)

  /** `unicode.IsSpace`: the ASCII white space, NEL, NO-BREAK SPACE and the other
      characters of Unicode's White_Space property. */
  predicate IsSpace(c: char) {
    c == ' ' || c == '\t' || c == '\n' || c == '\U{000B}' || c == '\U{000C}' || c == '\r'
    || c == '\U{0085}' || c == '\U{00A0}' || c == '\U{1680}'
    || ('\U{2000}' <= c <= '\U{200A}')
    || c == '\U{2028}' || c == '\U{2029}' || c == '\U{202F}' || c == '\U{205F}' || c == '\U{3000}'
  }

  predicate HasPrefix(s: string, prefix: string) {
    |prefix| <= |s| && s[..|prefix|] == prefix
  }

  predicate HasSuffix(s: string, suffix: string) {
    |suffix| <= |s| && s[|s| - |suffix|..] == suffix
  }

  /** Drops the leading white space. */
  function TrimLeft(s: string): string {
    if |s| > 0 && IsSpace(s[0]) then TrimLeft(s[1..]) else s
  }

  /** Drops the trailing white space. */
  function TrimRight(s: string): string {
    if |s| > 0 && IsSpace(s[|s| - 1]) then TrimRight(s[..|s| - 1]) else s
  }

  /** `strings.TrimSpace`: see `TrimSpaceSpec`. */
  function TrimSpace(s: string): string {
    TrimRight(TrimLeft(s))
  }

  /** What `TrimLeft` removes is a run of white space, and what it keeps is a suffix
      that does not start with white space. */
  lemma {:induction false} TrimLeftSpec(s: string)
    ensures |TrimLeft(s)| <= |s| && TrimLeft(s) == s[|s| - |TrimLeft(s)|..]
    ensures forall k :: 0 <= k < |s| - |TrimLeft(s)| ==> IsSpace(s[k])
    ensures TrimLeft(s) == [] || !IsSpace(TrimLeft(s)[0])
  {
    if |s| > 0 && IsSpace(s[0]) {
      TrimLeftSpec(s[1..]);
    }
  }

  /** What `TrimRight` removes is a run of white space, and what it keeps is a prefix
      that does not end with white space. */
  lemma {:induction false} TrimRightSpec(s: string)
    ensures |TrimRight(s)| <= |s| && TrimRight(s) == s[..|TrimRight(s)|]
    ensures forall k :: |TrimRight(s)| <= k < |s| ==> IsSpace(s[k])
    ensures TrimRight(s) == [] || !IsSpace(TrimRight(s)[|TrimRight(s)| - 1])
  {
    if |s| > 0 && IsSpace(s[|s| - 1]) {
      TrimRightSpec(s[..|s| - 1]);
    }
  }

  /** `strings.TrimSpace` keeps the slice of `s` that neither starts nor ends with
      white space and cuts off only white space on either side. */
  lemma TrimSpaceSpec(s: string)
    ensures var r, i := TrimSpace(s), |s| - |TrimLeft(s)|;
      && 0 <= i <= i + |r| <= |s| && r == s[i..i + |r|]
      && (forall k :: 0 <= k < i ==> IsSpace(s[k]))
      && (forall k :: i + |r| <= k < |s| ==> IsSpace(s[k]))
      && (r == [] || (!IsSpace(r[0]) && !IsSpace(r[|r| - 1])))
  {
    var l := TrimLeft(s);
    TrimLeftSpec(s);
    TrimRightSpec(l);
    var r := TrimRight(l);
    var i := |s| - |l|;
    assert l == s[i..];
    assert r == l[..|r|];
    assert r == s[i..i + |r|];
    forall k | i + |r| <= k < |s|
      ensures IsSpace(s[k])
    {
      assert s[k] == l[k - i];
    }
  }

  /** A string that neither starts nor ends with white space is its own trim. */
  lemma TrimSpaceOfTrimmed(s: string)
    requires s == [] || (!IsSpace(s[0]) && !IsSpace(s[|s| - 1]))
    ensures TrimSpace(s) == s
  {
  }

  /** Trimming twice is trimming once. */
  lemma TrimSpaceIdempotent(s: string)
    ensures TrimSpace(TrimSpace(s)) == TrimSpace(s)
  {
    TrimSpaceSpec(s);
    TrimSpaceOfTrimmed(TrimSpace(s));
  }

  /** Number of occurrences of `c` in `s`. */
  function Occurrences(s: string, c: char): nat {
    if |s| == 0 then 0 else (if s[0] == c then 1 else 0) + Occurrences(s[1..], c)
  }

  /** `strings.Split(s, string(sep))`: the pieces between the separators, one more
      piece than there are separators, so that the empty string gives one empty piece. */
  function Split(s: string, sep: char): (pieces: seq<string>)
    ensures |pieces| >= 1
  {
    if |s| == 0 then [""]
    else if s[0] == sep then [""] + Split(s[1..], sep)
    else
      var rest := Split(s[1..], sep);
      [[s[0]] + rest[0]] + rest[1..]
  }

  /** `strings.Join(pieces, string(sep))` for a non-empty list of pieces. */
  function Join(pieces: seq<string>, sep: char): string
    requires |pieces| > 0
  {
    if |pieces| == 1 then pieces[0] else pieces[0] + [sep] + Join(pieces[1..], sep)
  }

  /** There is one piece more than there are separators, no piece holds the
      separator, and the first piece runs up to the first separator. */
  lemma {:induction false} SplitSpec(s: string, sep: char)
    ensures |Split(s, sep)| == Occurrences(s, sep) + 1
    ensures forall k :: 0 <= k < |Split(s, sep)| ==> sep !in Split(s, sep)[k]
    ensures var first := Split(s, sep)[0];
      HasPrefix(s, first) && (|first| == |s| || s[|first|] == sep)
  {
    if |s| > 0 {
      SplitSpec(s[1..], sep);
      var rest := Split(s[1..], sep);
      if s[0] != sep {
        assert Split(s, sep)[1..] == rest[1..];
        assert forall k :: 1 <= k < |Split(s, sep)| ==> Split(s, sep)[k] == rest[k];
      }
    }
  }

  /** Joining the pieces of a split gives back the string that was split. */
  lemma {:induction false} JoinSplit(s: string, sep: char)
    ensures Join(Split(s, sep), sep) == s
  {
    if |s| == 0 {
    } else if s[0] == sep {
      JoinSplit(s[1..], sep);
      assert s == [sep] + s[1..];
    } else {
      JoinSplit(s[1..], sep);
      var rest := Split(s[1..], sep);
      if |rest| == 1 {
        assert s == [s[0]] + s[1..];
      } else {
        calc {
          Join(Split(s, sep), sep);
          ([s[0]] + rest[0]) + [sep] + Join(rest[1..], sep);
          [s[0]] + (rest[0] + [sep] + Join(rest[1..], sep));
          [s[0]] + Join(rest, sep);
          s;
        }
      }
    }
  }

  /** Splitting a string that starts with a piece and a separator gives that piece first. */
  lemma {:induction false} SplitAfterPiece(piece: string, sep: char, rest: string)
    requires sep !in piece
    ensures Split(piece + [sep] + rest, sep) == [piece] + Split(rest, sep)
  {
    if |piece| == 0 {
      assert piece + [sep] + rest == [sep] + rest;
    } else {
      SplitAfterPiece(piece[1..], sep, rest);
      assert (piece + [sep] + rest)[1..] == piece[1..] + [sep] + rest;
      assert piece == [piece[0]] + piece[1..];
    }
  }

  /** Splitting the join of separator-free pieces gives back those pieces. */
  lemma {:induction false} SplitJoin(pieces: seq<string>, sep: char)
    requires |pieces| > 0
    requires forall k :: 0 <= k < |pieces| ==> sep !in pieces[k]
    ensures Split(Join(pieces, sep), sep) == pieces
  {
    if |pieces| == 1 {
      SplitNoSeparator(pieces[0], sep);
    } else {
      SplitJoin(pieces[1..], sep);
      SplitAfterPiece(pieces[0], sep, Join(pieces[1..], sep));
    }
  }

  /** A string without the separator splits into itself alone. */
  lemma {:induction false} SplitNoSeparator(s: string, sep: char)
    requires sep !in s
    ensures Split(s, sep) == [s]
  {
    if |s| > 0 {
      SplitNoSeparator(s[1..], sep);
      assert s == [s[0]] + s[1..];
    }
  }

  /** The scanner's tokens are the kept pieces themselves when none of them ends in a
      carriage return. */
  lemma ScanLinesOfPieces(text: string, lines: seq<string>)
    requires var pieces := Split(text, '\n');
      lines == if pieces[|pieces| - 1] == "" then pieces[..|pieces| - 1] else pieces
    requires forall k :: 0 <= k < |lines| ==> !HasSuffix(lines[k], "\r")
    ensures ScanLines(text) == lines
  {
    var scanned := ScanLines(text);
    assert |scanned| == |lines|;
    forall k | 0 <= k < |lines|
      ensures scanned[k] == lines[k]
    {
      assert !HasSuffix(lines[k], "\r");
      assert DropCR(lines[k]) == lines[k];
    }
  }

  /** Lines that hold no newline, the last one not empty and none ending in a
      carriage return, come back from scanning their newline-joined text. */
  lemma ScanLinesOfJoin(lines: seq<string>)
    requires |lines| > 0 && lines[|lines| - 1] != ""
    requires forall k :: 0 <= k < |lines| ==> '\n' !in lines[k]
    requires forall k :: 0 <= k < |lines| ==> !HasSuffix(lines[k], "\r")
    ensures ScanLines(Join(lines, '\n')) == lines
  {
    var text := Join(lines, '\n');
    SplitJoin(lines, '\n');
    assert Split(text, '\n') == lines;
    ScanLinesOfPieces(text, lines);
  }

  /** Joining one more piece appends a separator and that piece. */
  lemma {:induction false} JoinAppend(pieces: seq<string>, last: string, sep: char)
    requires |pieces| > 0
    ensures Join(pieces + [last], sep) == Join(pieces, sep) + [sep] + last
  {
    if |pieces| > 1 {
      JoinAppend(pieces[1..], last, sep);
      assert (pieces + [last])[1..] == pieces[1..] + [last];
    } else {
      assert (pieces + [last])[1..] == [last];
    }
  }

  /** Newline-free lines, each ended by a newline, split into those lines and a final
      empty piece. */
  lemma SplitOfTerminatedJoin(lines: seq<string>)
    requires |lines| > 0
    requires forall k :: 0 <= k < |lines| ==> '\n' !in lines[k]
    ensures Split(Join(lines, '\n') + "\n", '\n') == lines + [""]
  {
    var all := lines + [""];
    JoinAppend(lines, "", '\n');
    assert Join(lines, '\n') + ['\n'] + "" == Join(lines, '\n') + "\n";
    forall k | 0 <= k < |all|
      ensures '\n' !in all[k]
    {
      if k < |lines| { assert all[k] == lines[k]; }
    }
    SplitJoin(all, '\n');
  }

  /** Text whose every line is ended by a newline, as `git cat-file -p` prints it and
      as a commit file usually is: the scanner gives back exactly those lines, the
      last one included even when it is empty. */
  lemma ScanLinesOfTerminatedJoin(lines: seq<string>)
    requires |lines| > 0
    requires forall k :: 0 <= k < |lines| ==> '\n' !in lines[k]
    requires forall k :: 0 <= k < |lines| ==> !HasSuffix(lines[k], "\r")
    ensures ScanLines(Join(lines, '\n') + "\n") == lines
  {
    var text := Join(lines, '\n') + "\n";
    SplitOfTerminatedJoin(lines);
    var pieces := Split(text, '\n');
    assert pieces == lines + [""];
    assert pieces[..|pieces| - 1] == lines;
    ScanLinesOfPieces(text, lines);
  }

  /** `dropCR` of `bufio`: one trailing carriage return is removed. */
  function DropCR(s: string): (r: string)
    ensures r == s || (s == r + ['\r'])
    ensures |s| > 0 && s[|s| - 1] == '\r' ==> |r| == |s| - 1
  {
    if |s| > 0 && s[|s| - 1] == '\r' then s[..|s| - 1] else s
  }

  /** The tokens a `bufio.Scanner` with `ScanLines` yields for the whole of `text`:
      the newline-separated pieces without a final empty piece (a trailing newline
      ends the last line rather than starting a new one), each without one trailing
      carriage return. Empty text yields no token at all. */
  function ScanLines(text: string): seq<string> {
    var pieces := Split(text, '\n');
    var kept := if pieces[|pieces| - 1] == "" then pieces[..|pieces| - 1] else pieces;
    seq(|kept|, k requires 0 <= k < |kept| => DropCR(kept[k]))
  }
}
