/** The deviation function `eval_bias` and the per-merge score built from two of its
    values (merge-check.go, lines 66-73 and 95-112). */
module Bias {

  function Abs(x: int): nat {
    if x < 0 then -x else x
  }

  function Min(a: int, b: int): int {
    if a < b then a else b
  }

  /** Multiplying by a natural keeps the order. */
  lemma MulMono(x: int, y: int, e: nat)
    requires x <= y
    ensures x * e <= y * e
  {
  }

  /** Euclidean division of naturals, bracketed by multiples of the divisor. */
  lemma DivBracket(a: nat, b: nat)
    requires b > 0
    ensures (a / b) * b <= a < (a / b + 1) * b
  {
  }

  /** A multiple of `b` divided by `b` gives the factor back. */
  lemma DivMultiple(k: nat, b: nat)
    requires b > 0
    ensures (k * b) / b == k
  {
    var q := (k * b) / b;
    DivBracket(k * b, b);
    if q < k {
      MulMono(q + 1, k, b);
    } else if q > k {
      MulMono(k + 1, q, b);
    }
  }

  /** Go's integer `/`, which truncates toward zero (Dafny's `/` is Euclidean). */
  function TruncDiv(a: int, b: int): (q: int)
    requires b != 0
    ensures Abs(q) == Abs(a) / Abs(b)
    ensures q == 0 || ((q > 0) <==> ((a > 0) == (b > 0)))
  {
    var m := Abs(a) / Abs(b);
    assert m > 0 ==> Abs(a) > 0 by {
      if Abs(a) == 0 { assert m == 0; }
    }
    if (a < 0) == (b < 0) then m else -m
  }

  /** `eval_bias(real_value, expect)`: how far the observed count is from the
      expected one. A zero on exactly one side is the full 100, two zeros are no
      deviation at all; otherwise see `DeviationIsCappedPercentage`. */
  function Deviation(observed: int, expected: int): (r: int)
    ensures r <= 100
    ensures expected >= 0 ==> 0 <= r
    ensures observed == expected ==> r == 0
    ensures expected == 0 ==> (r == 0 <==> observed == 0) && (r == 0 || r == 100)
    ensures expected != 0 && observed == 0 ==> r == 100
  {
    if expected == 0 then
      (if observed == expected then 0 else 100)
    else if observed == 0 then
      100
    else
      var bias := TruncDiv(Abs(observed - expected) * 100, expected);
      if bias > 100 then 100 else bias
  }

  /** The truncated percentage `d * 100 / e` reaches 100 exactly when `d >= e`. */
  lemma PercentReachesHundred(d: nat, e: nat)
    requires e > 0
    ensures d * 100 / e >= 100 <==> d >= e
  {
  }

  /** With a positive expected count the deviation is the relative error in
      percent, rounded toward zero, and it is capped at 100 exactly when the
      observed count is off by at least the whole expected count. */
  lemma {:induction false} DeviationIsCappedPercentage(observed: int, expected: int)
    requires expected > 0
    ensures Deviation(observed, expected) == 100 <==> Abs(observed - expected) >= expected
    ensures Deviation(observed, expected) < 100 ==>
      Deviation(observed, expected) * expected <= Abs(observed - expected) * 100
      < (Deviation(observed, expected) + 1) * expected
  {
    var d := Abs(observed - expected);
    PercentReachesHundred(d, expected);
    DivBracket(d * 100, expected);
  }

  /** With a positive expected count the special case for an observed 0 agrees
      with the general formula: the deviation is the truncated percentage, capped. */
  lemma DeviationFormula(observed: int, expected: int)
    requires expected > 0
    ensures Deviation(observed, expected) == Min(100, Abs(observed - expected) * 100 / expected)
  {
    if observed == 0 {
      DivMultiple(100, expected);
      assert Abs(observed - expected) * 100 == 100 * expected;
    }
  }

  /** For counts, as the source computes them, a deviation lies in [0, 100]. */
  lemma DeviationRange(observed: nat, expected: nat)
    ensures 0 <= Deviation(observed, expected) <= 100
  {
  }

  /** The boundary values the source's behaviour is pinned down by. */
  lemma DeviationExamples()
    ensures Deviation(0, 0) == 0
    ensures Deviation(7, 0) == 100
    ensures Deviation(0, 7) == 100
    ensures Deviation(3, 2) == 50
    ensures Deviation(1, 3) == 66
    ensures Deviation(2, 3) == 33
    ensures Deviation(4, 3) == 33
    ensures Deviation(5, 2) == 100
  {
  }

  /** The four change-set counts of one merge commit: each parent against the
      merge-base and the merge commit against each parent. */
  datatype Counts = Counts(baseMine: nat, baseTheirs: nat, mergeMine: nat, mergeTheirs: nat)

  /** Larger of two ints, ties going to the second as in the source's `if bias1 > bias2`. */
  function Max(a: int, b: int): (r: int)
    ensures r >= a && r >= b
    ensures r == a || r == b
  {
    if a > b then a else b
  }

  /** The score of a merge: the worse of the two deviations, what the merge changed
      against one parent measured against what the other parent changed since the
      merge-base. */
  function MergeScore(c: Counts): (r: int)
    ensures r >= Deviation(c.mergeTheirs, c.baseMine)
    ensures r >= Deviation(c.mergeMine, c.baseTheirs)
    ensures r == Deviation(c.mergeTheirs, c.baseMine) || r == Deviation(c.mergeMine, c.baseTheirs)
    ensures 0 <= r <= 100
    ensures r == 0 <==> Deviation(c.mergeTheirs, c.baseMine) == 0 && Deviation(c.mergeMine, c.baseTheirs) == 0
  {
    Max(Deviation(c.mergeTheirs, c.baseMine), Deviation(c.mergeMine, c.baseTheirs))
  }

  /** A merge whose diffs against each parent are as large as the other parent's own
      change since the merge-base scores 0. */
  lemma BalancedMergeScoresZero(c: Counts)
    requires c.mergeTheirs == c.baseMine && c.mergeMine == c.baseTheirs
    ensures MergeScore(c) == 0
  {
  }

  /** Swapping the two parents (mine for theirs) does not change the score. */
  lemma MergeScoreSymmetric(c: Counts)
    ensures MergeScore(Counts(c.baseTheirs, c.baseMine, c.mergeTheirs, c.mergeMine)) == MergeScore(c)
  {
  }
}
