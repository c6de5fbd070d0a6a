/** Vocabulary shared by both heat-equation smoothers: a series is a sequence of
    real samples at unit-spaced positions 0 .. n-1. */
module Series {

  /** The smallest sample of a non-empty series. */
  function Min(s: seq<real>): (r: real)
    requires |s| > 0
    ensures r in s
    ensures forall i :: 0 <= i < |s| ==> r <= s[i]
  {
    if |s| == 1 then s[0]
    else
      var rest := Min(s[1..]);
      if s[0] <= rest then s[0] else rest
  }

  /** The largest sample of a non-empty series. */
  function Max(s: seq<real>): (r: real)
    requires |s| > 0
    ensures r in s
    ensures forall i :: 0 <= i < |s| ==> s[i] <= r
  {
    if |s| == 1 then s[0]
    else
      var rest := Max(s[1..]);
      if s[0] >= rest then s[0] else rest
  }

  /** Every sample of `s` lies in the closed interval [lo, hi]. */
  predicate Within(s: seq<real>, lo: real, hi: real)
  {
    forall i :: 0 <= i < |s| ==> lo <= s[i] <= hi
  }

  /** The difference between sample i and the sample before it. */
  function Gap(s: seq<real>, i: int): real
    requires 0 < i < |s|
  {
    s[i] - s[i - 1]
  }

  /** Absolute value. */
  function Abs(x: real): real
  {
    if x < 0.0 then -x else x
  }

  /** |s[1] - s[0]| + ... + |s[k] - s[k - 1]|: the variation of the first k gaps. */
  function VariationUpTo(s: seq<real>, k: nat): real
    requires k < |s|
  {
    if k == 0 then 0.0 else VariationUpTo(s, k - 1) + Abs(Gap(s, k))
  }

  /** The total variation of a series: the sum of its absolute consecutive
      differences. */
  function TotalVariation(s: seq<real>): real
  {
    if |s| == 0 then 0.0 else VariationUpTo(s, |s| - 1)
  }

  /** `s` is a straight line: all consecutive differences equal `d`. */
  predicate HasSlope(s: seq<real>, d: real)
  {
    forall i :: 0 < i < |s| ==> Gap(s, i) == d
  }

  /** `s` is an arithmetic progression (a straight line, a constant series included). */
  predicate IsArithmetic(s: seq<real>)
  {
    |s| >= 2 && HasSlope(s, s[1] - s[0])
  }

  /** f(lo) + f(lo + 1) + ... + f(hi - 1); zero when the range is empty,
      as a numpy sum over an empty axis is. */
  function Sum(lo: int, hi: int, f: int -> real): real
    decreases hi - lo
  {
    if lo >= hi then 0.0 else f(lo) + Sum(lo + 1, hi, f)
  }

  /** A sum whose every term in range vanishes is zero. */
  lemma {:induction false} SumOfZeros(lo: int, hi: int, f: int -> real)
    requires forall i :: lo <= i < hi ==> f(i) == 0.0
    ensures Sum(lo, hi, f) == 0.0
    decreases hi - lo
  {
    if lo < hi {
      SumOfZeros(lo + 1, hi, f);
    }
  }

  /** On a straight line with slope d, sample i is s[0] + i * d. */
  lemma {:induction false} LineValue(s: seq<real>, d: real, i: nat)
    requires HasSlope(s, d)
    requires i < |s|
    ensures s[i] == s[0] + i as real * d
  {
    if i > 0 {
      LineValue(s, d, i - 1);
      assert Gap(s, i) == d;
    }
  }
}
