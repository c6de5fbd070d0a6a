/** `explicit_heat_smooth`: forward-Euler-in-time, centred-in-space finite
    differences for the 1-D heat equation, with the two end samples held fixed
    (Dirichlet boundary) and a fixed time step k = 0.1. */
module HeatExplicit {
  import opened Series

  /** The time spacing k of the scheme. */
  const K: real := 0.1

  /** The default stop time t_end of the smoother. */
  const DefaultStopTime: real := 3.0

  /** The explicit stencil at interior position i of `p` for a time step k:
      k * (left neighbour + right neighbour) + (1 - 2k) * itself. */
  function StencilWithStep(p: seq<real>, i: int, k: real): real
    requires 0 < i < |p| - 1
  {
    k * (p[i - 1] + p[i + 1]) + (1.0 - 2.0 * k) * p[i]
  }

  /** The stencil the smoother applies, with k = 0.1. */
  function Stencil(p: seq<real>, i: int): real
    requires 0 < i < |p| - 1
  {
    StencilWithStep(p, i, K)
  }

  /** The new values of interior positions 1 .. count, each the stencil of
      the old series at that position. */
  function Interior(p: seq<real>, count: nat): (r: seq<real>)
    requires count <= |p| - 2
    ensures |r| == count
    ensures forall i {:trigger Stencil(p, i)} :: 0 < i <= count ==> r[i - 1] == Stencil(p, i)
  {
    if count == 0 then [] else Interior(p, count - 1) + [Stencil(p, count)]
  }

  /** One time step: every interior sample becomes its stencil, computed from
      the values before the step only; then `first` and `last` are put back at
      the two ends. */
  function Step(p: seq<real>, first: real, last: real): (r: seq<real>)
    requires |p| >= 2
    ensures |r| == |p|
    ensures r[0] == first && r[|r| - 1] == last
    ensures forall i {:trigger Stencil(p, i)} :: 0 < i < |p| - 1 ==> r[i] == Stencil(p, i)
  {
    [first] + Interior(p, |p| - 2) + [last]
  }

  /** The series after `n` steps, the original end samples re-attached each time. */
  function Smooth(prices: seq<real>, n: nat): (r: seq<real>)
    requires |prices| >= 2
    ensures |r| == |prices|
    ensures r[0] == prices[0] && r[|r| - 1] == prices[|prices| - 1]
  {
    if n == 0 then prices
    else Step(Smooth(prices, n - 1), prices[0], prices[|prices| - 1])
  }

  /** The number of passes of the time loop: the least n with n * k >= tEnd,
      that is ceil(tEnd / k) for tEnd > 0, and 0 otherwise. */
  function StepCount(tEnd: real): (n: nat)
    ensures n as real * K >= tEnd
    ensures n == 0 || (n - 1) as real * K < tEnd
    ensures tEnd <= 0.0 <==> n == 0
  {
    if tEnd <= 0.0 then 0
    else
      var q := tEnd / K;
      var f := q.Floor;
      if f as real == q then f else f + 1
  }

  /** With the default stop time the loop runs 30 passes. */
  lemma DefaultStepCount()
    ensures StepCount(DefaultStopTime) == 30
  {
  }

  /** While the clock steps * k is still below tEnd, fewer than StepCount(tEnd)
      steps have run. */
  lemma ClockBelowStopTime(tEnd: real, steps: nat)
    requires steps as real * K < tEnd
    ensures steps < StepCount(tEnd)
  {
  }

  /** Once the clock steps * k reaches tEnd, with no more than StepCount(tEnd)
      steps run, exactly StepCount(tEnd) steps have run. */
  lemma ClockReachedStopTime(tEnd: real, steps: nat)
    requires steps <= StepCount(tEnd)
    requires steps as real * K >= tEnd
    ensures steps == StepCount(tEnd)
  {
  }

  /** The smoother itself: starting from t = 0, step and advance t by k while
      t < tEnd. */
  method ExplicitHeatSmooth(prices: seq<real>, tEnd: real := DefaultStopTime) returns (p: seq<real>)
    requires |prices| >= 2
    ensures p == Smooth(prices, StepCount(tEnd))
    ensures tEnd <= 0.0 ==> p == prices
    ensures |p| == |prices| && p[0] == prices[0] && p[|p| - 1] == prices[|prices| - 1]
    ensures Within(p, Min(prices), Max(prices))
    ensures IsArithmetic(prices) ==> p == prices
    ensures TotalVariation(p) <= TotalVariation(prices)
  {
    p := prices;
    var t := 0.0;
    ghost var steps: nat := 0;
    while t < tEnd
      invariant t == steps as real * K
      invariant steps <= StepCount(tEnd)
      invariant p == Smooth(prices, steps)
      decreases StepCount(tEnd) - steps
    {
      ClockBelowStopTime(tEnd, steps);
      p := Step(p, prices[0], prices[|prices| - 1]);
      t := t + K;
      steps := steps + 1;
    }
    ClockReachedStopTime(tEnd, steps);
    SmoothStaysInRange(prices, StepCount(tEnd));
    SmoothVariation(prices, 0, StepCount(tEnd));
    if IsArithmetic(prices) {
      SmoothFixesLine(prices, StepCount(tEnd));
    }
  }

  /** A product of two non-negative reals is non-negative. */
  lemma ProductNonNegative(x: real, y: real)
    requires 0.0 <= x && 0.0 <= y
    ensures 0.0 <= x * y
  {
  }

  /** Stability, for the range of k where it holds: when 0 <= k <= 1/2 the
      stencil is a convex combination of three old samples (weights k, k and
      1 - 2k), so it stays in any interval that holds them. */
  lemma StencilWithinForHalf(p: seq<real>, i: int, k: real, lo: real, hi: real)
    requires 0 < i < |p| - 1
    requires 0.0 <= k <= 0.5
    requires lo <= p[i - 1] <= hi && lo <= p[i] <= hi && lo <= p[i + 1] <= hi
    ensures lo <= StencilWithStep(p, i, k) <= hi
  {
    var a, b, c := p[i - 1], p[i], p[i + 1];
    var w := 1.0 - 2.0 * k;
    var v := StencilWithStep(p, i, k);
    assert v - lo == k * (a - lo) + k * (c - lo) + w * (b - lo);
    assert hi - v == k * (hi - a) + k * (hi - c) + w * (hi - b);
    ProductNonNegative(k, a - lo);
    ProductNonNegative(k, c - lo);
    ProductNonNegative(w, b - lo);
    ProductNonNegative(k, hi - a);
    ProductNonNegative(k, hi - c);
    ProductNonNegative(w, hi - b);
  }

  /** The documented range 0 <= k <= 1 is too wide: at k = 1 the stencil on
      [0, 1, 0] puts -1 in the middle, outside the range [0, 1] of the input. */
  lemma DocumentedRangeCounterexample()
    ensures Within([0.0, 1.0, 0.0], 0.0, 1.0)
    ensures StencilWithStep([0.0, 1.0, 0.0], 1, 1.0) == -1.0 < 0.0
  {
  }

  /** Stability of one step: with k = 1/10 a step never leaves an interval
      that holds the series and both boundary values. */
  lemma StepWithin(p: seq<real>, first: real, last: real, lo: real, hi: real)
    requires |p| >= 2
    requires Within(p, lo, hi) && lo <= first <= hi && lo <= last <= hi
    ensures Within(Step(p, first, last), lo, hi)
  {
    var r := Step(p, first, last);
    forall i | 0 < i < |p| - 1
      ensures lo <= r[i] <= hi
    {
      assert r[i] == Stencil(p, i);
      StencilWithinForHalf(p, i, K, lo, hi);
    }
  }

  /** Any number of steps keeps every sample within an interval that holds the input. */
  lemma {:induction false} SmoothWithin(prices: seq<real>, n: nat, lo: real, hi: real)
    requires |prices| >= 2 && Within(prices, lo, hi)
    ensures Within(Smooth(prices, n), lo, hi)
  {
    if n > 0 {
      SmoothWithin(prices, n - 1, lo, hi);
      StepWithin(Smooth(prices, n - 1), prices[0], prices[|prices| - 1], lo, hi);
    }
  }

  /** Maximum principle: every smoothed sample lies between the smallest and
      the largest input sample. */
  lemma SmoothStaysInRange(prices: seq<real>, n: nat)
    requires |prices| >= 2
    ensures Within(Smooth(prices, n), Min(prices), Max(prices))
  {
    SmoothWithin(prices, n, Min(prices), Max(prices));
  }

  /** A straight line with its own end samples re-attached is unchanged by a step. */
  lemma StepFixesLine(p: seq<real>)
    requires IsArithmetic(p)
    ensures Step(p, p[0], p[|p| - 1]) == p
  {
    var r := Step(p, p[0], p[|p| - 1]);
    forall i | 0 < i < |p| - 1
      ensures r[i] == p[i]
    {
      assert r[i] == Stencil(p, i);
      assert Gap(p, i) == Gap(p, i + 1) == p[1] - p[0];
    }
  }

  /** Each gap after a step (the series' own end samples re-attached) is at
      most a weighted sum of the absolute old gaps around it: k of the gap on
      each side that exists, and the rest of a total weight 1 on itself. */
  lemma StepGapBound(p: seq<real>, i: int)
    requires |p| >= 3 && 0 < i < |p|
    ensures Abs(Gap(Step(p, p[0], p[|p| - 1]), i))
         <= (if i > 1 then K * Abs(Gap(p, i - 1)) else 0.0)
          + (1.0 - (if i > 1 then K else 0.0) - (if i < |p| - 1 then K else 0.0)) * Abs(Gap(p, i))
          + (if i < |p| - 1 then K * Abs(Gap(p, i + 1)) else 0.0)
  {
    var n := |p|;
    var r := Step(p, p[0], p[n - 1]);
    if i > 1 {
      assert r[i - 1] == Stencil(p, i - 1);
    }
    if i < n - 1 {
      assert r[i] == Stencil(p, i);
    }
  }

  /** The variation of the first k gaps after a step is at most their old
      variation, with weight k of gap k passed on to gap k + 1. */
  lemma {:induction false} StepVariationPrefix(p: seq<real>, k: nat)
    requires |p| >= 3 && 1 <= k <= |p| - 2
    ensures VariationUpTo(Step(p, p[0], p[|p| - 1]), k)
         <= VariationUpTo(p, k) - K * Abs(Gap(p, k)) + K * Abs(Gap(p, k + 1))
  {
    StepGapBound(p, k);
    if k > 1 {
      StepVariationPrefix(p, k - 1);
    }
  }

  /** One step never increases the total variation: every old gap hands out
      a total weight of exactly 1 to the new gaps. */
  lemma StepVariation(p: seq<real>)
    requires |p| >= 2
    ensures TotalVariation(Step(p, p[0], p[|p| - 1])) <= TotalVariation(p)
  {
    var n := |p|;
    var r := Step(p, p[0], p[n - 1]);
    if n == 2 {
      assert r == p;
    } else {
      StepVariationPrefix(p, n - 2);
      StepGapBound(p, n - 1);
    }
  }

  /** More steps never increase the total variation. */
  lemma {:induction false} SmoothVariation(prices: seq<real>, a: nat, b: nat)
    requires |prices| >= 2 && a <= b
    ensures TotalVariation(Smooth(prices, b)) <= TotalVariation(Smooth(prices, a))
  {
    if a < b {
      SmoothVariation(prices, a, b - 1);
      StepVariation(Smooth(prices, b - 1));
    }
  }

  /** A later stop time runs at least as many passes. */
  lemma StepCountMonotone(t1: real, t2: real)
    requires t1 <= t2
    ensures StepCount(t1) <= StepCount(t2)
  {
  }

  /** Raising the stop time never increases the total variation of the result. */
  lemma StopTimeVariation(prices: seq<real>, t1: real, t2: real)
    requires |prices| >= 2 && t1 <= t2
    ensures TotalVariation(Smooth(prices, StepCount(t2)))
         <= TotalVariation(Smooth(prices, StepCount(t1)))
  {
    StepCountMonotone(t1, t2);
    SmoothVariation(prices, StepCount(t1), StepCount(t2));
  }

  /** A straight line is a fixed point of the smoother, however long it runs. */
  lemma {:induction false} SmoothFixesLine(p: seq<real>, n: nat)
    requires IsArithmetic(p)
    ensures Smooth(p, n) == p
  {
    if n > 0 {
      SmoothFixesLine(p, n - 1);
      StepFixesLine(p);
    }
  }

  /** Running a steps and then b more steps on the result is running a + b
      steps: the result keeps the input's end samples, which are re-attached. */
  lemma {:induction false} SmoothCompose(prices: seq<real>, a: nat, b: nat)
    requires |prices| >= 2
    ensures Smooth(Smooth(prices, a), b) == Smooth(prices, a + b)
  {
    if b > 0 {
      SmoothCompose(prices, a, b - 1);
    }
  }

  /** One step (tEnd = 0.1) on [0, 1, 0, 1, 0] gives [0, 0.8, 0.2, 0.8, 0]. */
  lemma OneStepExample()
    ensures StepCount(0.1) == 1
    ensures Smooth([0.0, 1.0, 0.0, 1.0, 0.0], StepCount(0.1)) == [0.0, 0.8, 0.2, 0.8, 0.0]
  {
    var r := Step([0.0, 1.0, 0.0, 1.0, 0.0], 0.0, 0.0);
    assert r[1] == 0.8 && r[2] == 0.2 && r[3] == 0.8;
  }

  /** That step lowers the total variation of [0, 1, 0, 1, 0] from 4 to 2.8. */
  lemma OneStepVariationExample()
    ensures TotalVariation([0.0, 1.0, 0.0, 1.0, 0.0]) == 4.0
    ensures TotalVariation(Step([0.0, 1.0, 0.0, 1.0, 0.0], 0.0, 0.0)) == 2.8
  {
    var r := Step([0.0, 1.0, 0.0, 1.0, 0.0], 0.0, 0.0);
    assert r == [0.0, 0.8, 0.2, 0.8, 0.0] by {
      assert r[1] == Stencil([0.0, 1.0, 0.0, 1.0, 0.0], 1);
      assert r[2] == Stencil([0.0, 1.0, 0.0, 1.0, 0.0], 2);
      assert r[3] == Stencil([0.0, 1.0, 0.0, 1.0, 0.0], 3);
    }
  }
}
