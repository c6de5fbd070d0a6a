/** `heat_analytical_smooth`: the closed-form solution of the heat equation on
    [0, L], L = n - 1, with the end samples p0 and pn as fixed boundary values:
    the steady-state straight line between them plus a truncated sine series
    with m - 1 harmonics, each damped by its own exponential decay.

    The transcendental values are parameters of the model:
    `sine(j, x)` stands for sin(j * pi * x / L) and `decay(t, j)` for
    exp(-t * (j * pi / L)^2). Everything else is the source's real arithmetic. */
module HeatAnalytical {
  import opened Series

  /** The default evaluation time t of the smoother. */
  const DefaultTime: real := 3.0

  /** The default term count m: harmonics 1 .. m - 1 are used. */
  const DefaultTerms: int := 200

  /** The steady state u_e: the straight line from p0 at position 0 to pn at
      position n - 1, sampled at the n integer positions. */
  function SteadyState(p0: real, pn: real, n: nat): (u: seq<real>)
    requires n >= 2
    ensures |u| == n && u[0] == p0 && u[n - 1] == pn
  {
    var len := (n - 1) as real;
    seq(n, x requires 0 <= x < n => p0 + (pn - p0) * x as real / len)
  }

  /** The deviation of sample x of `prices` from the steady state `ue`
      (zero outside the series). */
  function Deviation(prices: seq<real>, ue: seq<real>, x: int): real
    requires |ue| == |prices|
  {
    if 0 <= x < |prices| then prices[x] - ue[x] else 0.0
  }

  /** The coefficient b_j of harmonic j: 2/n times the sum over all positions
      x of sin(j * pi * x / L) * (prices[x] - ue[x]). */
  function Coefficient(prices: seq<real>, ue: seq<real>, sine: (int, int) -> real, j: int): real
    requires |ue| == |prices| >= 2
  {
    2.0 * Sum(0, |prices|, x => sine(j, x) * Deviation(prices, ue, x)) / |prices| as real
  }

  /** The decaying correction at position x: the sum over the harmonics
      j = 1 .. m - 1 of b_j * exp(-t (j pi / L)^2) * sin(j pi x / L); empty,
      hence zero, when m <= 1. */
  function Correction(prices: seq<real>, ue: seq<real>, t: real, m: int,
                      sine: (int, int) -> real, decay: (real, int) -> real, x: int): real
    requires |ue| == |prices| >= 2
  {
    Sum(1, m, j => Coefficient(prices, ue, sine, j) * decay(t, j) * sine(j, x))
  }

  /** The smoother: the steady state plus the correction, position by position. */
  function HeatAnalyticalSmooth(prices: seq<real>, sine: (int, int) -> real, decay: (real, int) -> real,
                                t: real := DefaultTime, m: int := DefaultTerms): (r: seq<real>)
    requires |prices| >= 2
    ensures |r| == |prices|
  {
    var n := |prices|;
    var ue := SteadyState(prices[0], prices[n - 1], n);
    seq(n, x requires 0 <= x < n => ue[x] + Correction(prices, ue, t, m, sine, decay, x))
  }

  /** The steady state is a straight line whose every step is (pn - p0) / (n - 1). */
  lemma SteadyStateSlope(p0: real, pn: real, n: nat)
    requires n >= 2
    ensures HasSlope(SteadyState(p0, pn, n), (pn - p0) / (n - 1) as real)
    ensures IsArithmetic(SteadyState(p0, pn, n))
  {
    var u := SteadyState(p0, pn, n);
    var len := (n - 1) as real;
    forall x | 0 < x < n
      ensures Gap(u, x) == (pn - p0) / len
    {
      calc {
        Gap(u, x);
        (p0 + (pn - p0) * x as real / len) - (p0 + (pn - p0) * (x - 1) as real / len);
        ((pn - p0) * x as real - (pn - p0) * (x - 1) as real) / len;
        (pn - p0) / len;
      }
    }
    assert Gap(u, 1) == (pn - p0) / len;
  }

  /** Scaling by x and then dividing by len is scaling the quotient by x. */
  lemma ScaleThenDivide(a: real, x: real, len: real)
    requires len != 0.0
    ensures a * x / len == x * (a / len)
  {
  }

  /** Sample x of a straight line is sample x of the steady state between its
      end samples. */
  lemma LineSampleIsSteadyState(p: seq<real>, x: nat)
    requires IsArithmetic(p) && x < |p|
    ensures p[x] == SteadyState(p[0], p[|p| - 1], |p|)[x]
  {
    var n := |p|;
    var d := p[1] - p[0];
    var len := (n - 1) as real;
    LineValue(p, d, n - 1);
    LineValue(p, d, x);
    assert d == (p[n - 1] - p[0]) / len;
    ScaleThenDivide(p[n - 1] - p[0], x as real, len);
  }

  /** Every straight line is the steady state between its own end samples. */
  lemma ArithmeticIsSteadyState(p: seq<real>)
    requires IsArithmetic(p)
    ensures p == SteadyState(p[0], p[|p| - 1], |p|)
  {
    var u := SteadyState(p[0], p[|p| - 1], |p|);
    forall x | 0 <= x < |p|
      ensures p[x] == u[x]
    {
      LineSampleIsSteadyState(p, x);
    }
  }

  /** With no harmonics (m <= 1) the correction vanishes and the result is
      exactly the steady state: it starts at p0, ends at pn and climbs by
      (pn - p0) / (n - 1) per position. */
  lemma DegenerateIsSteadyState(prices: seq<real>, t: real, m: int,
                                sine: (int, int) -> real, decay: (real, int) -> real)
    requires |prices| >= 2 && m <= 1
    ensures HeatAnalyticalSmooth(prices, sine, decay, t, m)
         == SteadyState(prices[0], prices[|prices| - 1], |prices|)
    ensures var r := HeatAnalyticalSmooth(prices, sine, decay, t, m);
            r[0] == prices[0] && r[|r| - 1] == prices[|prices| - 1]
            && HasSlope(r, (prices[|prices| - 1] - prices[0]) / (|prices| - 1) as real)
  {
    var n := |prices|;
    var r := HeatAnalyticalSmooth(prices, sine, decay, t, m);
    var ue := SteadyState(prices[0], prices[n - 1], n);
    forall x | 0 <= x < n
      ensures r[x] == ue[x]
    {
      assert Correction(prices, ue, t, m, sine, decay, x) == 0.0;
    }
    SteadyStateSlope(prices[0], prices[n - 1], n);
  }

  /** The end samples survive whenever every sine vanishes at both ends, as
      sin(0) and sin(j * pi) do in exact arithmetic. */
  lemma AnalyticalKeepsEndpoints(prices: seq<real>, t: real, m: int,
                                 sine: (int, int) -> real, decay: (real, int) -> real)
    requires |prices| >= 2
    requires forall j, x :: x == 0 || x == |prices| - 1 ==> sine(j, x) == 0.0
    ensures var r := HeatAnalyticalSmooth(prices, sine, decay, t, m);
            r[0] == prices[0] && r[|r| - 1] == prices[|prices| - 1]
  {
    var n := |prices|;
    var ue := SteadyState(prices[0], prices[n - 1], n);
    SumOfZeros(1, m, j => Coefficient(prices, ue, sine, j) * decay(t, j) * sine(j, 0));
    SumOfZeros(1, m, j => Coefficient(prices, ue, sine, j) * decay(t, j) * sine(j, n - 1));
  }

  /** A straight-line input has no deviation from its steady state, so every
      coefficient is zero and the smoother returns the input unchanged, for any
      time, any number of harmonics and any sine and decay values. */
  lemma AnalyticalFixesLine(prices: seq<real>, t: real, m: int,
                            sine: (int, int) -> real, decay: (real, int) -> real)
    requires IsArithmetic(prices)
    ensures HeatAnalyticalSmooth(prices, sine, decay, t, m) == prices
  {
    var n := |prices|;
    var ue := SteadyState(prices[0], prices[n - 1], n);
    ArithmeticIsSteadyState(prices);
    forall j
      ensures Coefficient(prices, ue, sine, j) == 0.0
    {
      forall x | 0 <= x < n
        ensures sine(j, x) * Deviation(prices, ue, x) == 0.0
      {
        assert Deviation(prices, ue, x) == 0.0;
      }
      SumOfZeros(0, n, x => sine(j, x) * Deviation(prices, ue, x));
    }
    var r := HeatAnalyticalSmooth(prices, sine, decay, t, m);
    forall x | 0 <= x < n
      ensures r[x] == prices[x]
    {
      SumOfZeros(1, m, j => Coefficient(prices, ue, sine, j) * decay(t, j) * sine(j, x));
    }
  }
}
