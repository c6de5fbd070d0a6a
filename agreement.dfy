/** How the two smoothers of filters.py relate: the steady state the analytical
    solver is built on is exactly what the explicit stepper leaves alone, and on
    a straight-line input both return that input. */
module SolverAgreement {
  import opened Series
  import opened HeatExplicit
  import opened HeatAnalytical

  /** The steady-state line u_e is a fixed point of the explicit stepper, for
      any number of steps. */
  lemma SteadyStateIsExplicitFixedPoint(p0: real, pn: real, n: nat, steps: nat)
    requires n >= 2
    ensures Smooth(SteadyState(p0, pn, n), steps) == SteadyState(p0, pn, n)
  {
    SteadyStateSlope(p0, pn, n);
    SmoothFixesLine(SteadyState(p0, pn, n), steps);
  }

  /** The analytical result without harmonics (m <= 1) is left unchanged by
      any number of explicit steps. */
  lemma DegenerateIsExplicitFixedPoint(prices: seq<real>, t: real, m: int,
                                       sine: (int, int) -> real, decay: (real, int) -> real, steps: nat)
    requires |prices| >= 2 && m <= 1
    ensures var r := HeatAnalyticalSmooth(prices, sine, decay, t, m);
            Smooth(r, steps) == r
  {
    DegenerateIsSteadyState(prices, t, m, sine, decay);
    SteadyStateIsExplicitFixedPoint(prices[0], prices[|prices| - 1], |prices|, steps);
  }

  /** On a straight-line input both smoothers return the input itself, so
      they agree whatever the stop time, the number of harmonics and the sine
      and decay values. */
  lemma SolversAgreeOnLines(prices: seq<real>, tEnd: real, t: real, m: int,
                            sine: (int, int) -> real, decay: (real, int) -> real)
    requires IsArithmetic(prices)
    ensures Smooth(prices, StepCount(tEnd)) == prices
    ensures HeatAnalyticalSmooth(prices, sine, decay, t, m) == prices
  {
    SmoothFixesLine(prices, StepCount(tEnd));
    AnalyticalFixesLine(prices, t, m, sine, decay);
  }
}
