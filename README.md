# Heat-equation smoothers, modelled in Dafny

This project models the two diffusion smoothers in `src/modules/filters.py`.
Both treat a price series as the initial condition of the 1-D heat equation.
The first and last samples are held fixed as Dirichlet boundary values.

- `explicit_heat_smooth` is an explicit finite-difference scheme. It is forward
  Euler in time and centred in space, with a fixed time step k = 0.1. Starting
  at t = 0, each pass replaces every interior sample by
  `k * (left + right) + (1 - 2k) * self`, computed from the previous values
  only. It then re-attaches the original end samples and advances t by k.
  It stops once t >= t_end. This is modelled as the method
  `HeatExplicit.ExplicitHeatSmooth`: a `while` loop over the series and the
  clock `t`, proved against the specification function `HeatExplicit.Smooth`
  (n applications of `HeatExplicit.Step`). Its stop time defaults to
  `DefaultStopTime` = 3.0, as in the source.
- `heat_analytical_smooth` is the closed-form (sine-series) solution. It is
  the steady-state line `u_e = p0 + (pn - p0) * x / L` plus a correction made
  of m - 1 damped harmonics. The steady state and the structure of the
  correction are modelled exactly over the reals. The transcendental values
  are parameters: `sine(j, x)` stands for `sin(j * pi * x / L)` and
  `decay(t, j)` for `exp(-t * (j * pi / L)^2)`. Every property proved about
  the analytical solver holds for all such parameters, or for those that
  vanish at the two ends, as the lemma says. The two parameters come before
  `t` and `m`, so that `t` and `m` keep the source's defaults 3.0 and 200
  (`DefaultTime`, `DefaultTerms`).

All arithmetic is over Dafny's exact `real`. Modules:
`Series` (min, max, total variation, straight lines and sums over index ranges),
`HeatExplicit`, `HeatAnalytical`, and `SolverAgreement` (lemmas that relate the
two solvers).

## Model

| member | source | states |
|---|---|---|
| `HeatExplicit.Interior` | src/modules/filters.py:36 | the vectorised stencil yields one value per interior position; the value for position i is the stencil of the old series at i |
| `HeatExplicit.Step` | src/modules/filters.py:36-46 | one pass keeps the length; puts the given first and last values at the ends; sets every interior sample to `k*(P[i-1]+P[i+1]) + (1-2k)*P[i]`, using values from before the pass only |
| `HeatExplicit.Smooth` | src/modules/filters.py:31-47 | after any number of passes the series has the input's length, first sample and last sample |
| `HeatExplicit.StepCount` | src/modules/filters.py:33-47 | the loop runs the least number n of passes with n * k >= t_end: zero exactly when t_end <= 0, otherwise ceil(t_end / k) |
| `HeatExplicit.ClockBelowStopTime` | src/modules/filters.py:34 | while the clock is still below t_end, fewer than StepCount(t_end) passes have run |
| `HeatExplicit.ClockReachedStopTime` | src/modules/filters.py:34 | once the clock reaches t_end, exactly StepCount(t_end) passes have run |
| `HeatExplicit.DefaultStepCount` | src/modules/filters.py:4-34 | with the default t_end = 3.0 the loop runs 30 passes |
| `HeatExplicit.ExplicitHeatSmooth` | src/modules/filters.py:4-49 | the loop returns exactly StepCount(t_end) passes of Step; the input unchanged when t_end <= 0; same length and end samples; every sample between min and max of the input; a straight-line input unchanged; total variation no larger than the input's |
| `HeatExplicit.StencilWithinForHalf` | src/modules/filters.py:5-9 | for 0 <= k <= 1/2 the stencil is a convex combination and stays in any interval holding its three inputs |
| `HeatExplicit.DocumentedRangeCounterexample` | src/modules/filters.py:8-9 | at k = 1, inside the documented range, the stencil maps [0, 1, 0] to -1 in the middle, outside the input's range |
| `HeatExplicit.StepWithin` | src/modules/filters.py:28-46 | with k = 0.1 one pass stays within any interval holding the series and both boundary values |
| `HeatExplicit.SmoothWithin` | src/modules/filters.py:33-47 | any number of passes stays within any interval holding the input |
| `HeatExplicit.SmoothStaysInRange` | src/modules/filters.py:5-9 | maximum principle: after any number of passes every sample lies in [min(prices), max(prices)] |
| `HeatExplicit.StepFixesLine` | src/modules/filters.py:36-46 | a straight line (constant series included) is unchanged by one pass |
| `HeatExplicit.SmoothFixesLine` | src/modules/filters.py:33-47 | a straight line is unchanged by any number of passes |
| `HeatExplicit.SmoothCompose` | src/modules/filters.py:33-47 | a passes followed by b more passes equal a + b passes |
| `HeatExplicit.StepGapBound` | src/modules/filters.py:36-46 | after one pass each consecutive difference is at most k times each neighbouring old difference plus the remaining weight (1 - k at an end, 1 - 2k inside) times its own old difference, in absolute value |
| `HeatExplicit.StepVariationPrefix` | src/modules/filters.py:36-46 | after one pass the variation of the first k differences is at most their old variation, less k times the old k-th difference plus k times the old (k+1)-th |
| `HeatExplicit.StepVariation` | src/modules/filters.py:36-46 | one pass never increases the total variation (sum of absolute consecutive differences) |
| `HeatExplicit.SmoothVariation` | src/modules/filters.py:33-47 | more passes never increase the total variation |
| `HeatExplicit.StepCountMonotone` | src/modules/filters.py:33-47 | a later stop time runs at least as many passes |
| `HeatExplicit.StopTimeVariation` | src/modules/filters.py:4-49 | raising t_end never increases the total variation of the result |
| `HeatExplicit.OneStepVariationExample` | src/modules/filters.py:36-46 | one pass lowers the total variation of [0, 1, 0, 1, 0] from 4 to 2.8 |
| `HeatExplicit.OneStepExample` | src/modules/filters.py:28-47 | t_end = 0.1 runs one pass, and one pass on [0, 1, 0, 1, 0] gives [0, 0.8, 0.2, 0.8, 0] |
| `HeatAnalytical.SteadyState` | src/modules/filters.py:74-82 | u_e has n samples, starts at p0 and ends at pn |
| `HeatAnalytical.SteadyStateSlope` | src/modules/filters.py:81-82 | every consecutive difference of u_e is (pn - p0) / (n - 1), so u_e is a straight line |
| `HeatAnalytical.LineSampleIsSteadyState` | src/modules/filters.py:82 | sample x of a straight line equals sample x of the u_e between its end samples |
| `HeatAnalytical.ArithmeticIsSteadyState` | src/modules/filters.py:74-82 | every straight line equals the u_e between its own end samples |
| `HeatAnalytical.HeatAnalyticalSmooth` | src/modules/filters.py:52-100 | the result has one sample per input sample; t and m default to 3.0 and 200 |
| `HeatAnalytical.DegenerateIsSteadyState` | src/modules/filters.py:79-100 | with m <= 1 there are no harmonics, and the result is exactly u_e: it starts at p0, ends at pn and climbs by (pn - p0) / (n - 1) per position |
| `HeatAnalytical.AnalyticalKeepsEndpoints` | src/modules/filters.py:84-100 | the end samples are kept whenever every sine vanishes at positions 0 and L |
| `HeatAnalytical.AnalyticalFixesLine` | src/modules/filters.py:84-100 | a straight-line input has all coefficients b_j zero and is returned unchanged, for any t, m, sine and decay |
| `SolverAgreement.SteadyStateIsExplicitFixedPoint` | src/modules/filters.py:82 | u_e is a fixed point of any number of explicit passes |
| `SolverAgreement.DegenerateIsExplicitFixedPoint` | src/modules/filters.py:97-100 | the analytical result with m <= 1 is left unchanged by explicit passes |
| `SolverAgreement.SolversAgreeOnLines` | src/modules/filters.py:4-100 | on a straight-line input both smoothers return the input |

## Findings

| source | as written | input that shows it | evidently intended | confidence | as-written member | corrected member |
|---|---|---|---|---|---|---|
| src/modules/filters.py:8-9 | the docstring says the scheme is stable for every time step 0 <= k <= 1 | k = 1 on [0, 1, 0] gives -1 in the middle, outside [0, 1] | the stencil is a convex combination only for 0 <= k <= 1/2 (the usual k / dx^2 <= 1/2 with dx = 1); the code's k = 0.1 is inside that range | high (not executed) | `HeatExplicit.DocumentedRangeCounterexample` | `HeatExplicit.StencilWithinForHalf` |

## Left out

- Floating point: samples, `k` and `t` are exact reals, and k is exactly 1/10. In IEEE doubles, repeatedly adding 0.1 to `t` drifts away from the exact value, below it (ten additions give 0.9999999999999999) or above it (three give 0.30000000000000004). So Python can run one pass more or one pass fewer than `StepCount` (ceil(t_end / k)). The model does not capture that drift. At the default t_end = 3.0 both run 30 passes.
- `heat_analytical_smooth` uses `float32` for the positions `x` and the harmonic indices `M`. The model uses exact reals there too.
- The sine and exponential values of `heat_analytical_smooth` (lines 84-100) are parameters (`sine`, `decay`), because they are transcendental. In floating point `sin(j * pi)` is not exactly 0, so at position L the source keeps `pn` only approximately. `AnalyticalKeepsEndpoints` states the exact version under its hypothesis.
- `HeatAnalytical.HeatAnalyticalSmooth`: its own contract states only the length. What the harmonics do depends on the transcendental parameters. The facts that hold for every parameter choice are the lemmas below it in the table.
- Inputs shorter than 2 samples are excluded by a precondition. In the source, n = 1 gives a length-2 result `[p0, p0]` once any pass runs. n = 0 raises an index error when a pass runs, and is returned unchanged when none runs. In `heat_analytical_smooth`, n = 1 divides by L = 0.
- The smoothers' asymptotic properties are not proved: convergence to the steady state as the time grows, and reconstruction of the input at t = 0 as m grows. Both are statements about limits, and for the analytical solver they also depend on the sine and exponential values that are parameters here.
- `butter_lowpass_filter` (lines 103-108) is left out. It only calls SciPy's `butter` and `filtfilt`, which this file does not import, so there is nothing of its own to model.
- numpy array identity (`P = prices` aliases the input until the first pass reassigns `P`) is not modelled. The model works on values, and the source never mutates the input in place.
