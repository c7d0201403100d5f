# Lotka–Volterra competition: a verified model of the numerical core

The page simulates two species competing for resources under the
Lotka–Volterra competition model. Four functions of `script.js` do the
numerical work, and this project models each of them in Dafny:

- `derivatives` (module `Competition`, `competition.dfy`). It gives the
  growth rate of each species. Each rate is logistic growth reduced by the
  crowding from the other species. Carrying capacities are floored at
  `1e-9`.
- `simulate` (module `Integrator`, `integrator.dfy`). It runs fixed-step
  forward Euler and clamps every population at zero after each step. The
  method fills three arrays in place, as the source does. It is proved
  against the specification function `Orbit` (`k` Euler steps from the
  initial sample).
- `buildFieldArrows` (module `FieldSampler`, `field.dfy`). It builds a 15 × 15
  direction field over the phase plane. The method appends one arrow per
  grid point inside two nested loops. It is proved against `ArrowAt`.
- `zngiTraces` (module `Isoclines`, `isoclines.dfy`). It returns the two
  zero-growth isoclines, each sampled at both ends of the plotted range.

The four parameter presets are in module `Presets` (`presets.dfy`). The
facts about products and quotients of reals that the proofs share are in
module `RealArith` (`arith.dfy`).

All numbers are exact reals. `Math.hypot` is an abstract function parameter
`hypot`. The lemmas that depend on it state what they assume:

- `IsHypot`: `hypot` is non-negative and zero at the origin.
- `IsEuclidean`: `hypot` is the Euclidean norm.

The sample count is not `floor(tMax / dt) + 1` for every positive `tMax`
and `dt`. The code takes the larger of 2 and that value, and it divides by
`dt` floored at `1e-6` to size the arrays. The time stamps still use the raw
`dt`:

- `Integrator.ShortHorizon` shows that a horizon shorter than one step gives
  two samples, and that the second one lies past the horizon.
- `Integrator.StepCountForOrdinaryStep` shows that for `dt >= 1e-6` and
  `tMax >= dt`, the length is `floor(tMax / dt) + 1`.

## Model

| member | source | states |
|---|---|---|
| Competition.Derivatives | script.js:25-29 | Has no contract of its own. `Competition.Species1Rate`, `Competition.Species2Rate` and `Competition.NoCompetitionRates` state when each rate is zero or positive and what it reduces to without competition |
| Competition.Floored | script.js:26-27 | The floored capacity `max(k, 1e-9)` is strictly positive and at least `k`, so the division never divides by zero |
| Competition.Species1Rate | script.js:26 | `d1` is zero exactly when `r1 = 0`, `n1 = 0` or `n1 + a12 n2` equals the floored `K1`. For `r1, n1 > 0`, species 1 grows exactly when `n1 + a12 n2` is below the floored `K1` |
| Competition.Species2Rate | script.js:27 | The same for `d2`, `n2 + a21 n1` and the floored `K2` |
| Competition.NoCompetitionRates | script.js:25-29 | With `a12 = a21 = 0`, each rate is that species' own logistic law `r n (1 - n / K)` |
| Integrator.StepCount | script.js:32 | The sample count is at least 2. Beyond 2, the last index `n - 1` is the number of whole steps of length `max(dt, 1e-6)` that fit in `tMax` |
| Integrator.StepCountForOrdinaryStep | script.js:32 | For `dt >= 1e-6` and `tMax >= dt`, the count is `floor(tMax / dt) + 1`. The last time stamp is at most `tMax`, and one more step would pass it |
| Integrator.ShortHorizon | script.js:32-46 | For `0 < dt` and `tMax < dt`, there are exactly 2 samples and the second time stamp lies past `tMax` |
| Integrator.TimeStamp | script.js:46 | Has no contract of its own. `Integrator.StepCountForOrdinaryStep`, `Integrator.ShortHorizon` and `Presets.ShortSpecies1Run` state where the time stamps fall relative to `tMax` |
| Integrator.Initial | script.js:37-39 | The first sample is each initial population clamped at zero: the initial population when it is non-negative, zero otherwise |
| Integrator.ClampedUpdate | script.js:47-48 | One clamped Euler update is never negative and keeps a zero population with a zero rate at zero |
| Integrator.EulerStep | script.js:44-48 | One clamped Euler step never yields a negative population, and an extinct species stays extinct |
| Integrator.Orbit | script.js:41-49 | Every sample of the orbit is non-negative |
| Integrator.Simulate | script.js:31-52 | The method returns three distinct arrays of length `StepCount(p)`. `t[0] = 0` and `t[i] = i * dt`. Sample 0 is the clamped initial sample, and each later sample is the Euler step of the one before. So the series equals `Orbit`, is never negative, and a zero population stays zero |
| Integrator.OrbitSeries | script.js:41-49 | Series that agree with the orbit index by index have the initial sample, the step rule, non-negativity and absorbing zero |
| Integrator.ExtinctionIsPermanent | script.js:47-48 | A species that is zero at sample `i` is zero at every later sample |
| Integrator.NoGrowthFromNothing | script.js:38-48 | A species whose initial population is at most zero is zero at every sample |
| Integrator.NoCompetitionStep | script.js:44-48 | Take `a12 = a21 = 0`, `dt >= 0`, `r >= 0` and `r dt <= 1`, with each population between 0 and its floored capacity. One step neither lowers a population nor lifts it above its capacity |
| Integrator.NoCompetitionLogisticGrowth | script.js:41-49 | Under the same conditions, and with initial populations at most their capacities, each population rises monotonically and stays at most its capacity at every sample |
| FieldSampler.GridCoord | script.js:56-64 | For a positive extent and `1 <= i <= 15`, grid line `i` lies in `(0, extent]`, and it lies on `extent` exactly when `i = 15` |
| FieldSampler.Length | script.js:66 | `hypot(d1, d2) || 1` is never zero, and it is positive when `hypot` is non-negative |
| FieldSampler.Offset | script.js:67-68 | Has no contract of its own. `FieldSampler.OffsetZero` and `FieldSampler.OffsetSign` state that for a positive extent the offset is zero, positive or negative exactly as the rate is |
| FieldSampler.ArrowFrom | script.js:63-74 | Has no contract of its own. `FieldSampler.StillArrow`, `FieldSampler.ArrowDirection` and `FieldSampler.ArrowsHaveUnitLength` state where an arrow is still, where it points and that it has unit length per axis share |
| FieldSampler.ArrowAt | script.js:63-74 | Has no contract of its own. `FieldSampler.BuildFieldArrows` returns it for every grid point and `FieldSampler.ArrowBases` states where it is anchored |
| FieldSampler.BuildFieldArrows | script.js:54-85 | The method returns 225 arrows. Arrow `k` is the arrow of grid point `(k / 15 + 1, k % 15 + 1)`, so columns form the outer loop and rows the inner loop |
| FieldSampler.ArrowBases | script.js:61-64 | Every grid arrow is anchored inside `(0, xMax] × (0, yMax]`. It touches the right edge exactly in column 15 and the top edge exactly in row 15 |
| FieldSampler.StillArrow | script.js:65-74 | For non-zero extents and any `hypot`, an arrow has zero displacement exactly where both rates are zero |
| FieldSampler.ArrowDirection | script.js:65-74 | For positive extents and a non-negative `hypot`, the arrow points right, left, up or down exactly as `d1` and `d2` are positive or negative |
| FieldSampler.ArrowRightBelowIsocline1 | script.js:65-71 | Where species 1 is present and `r1 > 0`, the arrow points right exactly when `n1 + a12 n2` is below the floored `K1` |
| FieldSampler.ArrowUpBelowIsocline2 | script.js:65-72 | Where species 2 is present and `r2 > 0`, the arrow points up exactly when `n2 + a21 n1` is below the floored `K2` |
| FieldSampler.UnitComponents | script.js:66-68 | `(d1 / len, d2 / len)` has unit length when `len` is the Euclidean norm of `(d1, d2)` |
| FieldSampler.ArrowsHaveUnitLength | script.js:66-68 | With the Euclidean `hypot`, away from an equilibrium, the displacement divided per axis by `extent * 0.07` has unit length, so arrows show direction only |
| Isoclines.ZngiTraces | script.js:87-108 | There are two traces, both sampled at `x = [0, xMax]`. Trace 1 gives species 1's isocline and trace 2 gives species 2's. The names and dash styles differ |
| Isoclines.Isocline1 | script.js:89 | Has no contract of its own. `Isoclines.OnIsocline1` and `Isoclines.Isocline1IsZeroGrowth` state that it is the zero set of `d1` above the floor, and `Isoclines.Isocline1OffZeroSet` that it may miss that set below the floor |
| Isoclines.Isocline2 | script.js:90 | Has no contract of its own. `Isoclines.Isocline2IsZeroGrowth` states that it is the zero set of `d2` for `k2 >= 1e-9` |
| Isoclines.OnIsocline1 | script.js:89 | For `k1, a12 >= 1e-9`, a point lies on trace 1's line exactly when `n1 + a12 n2` equals the floored `K1` |
| Isoclines.Isocline1IsZeroGrowth | script.js:89 | For `k1, a12 >= 1e-9`, `r1 != 0` and `n1 != 0`, species 1 stops changing exactly on the drawn isocline |
| Isoclines.Isocline1OffZeroSet | script.js:89 | With `a12 = -0.5` (trace value `-5e10` at `n1 = 150`) or with `K1 = -50` (trace value `-60` at `n1 = 10`), species 1's rate is non-zero at a sample of its drawn isocline |
| Isoclines.Isocline2IsZeroGrowth | script.js:90 | For `k2 >= 1e-9`, `r2 != 0` and `n2 != 0`, species 2 stops changing exactly on the drawn isocline |
| Isoclines.TracesAreZeroGrowth | script.js:87-108 | Every sample of trace 1 is a zero of `d1`, and every sample of trace 2 a zero of `d2` (for `k1, a12, k2 >= 1e-9`) |
| Isoclines.SegmentsAreIsoclines | script.js:88-90 | The straight segment between a trace's two samples is that isocline, at every fraction `t` along it |
| Presets.PresetsSampleCount | script.js:3-8 | Every preset (horizon 60, step 0.05) gives 1201 samples |
| Presets.Species1WinsIsoclines | script.js:4 | In `species1`, species 1's isocline lies strictly above species 2's wherever it is non-negative |
| Presets.Species2WinsIsoclines | script.js:5 | In `species2`, species 2's isocline lies strictly above species 1's for every `n1 >= 0` |
| Presets.CoexistenceEquilibria | script.js:6-7 | `stable` has an equilibrium with both species present at `(1200/17, 1200/17)`, and `unstable` has one at `(50, 50)` |
| Presets.CoexistenceArrangement | script.js:6-7 | In `stable`, each isocline meets the other species' axis beyond the other isocline. In `unstable`, each meets it short of the other |
| Presets.ShortSpecies1Run | script.js:31-49 | `species1` with horizon 1 and step 0.5 gives 3 samples at times 0, 0.5 and 1. After one step the populations are `(513/13, 33)` |

## Left out

- `applyPreset`, `readParams`, `render` and the two click listeners (script.js:10-23, 110-157) are left out. They only read and write the page and call Plotly. `render` always passes extents of at least 1.15, which is why the field lemmas require positive extents.
- IEEE-754 doubles are not modelled: no rounding, overflow, infinities or NaN. In particular, the source's `|| 1` also replaces a NaN norm, and `Number(...)` may produce NaN. Neither case exists over the reals.
- `Math.hypot` is an abstract parameter. Facts about it are stated as hypotheses (`IsHypot`, `IsEuclidean`), not proved.
- The arrow styling fields (`showarrow`, `arrowhead`, `arrowsize`, `arrowwidth`, `arrowcolor`) and the traces' `mode` are left out. So is the way Plotly draws an annotation from `ax`/`ay`.
- Integrator.Simulate: does not state that the arrays are freshly allocated. It states that they are three distinct arrays.
- Integrator.Simulate: does not raise the `RangeError` that `new Array(n)` (script.js:33-35) throws when `n` exceeds `2^32 - 1`. This happens, for example, with `dt <= 1e-6` and `tMax >= 4295`. The model allocates arrays of any length.
- Isoclines.Isocline1IsZeroGrowth: holds only for `k1` and `a12` of at least `1e-9`. Below that, the trace uses the raw `k1` while the rates use the floored one, and it divides by the floored `a12`. For `k1` and `a12` in `[0, 1e-9)` the drawn line only approximates the zero-growth set. For a negative `a12` or `k1` it can be a different line altogether (`Isoclines.Isocline1OffZeroSet`).
- Integrator.NoCompetitionLogisticGrowth: covers only the uncoupled case with `r dt <= 1`. Which species wins in the long run is not proved for any parameters. The preset names are supported only by the arrangement of the isoclines (`Presets.Species1WinsIsoclines`, `Presets.CoexistenceArrangement`).
