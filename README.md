# Single-slit diffraction visualiser — Dafny model

This project models the computational core of an interactive single-slit diffraction
visualiser. It covers:

- the fixed-step quadrature of the Fresnel integrals C(u) and S(u);
- the two intensity models at a screen position: Fraunhofer (far field, sinc²) and
  Fresnel (Cornu spiral);
- the Fresnel number F = a²/(zλ);
- the wavelength-to-colour table;
- the 201-sample profile and its normalisation;
- the mapping from canvas pixels to samples;
- the analysis panel that turns F into a regime, an explanation and a colour class,
  then splits the regime label into a header and a subtitle.

Modules:

- `Maths` (maths.dfy): the platform's `sin`, `cos`, `sqrt` and `pi`, passed around
  as a `Library` value. It also holds the facts lemmas may assume about them
  (`TrigBounded`, `SinOdd`, `SinBelowIdentity`), squaring and `Math.round`.
- `Types` (types.dfy): the parameter triple (wavelength in nm, slit width in µm,
  distance in m), the three-valued regime with its labels, the slider ranges and the
  default parameters.
- `Physics` (physics.dfy): utils/physics.ts. `integrateFresnel` is a method whose
  loop is proved against the recursive sum `WeightedSum`. The rest are functions.
- `Visualization` (visualization.dfy): the sampling loop and running maximum, the
  normalisation map, and the per-pixel drawing loop of components/Visualization.tsx.
- `AnalysisPanel` (analysis_panel.dfy): the if-chain and the label split of
  components/AnalysisPanel.tsx.

The code is followed wherever it departs from the stated design:

- For 0.1 ≤ F ≤ 10 the panel reports the Fresnel regime with the cyan class
  (components/AnalysisPanel.tsx:24-27), not the transition regime. `Classify` models
  this and proves that the transition regime is never produced.
- The quadrature is the trapezoidal rule written in the loop
  (utils/physics.ts:9-15), not the Simpson's rule its comment mentions.

All arithmetic is on exact reals. The physics functions require strictly positive
parameters. The slider ranges imply this (`Types.SliderRangeIsPositive`).

## Model

| member | source | states |
|---|---|---|
| Physics.IntegrateFresnel | utils/physics.ts:3-18 | the loop returns exactly the trapezoidal sums of cos and sin of πt²/2 over 101 samples times dt; with \|sin\|,\|cos\| ≤ 1 both results are bounded by \|u\| |
| Physics.QuadratureAtZero | utils/physics.ts:7-17 | C(0) = S(0) = 0, since the step is zero |
| Physics.WeightedSumEvenInStep | utils/physics.ts:9-15 | negating the step leaves every partial sum unchanged, because the argument πt²/2 is even in t |
| Physics.QuadratureOdd | utils/physics.ts:3-18 | C(-u) = -C(u) and S(-u) = -S(u) |
| Physics.TotalWeightValue | utils/physics.ts:9-11 | the trapezoidal weights of the first n samples add up to n - 1/2, and all 101 add up to exactly 100 |
| Physics.WeightedSumBounded | utils/physics.ts:9-15 | a partial sum of an integrand bounded by 1 is bounded by the sum of its weights |
| Physics.FullSumBounded | utils/physics.ts:9-15 | the full 101-sample sum of an integrand bounded by 1 is at most 100 in absolute value |
| Physics.ScaledSumBounded | utils/physics.ts:13-17 | one scaled integral of an integrand bounded by 1 is at most \|u\| in absolute value |
| Physics.QuadratureBounded | utils/physics.ts:3-18 | \|C(u)\| ≤ \|u\| and \|S(u)\| ≤ \|u\| whenever sin and cos stay in [-1, 1] |
| Physics.Beta | utils/physics.ts:38 | β = πax/(λz) is non-zero off the centre, so the sinc quotient is defined |
| Physics.SincSquared | utils/physics.ts:39-40 | (sin β / β)² is never negative |
| Physics.Fraunhofer | utils/physics.ts:27-41 | the far-field intensity is exactly 1 at x = 0 and never negative |
| Physics.FresnelRaw | utils/physics.ts:48-60 | ½(ΔC² + ΔS²) is never negative |
| Physics.CalculateIntensity | utils/physics.ts:20-66 | Fraunhofer is 1 at the centre; both intensities are non-negative everywhere |
| Physics.CornuBoundsMirror | utils/physics.ts:48-50 | mirroring x swaps the Cornu limits and negates them: v1(-x) = -v2(x), v2(-x) = -v1(x) |
| Physics.FresnelEven | utils/physics.ts:48-60 | the Fresnel profile is symmetric about the centre |
| Physics.BetaOdd | utils/physics.ts:38 | β(-x) = -β(x) |
| Physics.SincSquaredEven | utils/physics.ts:39-40 | sinc² is even when sine is odd |
| Physics.FraunhoferEven | utils/physics.ts:34-41 | the Fraunhofer profile is symmetric about the centre when sine is odd |
| Physics.SincSquaredAtMostOne | utils/physics.ts:39-40 | sinc² ≤ 1 when \|sin y\| ≤ \|y\| |
| Physics.FraunhoferAtMostOne | utils/physics.ts:34-41 | the Fraunhofer intensity lies in [0, 1], peaking at 1 at the centre |
| Physics.CalculateFresnelNumber | utils/physics.ts:114-123 | F in SI units equals a²/(zλ)·10⁻³ in the panel's units (µm, m, nm), and is positive for any non-zero slit |
| Physics.FresnelUnits | utils/physics.ts:119-122 | the unit conversion 1e-6 for a and 1e-9 for λ collapses to one factor 10⁻³ |
| Physics.FresnelNumberDecreasingInDistance | utils/physics.ts:114-123 | F strictly decreases as the screen moves away |
| Physics.DefaultFresnelNumber | utils/physics.ts:114-123 | for 550 nm, 200 µm and 0.5 m, F = 8/55 ≈ 0.145 |
| Physics.BandsPartitionVisible | utils/physics.ts:70-98 | the six colour bands cover exactly [380, 781) and no wavelength lies in two bands |
| Physics.BandChannels | utils/physics.ts:69-98 | every channel lies in [0, 1]; outside [380, 781) all channels are 0 |
| Physics.AlphaTaper | utils/physics.ts:100-109 | alpha lies in [0.3, 1] on [380, 781), equals 1 on [420, 701) and is 0 outside the visible range |
| Physics.WavelengthToColor | utils/physics.ts:68-112 | channels are integers in [0, 255]; alpha lies in [0, 1] and is positive exactly on [380, 781), where it is at least 0.3; outside it the colour is (0, 0, 0, 0) |
| Physics.GreenTestVector | utils/physics.ts:82-111 | 550 nm renders as (146, 255, 0, 1) |
| Physics.UltravioletTestVector | utils/physics.ts:94-109 | 300 nm renders as (0, 0, 0, 0) |
| Maths.Round | utils/physics.ts:111 | Math.round returns the integer n with n - ½ ≤ v < n + ½ |
| Types.SliderRangeIsPositive | components/ControlPanel.tsx:28-74 | every slider setting has positive wavelength, slit width and distance |
| Types.DefaultParamsInSliderRange | App.tsx:8-12 | the starting parameters lie in the slider ranges |
| Visualization.PositionsSpanScreen | components/Visualization.tsx:16-24 | sample positions run from -10 mm to +10 mm, strictly increasing, 0.1 mm apart |
| Visualization.LabelIsExact | components/Visualization.tsx:31 | rounding a sample position to two decimals leaves it unchanged |
| Visualization.RawProfile | components/Visualization.tsx:20-35 | the profile has 201 rows, with non-negative Fresnel and Fraunhofer intensities |
| Visualization.MaxFresnel | components/Visualization.tsx:21-28 | the running maximum is ≥ 0 and ≥ every Fresnel value; if positive, some row attains it |
| Visualization.MaxFresnelAppend | components/Visualization.tsx:28 | one loop step replaces the maximum only with a strictly larger value |
| Visualization.SampleRow | components/Visualization.tsx:24-34 | the row the loop builds at x = -10 + 0.1·i is row i of the profile |
| Visualization.SampleProfile | components/Visualization.tsx:16-35 | the loop returns exactly the 201-row profile and its running maximum |
| Visualization.Normalize | components/Visualization.tsx:43-47 | length, x and Fraunhofer are unchanged; each Fresnel value times maxI gives back the raw value when maxI > 0, and is 0 otherwise |
| Visualization.NormalizedInUnitRange | components/Visualization.tsx:43-47 | with raw values in [0, maxI], normalised values lie in [0, 1], and a row at the maximum becomes exactly 1 |
| Visualization.NormalizeMonotone | components/Visualization.tsx:43-47 | normalisation does not reorder intensities |
| Visualization.SelfNormalized | components/Visualization.tsx:21-47 | normalising by the running maximum gives values in [0, 1] with some value exactly 1, or all 0 when the maximum is 0 |
| Visualization.RawProfileRows | components/Visualization.tsx:23-34 | row i is labelled with position -10 + 0.1·i and carries the Fraunhofer intensity there |
| Visualization.ComputePlotData | components/Visualization.tsx:15-50 | 201 rows labelled -10 … 10 mm; Fraunhofer as computed; Fresnel normalised into [0, 1], reaching 1 unless all are 0; maxIntensity is the running maximum |
| Visualization.DataIndex | components/Visualization.tsx:78-81 | for a pixel inside the canvas, floor(i/width·dataLen) is a valid index into a non-empty profile |
| Visualization.DataIndexMonotone | components/Visualization.tsx:78-81 | pixels further right never show earlier samples |
| Visualization.CanvasEnds | components/Visualization.tsx:76-81 | on an 800-pixel canvas, column 0 shows sample 0 and column 799 shows the last sample, 200 |
| Visualization.PaintColumns | components/Visualization.tsx:76-90 | each column takes the Fresnel value of its sample as opacity; no column is skipped for a non-empty profile |
| AnalysisPanel.Classify | components/AnalysisPanel.tsx:12-28 | Fraunhofer/green iff F < 0.1, red iff F > 10, cyan iff 0.1 ≤ F ≤ 10; never the transition regime; every local is overwritten |
| AnalysisPanel.BoundariesAreCyan | components/AnalysisPanel.tsx:16-27 | F = 0.1 and F = 10 both fall in the middle branch |
| AnalysisPanel.ClassifyMonotone | components/AnalysisPanel.tsx:16-28 | the colour class moves only green → cyan → red as F grows |
| AnalysisPanel.DefaultIsNearField | components/AnalysisPanel.tsx:10-28 | the default parameters give the Fresnel regime with the cyan class |
| AnalysisPanel.FartherScreenNeverRaisesClass | components/AnalysisPanel.tsx:10-28 | moving the screen away keeps green green, and red can only come from red |
| AnalysisPanel.EveryClassReachable | components/AnalysisPanel.tsx:10-28 | green (700 nm, 50 µm, 2 m), red (400 nm, 500 µm, 0.01 m) and cyan (the defaults) are all reachable with the sliders |
| AnalysisPanel.TakeUntil | components/AnalysisPanel.tsx:47 | the first piece of a split is the longest prefix free of the separator, followed by the separator or the end |
| AnalysisPanel.DropThrough | components/AnalysisPanel.tsx:48 | the text equals first piece + separator + rest whenever the separator occurs |
| AnalysisPanel.RemoveFirst | components/AnalysisPanel.tsx:48 | replace removes only the first occurrence: what precedes it plus what follows it; text without the character is unchanged |
| AnalysisPanel.TakeUntilAbsent | components/AnalysisPanel.tsx:47-48 | a text without the separator splits into itself |
| AnalysisPanel.SplitAtFirst | components/AnalysisPanel.tsx:47-48 | splitting h + c + rest, with c not in h, yields exactly h and rest |
| AnalysisPanel.LabelSplitRoundTrip | components/AnalysisPanel.tsx:47-48 | a label "h(t)" with no parentheses inside h or t shows header h and subtitle t |
| AnalysisPanel.PlainLabel | components/AnalysisPanel.tsx:47-48 | a label without '(' is shown whole with an empty subtitle |
| AnalysisPanel.FresnelBadge | types.ts:14 | the near-field label shows "菲涅尔 " over "近场" |
| AnalysisPanel.FraunhoferBadge | types.ts:15 | the far-field label shows "夫琅禾费 " over "远场" |
| AnalysisPanel.TransitionBadge | types.ts:16 | the transition label is shown whole with no subtitle |
| AnalysisPanel.SubtitleNeverEmpty | components/AnalysisPanel.tsx:12-48 | whatever F is, the badge shows a non-empty header and subtitle |

## Left out

- Floating point: every quantity is an exact real. IEEE rounding, overflow, NaN and Infinity are not modelled, so zero or negative parameters are excluded by the physics functions' requires. This also covers NaN falling through every colour comparison.
- Physics.IntegrateFresnel: makes no claim about how close the quadrature is to the true Fresnel integrals. `Math.sin`, `Math.cos`, `Math.sqrt` and `Math.PI` are uninterpreted, apart from the facts the lemmas require.
- Physics.CalculateIntensity: requires positive wavelength, slit width and distance. The source divides by λz and by β without a guard.
- Physics.WavelengthToColor: returns the four numbers of the `rgba(...)` string, not the string itself.
- Visualization.LabelIsExact: `toFixed(2)` is modelled as rounding to two decimals. Its decimal text and its tie-breaking on binary doubles are not modelled. Every sample position has an exact two-decimal value, so neither affects the model.
- Visualization.PaintColumns: the regex that substitutes the alpha of the colour string is modelled as storing the opacity itself.
- React and the canvas are not modelled: `useMemo`, `useState`, `useEffect`, the recharts chart, `fillRect`, `setLineDash`, the centre marker and the JSX. `useMemo` caching does not change the computed values.
- AnalysisPanel.Classify: the three explanation paragraphs are represented by an enumeration, not by their text.
- The panel's `F.toFixed(3)` display and its laser-colour dot are not modelled separately. The dot is `Physics.WavelengthToColor` of the wavelength.
- components/ControlPanel.tsx: only its slider ranges are used (`Types.InSliderRange`). `handleChange` only replaces one field of the record.
