# Schneider's curve fitter, in Dafny

This project models the curve fitter of `public/js/bfit.js`. The file is a
JavaScript port of Philip J. Schneider's "An Algorithm for Automatically
Fitting Digitized Curves" (Graphics Gems, 1990). Given a polyline of
digitized points and a tolerance on the squared distance, the fitter emits
a sequence of cubic Bézier curves that joins the first point to the last.

Each region `d[first..last]` is handled as follows:

- A region of two samples gets a heuristic curve. Its inner control points
  lie a third of the chord out along the two end tangents.
- A longer region is parameterized by chord length. Its inner control
  points are found by least squares along the tangents. When an alpha is
  below `1e-6`, the Wu/Barsky heuristic places them instead.
- The region is measured at its worst interior sample. It is accepted when
  that error is below the tolerance.
- An error below the square of the tolerance first earns up to four rounds
  of Newton-Raphson reparameterization and refitting.
- A region that still fails is split at its worst sample. Both halves are
  fitted with the tangent estimated there, negated for the right half.

The modules follow the procedures of the original:

| file | module | models |
|---|---|---|
| `vectors.dfy` | `Vectors` | the `V2*` helpers |
| `tangents.dfy` | `Tangents` | `ComputeLeftTangent`, `ComputeRightTangent`, `ComputeCenterTangent` |
| `chord.dfy` | `Chord` | `ChordLengthParameterize` |
| `bezier.dfy` | `Bezier` | `BezierII`, `B0` to `B3`, the derivative control points |
| `least_squares.dfy` | `LeastSquares` | `GenerateBezier` and its Wu/Barsky fallback |
| `newton.dfy` | `Newton` | `NewtonRaphsonRootFind`, `Reparameterize` |
| `max_error.dfy` | `MaxError` | `ComputeMaxError` |
| `rounds.dfy` | `Rounds` | the reparameterization loop of `FitCubic`, apart from what one round computes |
| `fitter.dfy` | `Fitter` | `FitCubic`, `FitCurve`, `FitCurveArray` |
| `outcomes.dfy` | `Outcomes` | the result type: a value, or why there is none |
| `shared_tangents.dfy` | `SharedTangents` | `FitCubic` with its tangents shared between calls, and an input where that matters |

Conventions:

- Points are an immutable `Point(x, y)` over `real`.
- `Math.sqrt` is a parameter `sqrt`, constrained by `Vectors.IsSqrt` to be
  the exact square root.
- A division the original performs without a guard becomes a failure
  `NonFinite(site)` of the result. The sites are the total chord length,
  the perturbed determinant and the Newton-Raphson denominator. JavaScript
  would carry on with `Infinity` or `NaN` there.
- The original hands each accepted curve to a callback. `Fitter.FitCubic`
  returns instead the pieces in the order the callback would see them.
  Each piece carries the region it covers and the reason it was accepted.
- The split index, which the original reports through a mutable
  `splitVector` object, is part of the returned `Worst` value.

Two details of the code that a reader might not expect:

- The default split index `(last - first + 1) / 2` is not offset by
  `first`, so it is not the region's midpoint. It survives only when the
  region has two samples, and `FitCubic` never measures such a region.
- The determinant "perturbation" `C[0][0] * C[1][1] * 10e-12` is itself
  zero whenever either diagonal entry is. Then `GenerateBezier` divides by
  zero.

## Model

| member | source | states |
|---|---|---|
| Vectors.Sub | public/js/bfit.js:84-86 | the difference of two points is zero exactly when the points are equal |
| Vectors.SubAdd | public/js/bfit.js:84-90 | subtraction undoes addition (`V2SubII` after `V2AddII`), in both orders |
| Vectors.Negate | public/js/bfit.js:31-35 | the negation is zero exactly when the vector is |
| Vectors.NegateCancels | public/js/bfit.js:31-35 | a vector plus its negation is zero; negating twice gives the vector back |
| Vectors.SquaredLength | public/js/bfit.js:37-39 | the squared length is non-negative and zero only for the zero vector |
| Vectors.Length | public/js/bfit.js:41-43 | the length is non-negative and zero only for the zero vector |
| Vectors.LengthSquared | public/js/bfit.js:41-43 | the length squares back to the squared length |
| Vectors.Distance | public/js/bfit.js:73-78 | the distance is the length of the difference, non-negative, and zero exactly when the points coincide |
| Vectors.DistanceSymmetric | public/js/bfit.js:73-78 | the distance from a to b equals the distance from b to a |
| Vectors.Normalize | public/js/bfit.js:46-53 | the result is the unit vector along the input (unit length, parallel, same sense), or zero when the input is zero |
| Vectors.NormalizeIdempotent | public/js/bfit.js:46-53 | normalizing twice is normalizing once |
| Vectors.ScaleTo | public/js/bfit.js:55-62 | a zero vector is left alone; otherwise the result's length is the absolute value of `newlen`, stays parallel, and points along the input for non-negative `newlen` |
| Vectors.ScaleToAlong | public/js/bfit.js:55-62 | rescaling to a non-negative length gives a non-negative multiple of the input |
| Vectors.ScaleToUnit | public/js/bfit.js:55-62 | on a unit or zero vector, `V2Scale` agrees with plain multiplication (`V2ScaleIII`, lines 92-94) |
| Tangents.LeftTangent | public/js/bfit.js:429-435 | the tangent is the direction of `d[end+1] - d[end]`, and zero exactly when those samples coincide |
| Tangents.RightTangent | public/js/bfit.js:437-443 | the tangent is the direction of `d[end-1] - d[end]`, and zero exactly when those samples coincide |
| Tangents.CenterTangent | public/js/bfit.js:445-455 | the average of the two secants has the direction of `d[center-1] - d[center+1]`; it is zero exactly when those samples coincide |
| Chord.ChordLengths | public/js/bfit.js:468-473 | the running chord lengths start at 0, are non-negative and do not decrease |
| Chord.ChordIncrement | public/js/bfit.js:471-473 | each step of the running sum adds the distance between neighbouring samples |
| Chord.ChordLengthParameterize | public/js/bfit.js:462-480 | succeeds exactly when the region has one sample or a non-zero total chord; then the parameters start at 0, end at 1, lie in [0, 1], do not decrease, and each is its running chord length over the total |
| Chord.ZeroChordMeansOnePoint | public/js/bfit.js:471-477 | the total chord is zero exactly when every sample of the region is the same point, which is when the division at line 476 has no finite result |
| Chord.ParametersOrdered | public/js/bfit.js:468-479 | any two parameters are in the order of their samples |
| Chord.NoRepeatsParameterize | public/js/bfit.js:462-480 | a polyline without consecutive duplicate samples is always parameterized |
| Bezier.EvaluateInPlace | public/js/bfit.js:375-399 | the in-place triangle loop over a copy of the control points returns the de Casteljau point |
| Bezier.EvaluateAtZero | public/js/bfit.js:375-399 | at parameter 0 a curve of any degree is at its first control point |
| Bezier.EvaluateAtOne | public/js/bfit.js:375-399 | at parameter 1 a curve of any degree is at its last control point |
| Bezier.BernsteinSumIsOne | public/js/bfit.js:405-423 | the four weights `B0` to `B3` sum to 1 |
| Bezier.CubicIsBernstein | public/js/bfit.js:375-423 | de Casteljau's point on a cubic equals the sum of the control points weighted by `B0` to `B3` |
| Bezier.FirstDerivativeIsBernsteinDerivative | public/js/bfit.js:344-357 | `Q1` evaluated at `u` is the cubic's derivative there: the Bernstein weights differentiated once |
| Bezier.SecondDerivativeIsBernsteinSecondDerivative | public/js/bfit.js:350-358 | `Q2` evaluated at `u` is the cubic's second derivative there |
| LeastSquares.Accumulate | public/js/bfit.js:243-265 | the normal matrix stays symmetric (`C[1][0] == C[0][1]`) with a non-negative diagonal |
| LeastSquares.AddSample | public/js/bfit.js:246-264 | adding a sample keeps the matrix symmetric and does not shrink its diagonal |
| LeastSquares.Solve | public/js/bfit.js:268-277 | fails exactly when the perturbed determinant is still zero; otherwise, for a non-singular symmetric matrix, the alphas solve both normal equations; what the perturbation yields is stated by `PerturbedAlphasAreZero` |
| LeastSquares.Placed | public/js/bfit.js:297-301 | the curve runs from `d[first]` to `d[last]` with inner control points `alpha_l` along `tHat1` and `alpha_r` along `tHat2` |
| LeastSquares.WuBarsky | public/js/bfit.js:283-291 | the curve runs from `d[first]` to `d[last]` with its inner control points along the tangents, a third of the chord away when the tangents are unit |
| LeastSquares.Shape | public/js/bfit.js:283-301 | usable alphas (both at least `1e-6`) place the control points along the tangents; otherwise the Wu/Barsky curve is used |
| LeastSquares.GenerateBezier | public/js/bfit.js:209-302 | fails exactly when the normal matrix is singular; every curve it returns is anchored at `d[first]` and `d[last]`, with inner control points along the tangents; which curve it returns is stated by `GenerateBezierShape` |
| LeastSquares.GenerateBezierShape | public/js/bfit.js:268-301 | when the normal equations are solved, `GenerateBezier` returns the curve placed at the alphas if both are at least `1e-6`, and the Wu/Barsky curve otherwise; with unit tangents and distinct end samples, the Wu/Barsky inner control points never coincide with the anchors |
| LeastSquares.PerturbedAlphasAreZero | public/js/bfit.js:267-291 | the sums are a Gram matrix, so when their determinant is zero both Cramer numerators are zero too: the perturbed determinant, where it is not zero, yields alphas 0 and 0, and `GenerateBezier` returns the Wu/Barsky curve |
| LeastSquares.GenerateBezierIsLeastSquares | public/js/bfit.js:230-301 | with unit tangents and usable alphas, the curve leaves no residual along either column of `A`: it solves the least-squares problem the normal equations set up |
| Newton.NewtonRaphsonRootFind | public/js/bfit.js:330-368 | succeeds exactly when the denominator `f'(u)` is non-zero; the new parameter is the root of the tangent line at `u`, equal to `u` exactly when `f(u)` is 0 |
| Newton.OnCurveIsFixed | public/js/bfit.js:330-368 | a sample already on the curve at its parameter keeps that parameter |
| Newton.Reparameterize | public/js/bfit.js:310-324 | succeeds exactly when every sample's Newton step is defined; then each new parameter is that sample's Newton update |
| MaxError.Deviation | public/js/bfit.js:503-505 | the squared distance from a sample to its curve point is non-negative, and zero exactly when the sample is on the curve |
| MaxError.ComputeMaxError | public/js/bfit.js:487-512 | the maximum bounds every interior deviation; with an interior sample, the split is strictly inside the region, attains the maximum, and is the last sample that does (the `>=` comparison) |
| MaxError.MaxErrorIsLastArgmax | public/js/bfit.js:500-511 | any value and index with those properties are exactly what `ComputeMaxError` returns |
| Fitter.TwoPointCurve | public/js/bfit.js:158-168 | the two-sample heuristic curve is anchored at both samples, with inner control points along the tangents |
| Fitter.TwoPointIsWuBarsky | public/js/bfit.js:158-168 | with unit tangents, the two-sample heuristic places the same curve as the Wu/Barsky fallback of lines 283-291 |
| Rounds.IterateShift | public/js/bfit.js:184-194 | counting rounds from the first refit is counting them, one fewer, from the fit the loop started with |
| Rounds.IterateKeeps | public/js/bfit.js:184-194 | a property every round keeps holds of every fit the rounds reach |
| Rounds.MissedAllShift | public/js/bfit.js:184-194 | after a first round that misses, "every round up to `n + 1` missed" from the start is "every round up to `n` missed" from the refit |
| Rounds.AcceptedShift | public/js/bfit.js:184-194 | after a first round that misses, a refit accepted in round `n` counted from the refit is accepted in round `n + 1` counted from the start |
| Rounds.FailShift | public/js/bfit.js:184-194 | likewise for the first round that fails |
| Rounds.OutcomesExclude | public/js/bfit.js:184-194 | the loop accepts at most once: the accepting round and fit are unique, and a loop that accepts neither fails nor misses every round |
| Rounds.FailureExcludes | public/js/bfit.js:184-194 | a failing loop has one failure, and its rounds do not all miss |
| Fitter.Step | public/js/bfit.js:185-188 | one round (`Reparameterize`, then `GenerateBezier`) fails only on non-finite arithmetic; its refit has one parameter per sample and is anchored at `d[first]` and `d[last]` along the tangents |
| Fitter.RoundKeepsCount | public/js/bfit.js:184-194 | every fit the rounds reach has one parameter per sample |
| Fitter.Refine | public/js/bfit.js:183-195 | an accepted refit comes from a later round, no later than round 4; its error is below the tolerance and bounds every interior sample; its curve is anchored at both ends along the tangents; a split falls strictly inside |
| Fitter.RefineOnce | public/js/bfit.js:184-194 | a one-step unfolding of `Refine`, the proof step `RefineDecides` builds on. One pass of the loop body: a failing round fails the loop, a refit below the tolerance is accepted with the next round number, and a refit that misses continues the loop from that refit at its worst sample |
| Fitter.RefineDecides | public/js/bfit.js:183-197 | the loop returns the first refit below the tolerance, with its error and round; or the failure of the first round that fails, after every earlier round missed; or, when all remaining rounds miss, the worst sample of the last refit (the incoming split when no round is left) |
| Fitter.LoopDecidesFrom | public/js/bfit.js:184-194 | any loop whose rounds run as the loop body says and which splits once no round is left decides as `RefineDecides` states |
| Fitter.DecidesAfterRound | public/js/bfit.js:184-194 | the loop decides from a fit when its first round does: failure, acceptance, or the decision from the refit one round later |
| Fitter.RefinesIsUnique | public/js/bfit.js:183-197 | at most one outcome satisfies the loop's decision rule, so the rule fixes what `FitRegion` returns from its first fit |
| Fitter.FitRegion | public/js/bfit.js:170-197 | a failure of `ChordLengthParameterize` or of the first `GenerateBezier` is passed on; a first fit below the tolerance is emitted as it is, after 0 rounds; a first fit that misses by the square of the tolerance or more is split at its worst sample at once; an emitted piece covers the region, is acceptable and leaves along the tangents; a split falls strictly inside the region |
| Fitter.FitRegionRefines | public/js/bfit.js:181-197 | a first fit that misses by less than the square of the tolerance is handed to the loop: `FitRegion` then emits the loop's first refit below the tolerance, splits at the worst sample of the fourth refit when all four miss, or fails with the first failing round |
| Fitter.Reparameterized | public/js/bfit.js:181-197 | the loop's branch of `FitRegion`: it decides as the loop from the first fit does, and an emitted piece is acceptable |
| Fitter.CubicEmits | public/js/bfit.js:170-179 | a one-step unfolding of `FitCubic`: when `FitRegion` emits a piece, `FitCubic` returns exactly that piece |
| Fitter.CubicSplits | public/js/bfit.js:197-201 | a one-step unfolding of `FitCubic`: when `FitRegion` splits, `FitCubic` returns the fits of the two halves |
| Fitter.FitCubic | public/js/bfit.js:138-202 | corrected (tangents by value). Only non-finite arithmetic fails it. The pieces cover the region in order, each one is acceptable, the first leaves along `tHat1`, the last arrives along `tHat2`, and neighbours share a tangent line. A two-sample region gives one heuristic piece |
| Fitter.FitHalves | public/js/bfit.js:198-201 | corrected (tangents by value): the pieces of the left half, then of the right, cover the region; each is acceptable; the first leaves along `tHat1`, the last arrives along `tHat2`, and the two pieces at the split meet at sample `split`: the left piece arrives with its last handle along the center tangent, the right piece leaves with its first handle along the negated center tangent |
| Fitter.Concatenate | public/js/bfit.js:198-201 | joining coverings of the two halves gives a covering of the region that keeps all the above |
| Fitter.SplitTangents | public/js/bfit.js:198-200 | both halves of a split get a unit (or zero) tangent |
| Fitter.EndTangents | public/js/bfit.js:129-130 | the end tangents `FitCurve` estimates are unit (or zero) |
| Fitter.FitCurve | public/js/bfit.js:122-132 | fewer than two samples is an error. Otherwise the pieces cover the whole polyline in order, leave and arrive along the estimated end tangents, and join smoothly. Two samples give one piece |
| Fitter.FitCurveArray | public/js/bfit.js:114-120 | fails exactly when `FitCurve` does. The curves run from the first sample to the last, each starting where the previous one ends, with at most one curve per segment of the polyline |
| Fitter.Curves | public/js/bfit.js:114-120 | the curves collected, one per piece and in the order the pieces are emitted |
| Fitter.ChainedCurves | public/js/bfit.js:114-120 | the curves of a covering of acceptable pieces chain end to end from `d[0]` to the last sample |
| Fitter.PiecesAdvance | public/js/bfit.js:198-201 | every piece covers at least one segment, so a covering of `[first, last]` has at most `last - first` pieces |
| SharedTangents.FitCubicAsWritten | public/js/bfit.js:138-202 | with tangents shared as objects, the pieces still cover the region and are acceptable. The caller's `tHat2` ends up along its old direction, rescaled to a third of the chord by a two-sample region |
| SharedTangents.FitHalvesAsWritten | public/js/bfit.js:198-201 | the right half receives the center tangent as the left half left it, negated |
| SharedTangents.FitCurveArrayAsWritten | public/js/bfit.js:114-132 | the curves of the shared-tangent fitter still chain from the first sample to the last |
| SharedTangents.SampleParameters | public/js/bfit.js:462-480 | the four-sample example is parameterized as 0, 1/7, 4/7, 1 |
| SharedTangents.SampleTangents | public/js/bfit.js:429-455 | every tangent the example gets is (-1, 0) |
| SharedTangents.SampleSolve | public/js/bfit.js:268-277 | the normal equations of the whole example give alphas 25/3 and -4/3 |
| SharedTangents.SampleFirstFit | public/js/bfit.js:209-302 | because the right alpha is negative, the whole example gets the Wu/Barsky curve (2, o), (-4/3, o), (26/3, o), (12, o) |
| SharedTangents.SampleWholeSplits | public/js/bfit.js:170-198 | the whole example misses the tolerance 1 by more than its square, so it is split at sample 1 |
| SharedTangents.HalfEmits | public/js/bfit.js:170-179 | the right half `d[1..3]`, fitted with left tangent `(k, 0)`, gives the curve with `p1 = (4k, o)` and error `(1.5k - 1.5)^2` |
| SharedTangents.HalvesOfSample | public/js/bfit.js:138-179 | the left half is a two-sample region and leaves its right tangent rescaled to `(-2/3, 0)`; the right half is emitted in one piece |
| SharedTangents.CorrectedSampleFit | public/js/bfit.js:114-202 | the corrected fitter turns the example into the left curve and the right curve with `p1 = (4, o)` |
| SharedTangents.AsWrittenSampleFit | public/js/bfit.js:114-202 | the fitter as written turns the example into the left curve and the right curve with `p1 = (8/3, o)` |
| SharedTangents.SharedTangentChangesTheFit | public/js/bfit.js:164-201 | on the example, the fitter as written and the corrected fitter return different curves |

## Left out

- I/O, the `DrawBezierCurve` callback and the `main` test function of `public/js/bfit.js` are not modelled. The callback becomes the returned sequence of pieces.
- `app.js` and `public/js/app.js` (server, UI and network glue) are not part of this model.
- Floating point: coordinates are exact reals and `Math.sqrt` is an exact square root passed in as `sqrt`. Nothing is claimed about rounding, fit accuracy or Newton-Raphson convergence.
- LeastSquares.PerturbedAlphasAreZero: holds over the reals only. In floating point a determinant can round to exactly zero while the numerators do not, and then the perturbed branch yields very large alphas.
- `Infinity` and `NaN`: a division the original performs without a guard stops the fit with `NonFinite` instead of carrying non-finite values on.
- Fewer than two samples: the original throws a `TypeError` while reading `d[1]`. The model returns `TooFewPoints`.
- MaxError.ComputeMaxError: requires `first < last`, where the original would also accept a one-sample region. Its only caller measures regions of three or more samples, where the loop always overwrites the default split. The default `(last - first + 1) / 2`, fractional in JavaScript for odd sizes, is modelled as integer division.
- Fitter.FitCubic, Fitter.FitHalves, Fitter.FitCurve, Fitter.FitCurveArray: these pass tangents by value, which is the corrected fitter. They leave out the shared, mutated tangent objects of `public/js/bfit.js` lines 164-165 and 198-201, so on the input under "## Findings" they return a different curve from the program. `SharedTangents.FitCubicAsWritten` models the program as written.
- Bezier.EvaluateInPlace: works on a sequence rather than an array, so "the control points are not modified" holds by construction rather than by proof.

## Findings

| source | as written | input that shows it | evidently intended | confidence | as-written member | corrected member |
|---|---|---|---|---|---|---|
| public/js/bfit.js:164-201 | A two-sample region rescales its tangent objects in place (`V2Scale`). The split passes the one `tHatCenter` object to the left half, negates it in place, and passes it to the right half. So the right half starts from a tangent whose length is a third of the left half's chord, and `GenerateBezier` places its inner control point with that length | samples (2, o), (0, o), (6, o), (12, o) with tolerance 1: the split is at sample 1, the left half has two samples, the right half gets tangent (2/3, 0), and its curve has `p1 = (8/3, o)` | each half is fitted with the unit center tangent (the C original passes tangents by value), so the right curve has `p1 = (4, o)` | high; not executed | SharedTangents.FitCurveArrayAsWritten, with SharedTangents.AsWrittenSampleFit and SharedTangents.SharedTangentChangesTheFit | Fitter.FitHalves, with SharedTangents.CorrectedSampleFit |
