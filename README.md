# Theta forecasting core, modelled in Dafny

This project models the Theta exponential-smoothing family of
`statsforecast/theta.py`. There are four variants:

- STM, simple;
- OTM, optimised;
- DSTM, dynamic simple;
- DOTM, dynamic optimised.

The model covers:

- the five-column state table (level, mean of y, An, Bn, mu) and its one-step recursion: `initstate`, `thetaupdate`;
- the recursive multi-step forecast: `thetafcst`, `thetaforecast`;
- the in-sample pass with its residuals, running j-step mean squared errors and NA early exit: `thetacalc`, `pegelsresid_theta`;
- the parameter bookkeeping: `initparamtheta`, `switch_theta`, `is_constant`, the pack/unpack of `theta_target_fn`, and the write-back of `thetamodel`;
- the bounded Nelder–Mead minimiser `nelder_mead_theta`, over an arbitrary objective;
- `optimize_theta_target_fn` and `thetamodel`;
- the validation and model-selection loop of `auto_theta`;
- the quantile-level arithmetic of `forecast_theta`.

Arithmetic is exact (`real`). IEEE values are an explicit datatype `Ext`:
finite, +inf, -inf or NaN. Its comparisons follow IEEE, and a second order
follows NumPy's sort order, which puts NaN last. thetacalc's NA sentinel
(-99999.0) is a constructor of its result type, `CalcResult.Aborted`. It is
turned back into the float only where `theta_target_fn` compares it
numerically.

The files:

| file | module | models |
|---|---|---|
| `floats.dfy` | `Floats` | NaN/inf, IEEE `<`/`<=`, NumPy's sort order, the constants NA, TOL, HUGEN |
| `recursion.dfy` | `ThetaRecursion` | initstate, thetaupdate, thetafcst, thetaforecast |
| `calc.dfy` | `ThetaCalc` | thetacalc, pegelsresid_theta |
| `nelder_mead.dfy` | `NelderMead` | nelder_mead_theta |
| `params.dfy` | `ThetaParams` | initparamtheta, switch_theta, is_constant, theta_target_fn, the bounds |
| `auto_theta.dfy` | `AutoTheta` | optimize_theta_target_fn, thetamodel, auto_theta's checks and selection, quantile levels |

State that the source updates in place is modelled as imperative Dafny:

- thetaupdate, thetafcst and thetacalc are methods over `array<Row>` and `array<real>`.
- Each is proved against a specification function:
  - `Step`, the one-step transition;
  - `Roll` / `Fcst`, the feedback roll;
  - `TrueRow`, `Stop`, `CalcSpec` and `AmseSpec`, the in-sample pass.
- The properties the source promises are lemmas about those functions.

Nelder–Mead works on the simplex as `seq` values (see "Left out").

On two points the code is evidently wrong, and the fitting pipeline (`ThetaParams.Objective`, `AutoTheta.OptimizeThetaTargetFn`, `AutoTheta.ThetaModel`, `AutoTheta.FitCandidates`, `AutoTheta.AutoThetaFit`) follows the documented design instead. The code's versions are kept only as the as-written halves of the two "Findings" rows:

- The design says invalid candidates score "maximally bad". The code scores them -inf, which a minimiser ranks best. The code's score is `ThetaParams.ScoreAsWritten`; the pipeline scores with `ThetaParams.TargetScore`, which gives them +inf.
- The design describes per-parameter bounds. The code passes one fixed triple whatever is free. The code's bounds are `ThetaParams.FixedLower`/`FixedUpper`; the pipeline searches inside `ThetaParams.FreeLower`/`FreeUpper`.

Everywhere else, where the documented design and the code differ, the model follows the code:

- The design says a theta below 1 is rejected. The code has no such check: a user-given theta is used as it is, and only a zero theta or alpha fails (by division by zero, a precondition here).
- The design speaks of keeping the lowest finite objective. The code also accepts -inf in its scan and then fails because the best is infinite. `AutoTheta.SelectModel` models the code.
- pegelsresid NaN-fills `amse`, but thetacalc zeroes `amse[:nmse]` before use, so `amse` starts at 0.

## Model

| member | source | states |
|---|---|---|
| Floats.SortLeTotal | statsforecast/theta.py:362 | any two objective values are comparable in the order `argsort` sorts by |
| Floats.SortLeTrans | statsforecast/theta.py:362 | that order is transitive |
| Floats.SortLeAgreesWithLe | statsforecast/theta.py:362-363 | when neither value is NaN, the sort order is IEEE `<=` |
| Floats.LtIsSortLt | statsforecast/theta.py:377 | an IEEE `<` between two values puts them strictly in that order in argsort's order |
| Floats.SortLtLe | statsforecast/theta.py:377-380 | strictly before b and b before c gives strictly before c (used to show a replaced vertex improved) |
| Floats.SortLeLt | statsforecast/theta.py:401-413 | before-or-equal then strictly before gives strictly before (an accepted outside contraction, f_c <= f_r < worst, beats the worst) |
| Floats.LeIsSortLe | statsforecast/theta.py:401 | an IEEE `<=` between two values is before-or-equal in argsort's order |
| ThetaRecursion.TrendOfLine | statsforecast/theta.py:43-48 | initstate's closed-form trend recovers slope b and intercept a of any exact line y[t] = a + b·(t+1), n >= 2 |
| ThetaRecursion.SumOfLine | statsforecast/theta.py:45 | the sum of a line over t = 1..n in closed form |
| ThetaRecursion.WeightedSumOfLine | statsforecast/theta.py:45 | the t-weighted sum of a line over t = 1..n in closed form |
| ThetaRecursion.ConstantHasNoTrend | statsforecast/theta.py:43-48 | a constant series gets Bn = 0 and An = the constant |
| ThetaRecursion.GrowsPastOne | statsforecast/theta.py:46 | n >= 2 makes the divisor n^2 - 1 positive |
| ThetaRecursion.SmoothLevel | statsforecast/theta.py:156 | the new level moves from the old one by alpha times the observation's distance from it |
| ThetaRecursion.RunningMean | statsforecast/theta.py:158 | (i+1)·new mean = i·old mean + observation |
| ThetaRecursion.StepMu | statsforecast/theta.py:150-152 | row i's mu is the prediction made from row i-1 alone, whether or not mu is fed back |
| ThetaRecursion.AdvanceLevel | statsforecast/theta.py:153-156 | the level update of a row follows the smoothing rule with the observation used |
| ThetaRecursion.AdvanceMean | statsforecast/theta.py:158 | the mean-y column of a row is the running mean of the previous one and the observation |
| ThetaRecursion.StepKeepsTrend | statsforecast/theta.py:164-166 | for STM/OTM, An and Bn are copied unchanged from row i-1 |
| ThetaRecursion.StepIgnoresY | statsforecast/theta.py:153-154 | with usemu set, the observation passed has no effect at all |
| ThetaRecursion.RollPrefix | statsforecast/theta.py:127-136 | the first k rows of an h-step roll are the k-step roll |
| ThetaRecursion.RollAt | statsforecast/theta.py:127-136 | roll row k is one fed-back step from row k-1, or from the last fitted row for k = 0 |
| ThetaRecursion.RollSnoc | statsforecast/theta.py:127-136 | an (h+1)-step roll is the h-step roll plus one more step |
| ThetaRecursion.FcstPrefix | statsforecast/theta.py:127-137 | the first h-1 forecasts for horizon h equal the forecasts for horizon h-1 |
| ThetaRecursion.FcstFirst | statsforecast/theta.py:137 | the first forecast is the prediction from the last fitted row |
| ThetaRecursion.RollKeepsTrend | statsforecast/theta.py:164-166 | for STM/OTM every forecast row keeps the last row's An and Bn |
| ThetaRecursion.ThetaUpdate | statsforecast/theta.py:141-166 | only row i of the table changes, and it becomes the transition of row i-1 |
| ThetaRecursion.ThetaFcst | statsforecast/theta.py:120-137 | f[0..h) becomes the fed-back forecast from row i-1; the rest of f and the whole state table are untouched |
| ThetaRecursion.ThetaForecast | statsforecast/theta.py:170-175 | forecasts h steps beyond the n fitted rows, touching only f[0..h) |
| ThetaCalc.FirstNA | statsforecast/theta.py:82-95 | the first index from `from` whose one-step forecast is within TOL of NA, or n; no index before it is |
| ThetaCalc.StopAt | statsforecast/theta.py:93-95 | the stop index is the unique k with no NA before it and NA at it (or k = n) |
| ThetaCalc.ScalePositive | statsforecast/theta.py:112-114 | the mse divisor is at least TOL |
| ThetaCalc.CalcSpecNonNegative | statsforecast/theta.py:112-115 | a completed pass returns a non-negative mse |
| ThetaCalc.NonNegQuotient | statsforecast/theta.py:112-115 | the mse quotient of a non-negative sum over a positive divisor is non-negative |
| ThetaCalc.CountClosed | statsforecast/theta.py:97-99 | denom[j] after the passes before `upto` is max(0, min(upto, n-j) - 1); after the full loop it is max(0, n-1-j) |
| ThetaCalc.EmptyCountEmptySum | statsforecast/theta.py:97-101 | a horizon no pass reached has an empty error sum, so its amse stays 0 |
| ThetaCalc.SumSqErrNonNegative | statsforecast/theta.py:100-101 | the j-step squared-error sum is never negative |
| ThetaCalc.AmseNonNegative | statsforecast/theta.py:101 | every amse[j] is non-negative |
| ThetaCalc.OnlineMean | statsforecast/theta.py:101 | the in-place update of amse[j] keeps it the arithmetic mean of the squared errors seen |
| ThetaCalc.AmseStep | statsforecast/theta.py:97-101 | one pass adds one error to horizon j exactly when i+j < n, and leaves it alone otherwise |
| ThetaCalc.MeanSnoc | statsforecast/theta.py:158 | the running-mean update of one more value gives the mean of the longer prefix |
| ThetaCalc.TrueRowMean | statsforecast/theta.py:158 | column 1 of row k is the arithmetic mean of y[0..k] |
| ThetaCalc.TrueRowMeanStep | statsforecast/theta.py:158 | the mean column of row k is the running mean of row k-1's mean column and y[k] |
| ThetaCalc.TrueRowTrend | statsforecast/theta.py:164-166 | for STM/OTM every row of the table carries initstate's trend An, Bn |
| ThetaCalc.FcstAt | statsforecast/theta.py:127-137 | f[j] of an nmse-step forecast is the (j+1)-step forecast, whatever nmse is |
| ThetaCalc.Calc | statsforecast/theta.py:57-116 | returns the specified mse or the sentinel; rows, residuals and amse before the stop are the specified ones; later rows and residuals keep their old contents |
| ThetaCalc.CalcInit | statsforecast/theta.py:78-80 | before the loop: row 0 is initstate's, e[0] is the first residual, amse[:nmse] is 0 and every other entry keeps its old value |
| ThetaCalc.CalcStep | statsforecast/theta.py:82-111 | one turn of the loop: a sentinel forecast at i is reported and nothing changes; otherwise rows, residuals, counts and amse become the specified ones through index i |
| ThetaCalc.FinishMse | statsforecast/theta.py:112-115 | after a full loop, the result is the specified mse: the squared residuals after the burn-in, summed, over mean(abs(y)) or TOL |
| ThetaCalc.CalcPass | statsforecast/theta.py:82-111 | one pass: on the sentinel nothing changes; otherwise it sets residual i, row i and the amse entries, and changes nothing else |
| ThetaCalc.AccumulateAmse | statsforecast/theta.py:97-101 | after pass i, denom[j] and amse[j] are the count and mean squared error of the j-step errors so far |
| ThetaCalc.NextEntry | statsforecast/theta.py:97-101 | one horizon j: when y[i+j] exists the count grows by one and the mean takes in the squared error; otherwise both stay |
| ThetaCalc.PegelsMseNaNIffAborted | statsforecast/theta.py:247-251 | pegelsresid's mse is NaN exactly when thetacalc stopped on the sentinel, and is non-negative otherwise |
| ThetaCalc.PegelsResid | statsforecast/theta.py:227-252 | fresh tables: the specified rows, residuals and amse up to the stop, zero rows and NaN residuals after it, and the mapped mse |
| NelderMead.Clamp | statsforecast/theta.py:334 | a clipped coordinate lies in [lo, hi], and one already there is unchanged |
| NelderMead.Clip | statsforecast/theta.py:351-353 | a clipped point lies in the box and has the same length; a point in the box is unchanged |
| NelderMead.InitialSimplex | statsforecast/theta.py:341-353 | n + 1 vertices, each of dimension n, each in the box |
| NelderMead.InitialSimplexShape | statsforecast/theta.py:344-349 | vertex j < n differs from x0 only at coordinate j, which holds the clipped `(x0[j]==0 ? zero_pert : x0[j])·(1+init_step)`; vertex n is x0 |
| NelderMead.Coefficients | statsforecast/theta.py:337-340 | adaptive coefficients keep the reflection factor; gamma is in (1, 3], rho in [1/4, 3/4), sigma in [0, 1) |
| NelderMead.FlatSimplexStops | statsforecast/theta.py:367 | a simplex whose values are all one finite number passes the stopping test at tol 1e-4 |
| NelderMead.ArgSort | statsforecast/theta.py:362 | returns a permutation of the indices that lists the values in NumPy's order |
| NelderMead.InsertIndex | statsforecast/theta.py:362 | inserting the next index into a permutation of the earlier ones gives a permutation of all of them |
| NelderMead.InsertSorted | statsforecast/theta.py:362 | inserting before the first larger value keeps the values sorted |
| NelderMead.ArgsortFirstIsMin | statsforecast/theta.py:362-363 | order[0] holds a smallest value in sort order, and a smallest by IEEE `<=` when there is no NaN |
| NelderMead.Reflected | statsforecast/theta.py:370-375 | the reflection of the worst vertex through the centroid of the others, clipped: it has the vertices' dimension and lies in the box |
| NelderMead.Expanded | statsforecast/theta.py:384-387 | x_o plus gamma times (x_r - x_o), clipped: it keeps the dimension and lies in the box |
| NelderMead.Iteration | statsforecast/theta.py:370-422 | the reflection is the clipped reflection of the worst vertex through the centroid of the others, and the objective is defined there; Reflect iff best <= f_r < second-worst and then x_r takes the worst slot; Expand iff not that and f_r < best, with the expansion rule; otherwise the contraction rule; xt, ft are the expansion or contraction point and its value |
| NelderMead.EvaluateReflection | statsforecast/theta.py:370-376 | x_o is the centroid of every vertex but the worst, x_r the clipped reflection through it; x_r lies in the box and f_r is the objective there |
| NelderMead.AfterReflection | statsforecast/theta.py:377-422 | Reflect iff best <= f_r < second-worst, and then x_r with f_r takes the worst slot; Expand iff not that and f_r < best, with the expansion rule; otherwise the contraction rule |
| NelderMead.TakeReflection | statsforecast/theta.py:377-380 | x_r with f_r takes the worst slot, nothing else changes, and f_r sorts strictly before the old worst |
| NelderMead.NotReflected | statsforecast/theta.py:382-422 | Expand iff f_r < best: x_e is the clipped expansion, and x_e with f_e takes the worst slot when f_e < f_r, x_r with f_r otherwise; without expansion the contraction rule |
| NelderMead.Expansion | statsforecast/theta.py:384-395 | x_e is the clipped expansion of x_r; x_e with f_e takes the worst slot when f_e < f_r, and x_r with f_r otherwise |
| NelderMead.Contract | statsforecast/theta.py:396-422 | outside contraction iff second-worst <= f_r < worst, and then it is kept iff f_c <= f_r; inside otherwise, kept iff f_c < worst; a kept point takes the worst slot with its value; a rejected one leads to the shrink towards the best vertex |
| NelderMead.ContractOrShrink | statsforecast/theta.py:397-422 | for the chosen contraction: the point is `Contracted`, it is kept exactly on its acceptance test (f_c <= f_r outside, f_c < worst inside) and then takes the worst slot, and otherwise the simplex shrinks towards the best vertex |
| NelderMead.ContractionPoint | statsforecast/theta.py:397-411 | the trial point is `Contracted` (outside or inside), it lies in the box and fc is the objective there |
| NelderMead.Contracted | statsforecast/theta.py:397-411 | x_o plus (outside) or minus (inside) rho times (x_r - x_o), clipped: it keeps the dimension and lies in the box |
| NelderMead.TakeContraction | statsforecast/theta.py:401-414 | an accepted contraction (f_c <= f_r < worst outside, f_c < worst inside) takes the worst slot with its value, nothing else changes, and f_c sorts strictly before the old worst |
| NelderMead.AcceptedContractionImproves | statsforecast/theta.py:401-413 | both acceptance tests imply that f_c sorts strictly before the worst value |
| NelderMead.Replace | statsforecast/theta.py:378-379 | `simplex[worst] = x; f_simplex[worst] = f(x)`: the given point and value take the worst slot, and nothing else changes |
| NelderMead.ShrinkAll | statsforecast/theta.py:417-422 | the best vertex stays; every other one becomes the clipped `best + sigma·(v - best)` and is evaluated again |
| NelderMead.EvaluateAll | statsforecast/theta.py:355-357 | f_simplex[j] is the objective at vertex j, for every j |
| NelderMead.Minimize | statsforecast/theta.py:311-423 | every final vertex is in the box and its value is the objective there; x is a final vertex and fun its value; 1 <= nit <= max_iter, and nit = max_iter unless the stopping test ended the loop; after that test, the values' deviation is below tol_std and fun sorts before every vertex's value |
| ThetaParams.InitParamDefaults | statsforecast/theta.py:182-210 | a parameter is flagged exactly when it is NaN and then gets y[0]/2, 0.5 or 2.0; for STM/DSTM theta is 2.0 and unflagged whatever was passed |
| ThetaParams.InitParamIdempotent | statsforecast/theta.py:179-218 | feeding back the chosen values gives the same values with nothing to optimise |
| ThetaParams.SwitchThetaNames | statsforecast/theta.py:222-223 | every model is found under its name, and a found name is that model's name |
| ThetaParams.CodeTable | statsforecast/theta.py:20-23 | the codes 0..3 are distinct, and the dynamic models are exactly the codes 2 and 3 |
| ThetaParams.IsConstantMeansFlat | statsforecast/theta.py:463-464 | is_constant holds exactly when one value fills the series, and then the fitted trend is flat at that value |
| ThetaParams.Unpack | statsforecast/theta.py:268-286 | each unflagged parameter keeps its initial value |
| ThetaParams.UnpackPack | statsforecast/theta.py:268-286 | unpacking the packed starting values gives them back |
| ThetaParams.PackUnpack | statsforecast/theta.py:268-286 | every vector of the right length is the packing of what it unpacks to |
| ThetaParams.WriteBack | statsforecast/theta.py:498-506 | the level is never written back |
| ThetaParams.WriteBackIsUnpack | statsforecast/theta.py:498-506 | the write-back is the unpacking of the fitted vector, with the initial level restored |
| ThetaParams.Floor | statsforecast/theta.py:301-302 | a non-NaN clamped score is never below -1e10 |
| ThetaParams.InvalidScoresBestAsWritten | statsforecast/theta.py:303-306 | as written, an aborted or NaN candidate scores -inf, strictly below every valid score |
| ThetaParams.TargetScoreMap | statsforecast/theta.py:301-306 | corrected score: never NaN; NaN and the sentinel become +inf; finite values at or above -1e10 are unchanged; -inf and lower values become -1e10; every other score sorts before an invalid one |
| ThetaParams.ValidScoresBeatInvalid | statsforecast/theta.py:301-306 | corrected score: an aborted candidate scores +inf, and every valid candidate scores its mse, which is strictly below that |
| ThetaParams.TargetFnMeaning | statsforecast/theta.py:256-307 | the objective is never NaN; it is +inf exactly when thetacalc stops on the sentinel, and otherwise the non-negative mse of the unpacked parameters |
| ThetaParams.TargetFnAtStart | statsforecast/theta.py:256-307 | at the starting vector, the objective scores the starting parameters |
| ThetaParams.FixedBoundsMisaligned | statsforecast/theta.py:454-455 | as written: with the level given, the point (alpha 0, theta 0.5) is inside the fixed box, and thetacalc is not defined there |
| ThetaParams.FreeBoundsAgreeOnPrefix | statsforecast/theta.py:454-455 | the corrected bounds equal the fixed triple's prefix when the free parameters are a leading run |
| ThetaParams.FreeBoundsOk | statsforecast/theta.py:454-455 | the corrected bounds form a non-empty box |
| ThetaParams.FreeBoundsRanges | statsforecast/theta.py:454-455 | inside the corrected box: level in ±1e10, alpha in [0.1, 0.99], theta in [1, 1e10] |
| ThetaParams.BoxedParamsWellDefined | statsforecast/theta.py:454-455 | inside the corrected box thetacalc never divides by zero |
| ThetaParams.ObjectiveDomain | statsforecast/theta.py:440-458 | the objective the minimiser calls is defined exactly on the free parameters' box: every point of it, and no point outside it |
| AutoTheta.OptimizeThetaTargetFn | statsforecast/theta.py:426-460 | no result iff nothing is free; otherwise the point is in the free parameters' bounds, thetacalc is defined there, fun is the objective at it, and 1 <= nit <= 1000 |
| AutoTheta.ThetaModel | statsforecast/theta.py:467-521 | the fit is ModelFit: the starting values are initparamtheta's; when some are free, the optimiser's point lies in their bounds, fun is the objective there and 1 <= nit <= 1000, and alpha and theta are written back with the level kept (otherwise the starting values stay); mse, residuals, amse and the state rows (the specified rows up to the stop, zero rows after it) are pegelsresid's on those parameters |
| AutoTheta.FinalPass | statsforecast/theta.py:507-521 | the fit keeps the given parameters and optimiser result, and its mse, residuals, amse and state rows are pegelsresid's on those parameters |
| AutoTheta.ValidateOrder | statsforecast/theta.py:606-652 | the arguments pass iff nmse is in [1, 30], n > 3 and the model name is known; each error (nmse, empty series, one observation, model name, tiny dataset) is raised exactly when every earlier check passed and its own fails |
| AutoTheta.ConstantFitNeedsTwo | statsforecast/theta.py:609-618 | the constant-series fit (STM, alpha 0.5, theta 2.0) is defined exactly when the series has at least two observations, so a single observation fails there |
| AutoTheta.Candidates | statsforecast/theta.py:653-656 | one to four candidate models |
| AutoTheta.FitCandidates | statsforecast/theta.py:658-668 | one fit per candidate, in order, each the ModelFit of thetamodel for that candidate with the user's s0, alpha, theta and nmse; each mse is NaN or non-negative |
| AutoTheta.SelectModel | statsforecast/theta.py:658-675 | the winner is finite, <= every non-NaN mse, and strictly < every earlier non-NaN mse; there is none iff some mse is -inf or none is finite |
| AutoTheta.SelectionFailsIffAllNaN | statsforecast/theta.py:669-675 | for the NaN-or-non-negative mses thetamodel produces, selection fails iff every candidate's mse is NaN |
| AutoTheta.SelectFit | statsforecast/theta.py:664-675 | over NaN-or-non-negative mses: fails (only with "no model able to be fitted") iff every mse is NaN; otherwise keeps the first fit whose mse is finite, <= every non-NaN mse and < every earlier non-NaN one |
| AutoTheta.AutoThetaFit | statsforecast/theta.py:588-685 | validation errors come first, in their order; otherwise fits[k] is thetamodel's fit (ModelFit) of candidate k with the user's arguments; "no model able to be fitted" iff every mse is NaN; a fitted result is the first fit whose mse is finite, <= every non-NaN mse and < every earlier one |
| AutoTheta.QuantileLevelsCentred | statsforecast/theta.py:573-574 | the two quantiles are lv/100 apart and sum to 1; for lv in [0, 100] they lie in [0, 1] around 1/2 |

## Left out

- The seasonality test and seasonal decomposition of auto_theta (statsforecast/theta.py:622-642, 677-684): they call statistics library routines. The model fits the series as given.
- compute_pi_samples (statsforecast/theta.py:524-540): Monte Carlo sampling from a seeded normal generator. Only the level-to-quantile arithmetic of forecast_theta is modelled; `np.quantile` is a library call.
- The rest of forecast_theta, and forward_theta: they repackage the pieces modelled here.
- The constant-series fit of auto_theta (statsforecast/theta.py:609-618) is not run: its result is discarded. Its only effect is the error it raises. On an empty series that is `EmptySeries`. On a single observation initstate divides by n² − 1 = 0, which is `OneObservation`; AutoTheta.ConstantFitNeedsTwo shows the fit is defined for every longer series.
- float32 rounding of the state table and of x0 (statsforecast/theta.py:32, 125, 235, 428): arithmetic is exact.
- NaN and infinities inside the recursion: with exact arithmetic and the divisions guarded, the recursion produces only finite values.
- statsforecast/_lib.py is not part of this model: it loads a native library through foreign calls.
- Division by zero, which raises in the source: preconditions instead. `WellDefined`, `InitOk`, `GivenOk` and `FixedOk` require alpha ≠ 0 and theta ≠ 0 where they are divided by, and n >= 2 for the non-dynamic trend's n² − 1.
- NelderMead.Minimize: the simplex is a `seq` of `seq<real>` values, not a NumPy matrix updated in place. Aliasing is therefore not modelled. Arrays together with a partial-function objective were too costly to verify.
- AutoTheta.OptimizeThetaTargetFn: scores with the corrected `ThetaParams.TargetScore` (+inf for invalid candidates) and searches inside `ThetaParams.FreeLower`/`FreeUpper`, not with the code's -inf score and fixed bound triple (see "Findings"). AutoTheta.ThetaModel, AutoTheta.FitCandidates and AutoTheta.AutoThetaFit inherit both corrections.
- NelderMead.Minimize: only the bounded path is modelled. optimize_theta_target_fn always passes bounds, so the unbounded branches are never taken.
- NelderMead.StdBelow: `np.std(f) < tol` is modelled as population variance < tol², false as soon as a value is NaN or infinite. NelderMead.FlatSimplexStops is stated at the tolerance 1e-4 that optimize_theta_target_fn passes, rather than for every positive tolerance.
- NelderMead.ArgSort: argsort's tie order is not fixed. Callers rely only on "a permutation sorted in NumPy's order", and the insertion sort inside is one such permutation.
- NelderMead.Minimize does not promise convergence or a decrease of the best value. Its contract covers the box, the final values, the iteration count and the stopping test; the per-iteration moves are the contract of NelderMead.Iteration. The objective is a partial function defined exactly on the box, so each call to it shows that the point lies in the box.
- AutoTheta.AutoThetaFit fits every candidate first and then runs the selection scan. The source interleaves the two; the fits are independent, so the result is the same.
- AutoTheta.ThetaModel returns the mse, parameters, optimiser result, residuals, amse and state rows. It does not return `n` and `mean_y`, which are `len(y)` and the mean of y.
- nmse only sizes amse. The objective omits it, because the mse thetacalc returns does not depend on it.
- The model name reaches thetamodel as a `ModelType` once `switch_theta` has accepted it. Strings appear only in AutoTheta.Validate and ThetaParams.SwitchTheta.

## Findings

| source | as written | input that shows it | evidently intended | confidence | as-written member | corrected member |
|---|---|---|---|---|---|---|
| statsforecast/theta.py:454-455 | the bounds are always the triple for (level, alpha, theta), while x0 holds only the free parameters; clipping pairs coordinate k with bound k, or raises on the shape mismatch | level given, alpha and theta free, point (0.0, 0.5): inside [-1e10, 1e10] × [0.1, 0.99], so alpha = 0 reaches thetacalc, which divides by it, and theta = 0.5 < 1 | each free parameter is bounded by its own range | medium; not executed | ThetaParams.FixedBoundsMisaligned | ThetaParams.FreeBoundsRanges |
| statsforecast/theta.py:303-306 | NaN and the NA sentinel become -inf, and the minimiser ranks -inf before every value | a candidate on which thetacalc stops on the sentinel scores -inf, below any valid candidate's mse (e.g. 0.5) | invalid candidates score worst (+inf) | medium; not executed | ThetaParams.InvalidScoresBestAsWritten | ThetaParams.ValidScoresBeatInvalid |

On the first row: if NumPy rejects bound vectors longer than x0 rather than pairing their leading entries, the fit raises instead, which is not the intended behaviour either.

The rest of the model uses the corrected versions: `ThetaParams.Objective` scores with `ThetaParams.TargetScore`, and `AutoTheta.OptimizeThetaTargetFn` searches inside `ThetaParams.FreeLower`/`FreeUpper`.
