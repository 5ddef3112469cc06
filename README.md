# Censored log-normal regression of solve times

This project models time-predict-survival, which estimates how hard a contest problem is. Each problem has a set of contestants, each with a rating and a solve time.

- The log of a contestant's solve time is modelled as normal, with mean `slope * rating + intercept` and spread `sigma`.
- A contestant who had not solved the problem when the observation stopped is *censored*. They contribute the survival probability of the stopping time instead of the density.
- `fit` (in `time_model.py`) starts from the ordinary least-squares line through the uncensored points. It takes the spread of that line's errors as the start sigma. Then it runs 100 epochs of stochastic gradient ascent on the log-likelihood with AdaGrad step sizes. After every step it clamps the slope to at most -1e-6 and sigma to at least 1e-10.
- `generate.py` censors synthetic times at a series of thresholds. It turns each fitted line into a difficulty: the rating whose predicted solve time is one hour.

All arithmetic is over Dafny's exact `real`. The transcendental functions `math.exp`, `math.erfc`, `math.log`, `math.sqrt` and `statistics.stdev` have no visible implementation. They are function values in a `Libm.MathLib` record, and `MathLib.Valid()` lists the only facts the proofs use:

- `exp` is positive;
- `erfc` lies strictly between 0 and 2;
- `sqrt` of a positive number is a positive square root;
- `stdev` of two or more values is non-negative.

Modules:

- `Libm`: the math library record, `Pi`, and `r ** -0.5`.
- `Normal`: the six distribution primitives.
- `Regression`: `single_regression` and its normal equations.
- `Fit`: the `fit` function. The uncensored partition and the error loop are imperative methods proved against functions. The epoch and sample loops are the methods `Refine`, `VisitAll` and `ApplyGradient`. They are proved equal to the fold functions `Run`, `Epoch` and `Update`, about which the invariants are proved. `Fit` is proved equal to `FitSpec`.
- `Generate`: `estimate_difficulty` and the censoring rule.

`fit`'s failures are modelled as a `FitResult.Failed` value, never excluded by a precondition:

- `DegenerateRatings`: the uncensored ratings are all equal. This covers fewer than two uncensored points, and Python then divides by zero in `single_regression`.
- `ZeroSpread`: the spread of the regression errors is 0, and Python then divides by zero in the first step.

## Model

| member | source | states |
|---|---|---|
| Libm.InvSqrt | time_model.py:100-102 | `r ** -0.5` of a positive accumulator is positive and its square times `r` is 1 |
| Normal.Kernel | time_model.py:10 | `exp(-t**2)` is positive |
| Normal.NormalPdf | time_model.py:7-10 | the density is non-zero for any non-zero sigma, and positive for a positive sigma |
| Normal.NormalPdfGradMu | time_model.py:13-17 | d pdf / d mu equals (x - mu) pdf / sigma^2 |
| Normal.NormalPdfGradSigma | time_model.py:20-23 | d pdf / d sigma equals pdf ((x - mu)^2 - sigma^2) / sigma^3; for sigma > 0 it is positive iff \|x - mu\| > sigma and zero iff \|x - mu\| = sigma |
| Normal.NormalSf | time_model.py:26-28 | the survival probability lies strictly between 0 and 1 |
| Normal.NormalSfGradMu | time_model.py:31-34 | d sf / d mu equals the density |
| Normal.NormalSfGradSigmaAsWritten | time_model.py:37-40 | the source's d sf / d sigma is exactly twice the chain-rule derivative |
| Normal.NormalSfGradSigma | time_model.py:37-40 | corrected d sf / d sigma: (x - mu) / sigma times d sf / d mu |
| Normal.SfGradSigmaAsWrittenBreaksChainRule | time_model.py:37-40 | at x = 1, mu = 0, sigma = 1 the source's value differs from the chain-rule derivative |
| Regression.SumFromLeft | time_model.py:45-46 | `sum` adds from the left: the sum of a non-empty list is the sum of all but its last element plus the last |
| Regression.SumProductsFromLeft | time_model.py:47 | the sum of the pairwise products is likewise the sum over all but the last pair plus the last product |
| Regression.SumSquaresFacts | time_model.py:47-48 | the sum of squares is non-negative and equals the sum of the products of x with itself |
| Regression.SingleRegression | time_model.py:43-51 | when the x values are not all equal, the slope and intercept solve both normal equations of least squares |
| Regression.ClosedForm | time_model.py:49-50 | the two quotients over the shared divisor n sxx - sx^2 solve n b + a sx = sy and b sx + a sxx = sxy |
| Regression.DenominatorSign | time_model.py:49-50 | the shared denominator n Σx² - (Σx)² is non-negative, zero when all x are equal, positive otherwise |
| Regression.DenominatorNonZero | time_model.py:49-50 | two distinct x values make both divisions defined |
| Regression.NormalEquationsUnique | time_model.py:43-51 | the normal equations have at most one solution when the x values are not all equal |
| Regression.SingleRegressionExact | time_model.py:43-51 | on exact linear data y[i] = a x[i] + b with distinct x values the result is exactly (a, b) |
| Regression.RegressionOnLine | time_model.py:43-51 | the same, for data stated by the recursive on-line predicate |
| Regression.DeviationsSign | time_model.py:49-50 | a sum of squared deviations is non-negative and positive iff some value deviates |
| Fit.PyMin | time_model.py:104 | Python's `min`: at most both arguments and equal to one of them |
| Fit.PyMax | time_model.py:105 | Python's `max`: at least both arguments and equal to one of them |
| Fit.GuardedRatio | time_model.py:84 | `0 if g == 0 else g / den`: a zero numerator gives 0 whatever the denominator, zero included; otherwise the result is g / den |
| Fit.CensoredGradient | time_model.py:81-87 | the censored mu-gradient is pdf / sf and positive; the sigma-gradient, computed with the source's `normal_sf_grad_sigma`, is twice (x - mu) / sigma times it |
| Fit.LogSfGradients | time_model.py:82-87 | the guarded ratio (d sf / d mu) / sf equals pdf / sf and is positive; the guarded ratio of the corrected d sf / d sigma is (x - mu) / sigma times it, and that of the source's `normal_sf_grad_sigma` is twice that |
| Fit.UncensoredGradient | time_model.py:88-94 | the uncensored mu-gradient is (x - mu) / sigma^2 and the sigma-gradient ((x - mu)^2 - sigma^2) / sigma^3 |
| Fit.LogPdfGradMu | time_model.py:89-91 | the guarded ratio (d pdf / d mu) / pdf times sigma^2 is x - mu |
| Fit.LogPdfGradSigma | time_model.py:93-94 | the guarded ratio (d pdf / d sigma) / pdf times sigma^3 is (x - mu)^2 - sigma^2 |
| Fit.SampleGradient | time_model.py:77-96 | g_slope = grad * rating and g_intercept = grad; a censored sample has a positive mu-gradient and a sigma-gradient 2 (x - mu) / sigma times it; an uncensored one has mu-gradient (x - mu) / sigma^2 and sigma-gradient ((x - mu)^2 - sigma^2) / sigma^3 |
| Fit.AdaGrad | time_model.py:97-102 | the accumulator grows by the squared gradient; the parameter is kept iff the gradient is 0, rises iff it is positive, and moves by less than the learning rate |
| Fit.Update | time_model.py:97-105 | after the updates and clamps, slope <= -1e-6, sigma >= 1e-10 and sigma > 0, every accumulator stays >= 1e-10 and none decreases |
| Fit.AccumulatorsGrowBySquares | time_model.py:97-99 | each accumulator grows by exactly the square of its gradient |
| Fit.ZeroGradientKeepsParameters | time_model.py:100-105 | from a clamped state, a zero gradient leaves its parameter unchanged, clamps included |
| Fit.UpdateFollowsGradient | time_model.py:100-105 | the intercept moves in the gradient's direction by less than its rate; a positive slope gradient raises the slope or leaves it at the cap; a positive sigma gradient raises sigma; from a clamped state a negative slope gradient lowers the slope, a negative sigma gradient does not raise sigma, and both moves are shorter than their rates |
| Fit.Step | time_model.py:77-105 | one sample's step keeps the clamp bounds and the accumulator invariants |
| Fit.FlatSampleKeepsLine | time_model.py:84-105 | a sample whose mu-gradient is 0 leaves slope and intercept unchanged, since g_slope = grad * rating and g_intercept = grad |
| Fit.Epoch | time_model.py:76-105 | an epoch keeps the accumulator invariants and, once it has visited a sample, leaves the state clamped |
| Fit.Run | time_model.py:73-105 | the 100 epochs keep the invariants, and the final state is clamped when the last epoch visits a sample |
| Fit.Range | time_model.py:74 | `range(n_items)` lists 0 .. n-1 in order |
| Fit.RangeCounts | time_model.py:74 | each of 0 .. n-1 occurs exactly once in `range(n_items)`, no other value occurs |
| Fit.PermutationVisitsEachOnce | time_model.py:74-76 | a shuffled order has n entries, all valid indices, and visits every index exactly once |
| Fit.ShufflesAreIndices | time_model.py:73-76 | every epoch's order indexes the samples |
| Fit.CountsPartition | time_model.py:57-61 | every flag is counted once, as censored or as uncensored |
| Fit.UncensoredIndices | time_model.py:57-61 | the kept positions are valid and uncensored |
| Fit.UncensoredIndicesExact | time_model.py:57-61 | the kept positions are in input order, every uncensored position is kept, and there are as many as `False` flags |
| Fit.Select | time_model.py:57-61 | the k-th selected element is the element at the k-th kept position |
| Fit.Logs | time_model.py:61 | element i is `log(times[i])` |
| Fit.PartitionUncensored | time_model.py:57-61 | the two lists are the ratings and log times at the uncensored positions, in input order |
| Fit.Residuals | time_model.py:64-66 | error i is `rating * slope + intercept - logtime` for the i-th uncensored point |
| Fit.PredictErrors | time_model.py:64-66 | the loop builds exactly those errors |
| Fit.SumOfResiduals | time_model.py:64-66 | the errors sum to a Σx + n b - Σy |
| Fit.ResidualsBalance | time_model.py:64-66 | errors of a line satisfying the first normal equation, n b + a Σx = Σy, sum to 0 |
| Fit.ResidualsOfRegressionSumToZero | time_model.py:62-66 | the errors of the least-squares line sum to 0 |
| Fit.TwoDistinct | time_model.py:62-67 | non-equal ratings mean at least two points, so `stdev` is defined |
| Fit.FitSpec | time_model.py:54-106 | it fails with DegenerateRatings iff the uncensored ratings are all equal, with ZeroSpread iff they are not and `stdev` of the least-squares errors is 0, and otherwise returns a line whose slope is <= -1e-6 |
| Fit.ApplyGradient | time_model.py:97-105 | the in-place update of the six loop variables is `Update` |
| Fit.EpochExtends | time_model.py:76-105 | visiting one more index of the order applies `Update` with that sample's gradient |
| Fit.VisitAll | time_model.py:76-105 | the inner loop over one shuffled order computes `Epoch` |
| Fit.Refine | time_model.py:73-105 | the outer loop over the epochs computes `Run` |
| Fit.Fit | time_model.py:54-106 | the whole of `fit` computes `FitSpec` |
| Generate.EstimateDifficulty | generate.py:6-9 | the difficulty r solves r * slope + intercept = log(3600) |
| Generate.DifficultyUnique | generate.py:6-9 | it is the only rating that does |
| Generate.DifficultyDefined | generate.py:28-29 | a fitted slope, at most -1e-6, is non-zero, so the difficulty of a fitted line is defined |
| Generate.FittedLineHasDifficulty | generate.py:28-29 | whenever `FitSpec` returns a line, its slope is non-zero and its difficulty solves r * slope + intercept = log(3600) |
| Generate.CensorTimes | generate.py:26 | every censored time is at most the threshold and at most the original time, and equals one of them |
| Generate.CensorFlags | generate.py:27 | one flag per time |
| Generate.CensoringConsistent | generate.py:26-27 | a sample is flagged iff its time reaches the threshold; flagged samples record the threshold, the others their own time, which is below it |
| Generate.CensoredTimesPositive | generate.py:26 | positive times and threshold give positive censored times, so `fit`'s logarithms are defined |
| Generate.CensoredInputsAligned | generate.py:26-28 | the ratings, censored times and flags have the lengths `fit` requires |
| Generate.Thresholds | generate.py:25 | twelve thresholds, from 600 to 7200, strictly increasing |
| Generate.CensoredCount | generate.py:29 | `sum(censoreds)` plus the number of uncensored positions `fit` keeps is the number of samples |
| Generate.CensoredCountFalls | generate.py:25-29 | raising the threshold never increases the number of censored samples |

## Left out

- `fetch_data.py` is not part of this model. It holds the network login, the HTTP requests, the JSON file I/O and the HTML token extraction.
- Floating point: results are exact reals. There is no IEEE rounding or underflow, and nothing about convergence or accuracy of the ascent. The `gm == 0` guards are kept as plain branches.
- The internals of `math.exp`, `math.erfc`, `math.log`, `math.sqrt` and `statistics.stdev`: only the `MathLib.Valid()` facts are used.
- `math.log` of a non-positive time raises in Python. `log` is a total function value here, so that error path is not modelled. `Generate.CensoredTimesPositive` shows the censored times are positive when the inputs are.
- `random.Random`: `rng.shuffle` is replaced by a parameter holding one permutation of `range(n_items)` per epoch. The synthetic data of `generate.py:13-21` is not modelled.
- The `print` calls of `generate.py:29-30` and the loop in `main` that only calls `fit` and prints.
- `fit` computes `sigma` but returns only the slope and intercept. The model does the same.
- Fit.FitSpec: the ZeroSpread failure is decided before the epochs start, where Python would raise at the first step. The two agree because a fit needs at least two samples, so a first step exists.
- Fit.UncensoredGradient: its gradients are stated multiplied out (`g.mu * sigma^2 == x - mu`) rather than as quotients.
- Fit.FitSpec: it does not restate the clamp invariants of the final state beyond the slope bound; they are the ensures of `Fit.Run`.
- Fit.UpdateFollowsGradient: it bounds the slope and sigma moves only from a clamped state. From the least-squares start the slope clamp can lengthen or reverse a move: a start slope above -1e-6 is set to -1e-6 even when its gradient is positive.

## Findings

| source | as written | input that shows it | evidently intended | confidence | as-written member | corrected member |
|---|---|---|---|---|---|---|
| time_model.py:37-40 | `exp(-t**2) * sqrt(2) * (x - mu) / (sqrt(pi) * sigma**2)`, twice the derivative of the survival function with respect to sigma | x = 1, mu = 0, sigma = 1: the source's value is 2 exp(-1/2)/sqrt(2 pi), but the derivative is exp(-1/2)/sqrt(2 pi) | `exp(-t**2) * (x - mu) / (sqrt(2 * pi) * sigma**2)`, which is (x - mu) / sigma times `normal_sf_grad_mu` | not executed | Normal.NormalSfGradSigmaAsWritten, Normal.SfGradSigmaAsWrittenBreaksChainRule | Normal.NormalSfGradSigma |

`fit` calls `normal_sf_grad_sigma` as written (time_model.py:86-87), so `Fit.CensoredGradient`, and with it every step, epoch and fit, uses `Normal.NormalSfGradSigmaAsWritten`: the model follows the code. `Fit.LogSfGradients` states both the censored sigma-gradient the code computes and the corrected one, which is half of it. None of the fit invariants depends on this value.
