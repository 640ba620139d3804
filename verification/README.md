# l1l2py core in Dafny

l1l2py fits elastic-net (l1 + l2 regularized least squares) models and tunes
their parameters by nested cross-validation. This project models the
discrete logic around the numerical solvers and proves what that logic
promises:

- **Fold partitioning** (`l1l2py/tools.py`, module `Folds`, `folds.dfy`):
  - `_split_dimensions`, a loop that cuts `num_items` into `num_splits`
    contiguous chunks of size `int(round(remaining / remaining_splits))`;
  - `_splits`, which makes one (train, test) fold per chunk;
  - `kfold_splits` and `stratified_kfold_splits`: their validation, and the
    negative-class-first recombination of the per-class folds.
  The random shuffle is an input: a permutation of the indexes. Python's
  `round` is exact rational rounding, with a `TieRule` parameter covering
  both tie rules: half to even (Python 3) and half away from zero (Python 2,
  the dialect of `xrange`).
- **Centering and error functions** (`l1l2py/tools.py`, module `Metrics`,
  `metrics.dfy`):
  - `center`, including numpy broadcasting of the optional matrix and the
    four tuple shapes;
  - the one-row guard of `standardize`;
  - `classification_error`, `balanced_classification_error` and
    `regression_error`.
  All computation is over exact reals.
- **The older `tools.py`** (module `LegacyTools`, `legacy_tools.dfy`):
  - its error functions are written in their own numpy idioms: boolean
    self-indexing, a dot product, and balance factors taken from `center`;
  - each is proved equal to the newer one;
  - its `center` (tools.py:238-251) is the same code as the newer `center`,
    so `Metrics.Center` models both, and its doctests are proved against it.
- **Solver control** (`algorithms.py`, module `Algorithms`, `algorithms.dfy`):
  - `soft_thresholding`, as an array method;
  - the `prediction_error` dispatch;
  - the `stage_Ia` regularization path, with the elastic-net solver as a
    function parameter;
  - the loop control of `elastic_net`, with the gradient step as a function
    parameter;
  - the fold mean and first-minimum selection at the end of `stage_I`.

Errors are values:
- a Python exception becomes `Err(cause)`;
- a numpy NaN result (the mean of an empty axis, `0.0 / 0.0` on numpy
  floats) becomes `Err(NotANumber)`;
- Python's `x / float(0)` on a Python number becomes `Err(ZeroDivision)`.

Common definitions (`Result`, sums, means, `Range`, permutations) are in
`common.dfy`.

## Model

| member | source | states |
|---|---|---|
| Folds.RoundRatio | l1l2py/tools.py:498 | the rounded chunk size never exceeds the remaining items; with at least one item per remaining split it is at least 1 and leaves one item for each later split |
| Folds.RoundRatioNearest | l1l2py/tools.py:498 | the size is the integer nearest to remaining / splits; a tie goes to the even size (half to even) or to the larger size (half away from zero) |
| Folds.Sizes | l1l2py/tools.py:494-504 | the chunk sizes the loop cuts are `splits` in number and use up every remaining item (the last share is the whole remainder); with at least one item per split every size is at least 1 |
| Folds.ChunksTile | l1l2py/tools.py:494-504 | the generator yields exactly `splits` pairs inside [start, start + remaining]: the first starts at start, each starts where the previous one ends, the last ends at start + remaining; with remaining >= splits every chunk is non-empty |
| Folds.Dimensions | l1l2py/tools.py:490-504 | `_split_dimensions` yields numSplits pairs, all within [0, numItems] |
| Folds.DimensionsTile | l1l2py/tools.py:490-504 | the pairs start at 0, end at numItems and leave no gap; with numItems >= numSplits none is empty |
| Folds.SplitDimensions | l1l2py/tools.py:490-504 | the loop yields the pairs of Dimensions: numSplits of them, the first start is 0, the last end is numItems and the pairs are contiguous |
| Folds.Splits | l1l2py/tools.py:483-487 | `_splits` returns k folds |
| Folds.SplitsCoverEachFold | l1l2py/tools.py:483-487 | in every fold, train plus test is a reordering of the indexes; with k <= N every test set is non-empty |
| Folds.SplitsTestsConcat | l1l2py/tools.py:483-487 | the test sets of all folds, concatenated in order, give back the indexes |
| Folds.TwoEvenDimensions | l1l2py/tools.py:494-504 | an even number of items in two splits gives the halves (0, n/2) and (n/2, n) |
| Folds.TwoFoldsOfEven | l1l2py/tools.py:483-504 | two folds of an even-length list are its two halves, each the other's complement |
| Folds.KFoldSplits | l1l2py/tools.py:394-404 | ValueError exactly when k is outside [2, N]; otherwise k folds |
| Folds.KFoldPartition | l1l2py/tools.py:394-404 | each fold splits 0..N-1 into disjoint train and non-empty test sets, and the test sets together are a permutation of 0..N-1 |
| Folds.KFoldTwoFolds | l1l2py/tools.py:394-404 | with k = 2 and an even number of labels, the folds are the two halves of the shuffle, each the other's training set |
| Folds.KFoldDocExample | l1l2py/tools.py:385-391 | for N = 10 with the doctest's shuffle, k = 2 gives the two complementary folds of size 5, and k = 1 raises |
| Folds.Classes | l1l2py/tools.py:454-456 | np.unique yields two values exactly when the labels hold exactly two distinct values, and returns them in ascending order |
| Folds.Positions | l1l2py/tools.py:458-459 | every index np.where lists is a position of labels that holds the class |
| Folds.PositionsExact | l1l2py/tools.py:458-459 | np.where lists the positions in strictly increasing order and lists every position that holds the class |
| Folds.PositionsCover | l1l2py/tools.py:458-459 | for two-valued labels, the two index lists together are a permutation of 0..N-1 |
| Folds.ShuffledLengths | l1l2py/tools.py:465-471 | the shuffled class lists keep the lengths of the class index lists |
| Folds.Stratify | l1l2py/tools.py:474-478 | zip stops at the shorter list: one merged fold per pair of class folds |
| Folds.StratifiedKFoldSplits | l1l2py/tools.py:454-480 | ValueError when the labels do not hold exactly two classes, or when k is outside [2, min class size]; otherwise k folds, each the zip of the negative-class and positive-class folds |
| Folds.ZipFolds | l1l2py/tools.py:474-478 | the loop appends, per fold, the negative train + positive train and the negative test + positive test |
| Folds.StratifyConcatTests | l1l2py/tools.py:474-478 | the merged test sets hold exactly the test sets of both classes |
| Folds.MergedFoldPartition | l1l2py/tools.py:476-477 | merging a partition of each class gives a partition of all indexes, with train and test disjoint |
| Folds.StratifiedFoldsPartition | l1l2py/tools.py:458-480 | each stratified fold splits 0..N-1 into disjoint train and test sets |
| Folds.StratifiedTestsPartition | l1l2py/tools.py:458-480 | the stratified test sets together are a permutation of 0..N-1 |
| Folds.TwoStratifiedFoldsOfEven | l1l2py/tools.py:474-478 | two stratified folds of even-sized classes pair the halves of both classes, negative class first |
| Folds.StratifiedRangeRejected | l1l2py/tools.py:440-444 | labels 0..9 do not have exactly two classes, so the call raises |
| Folds.StratifiedDocClasses | l1l2py/tools.py:445-447 | six 1s and four -1s give classes (-1, 1), and the doctest's shuffles fit their index lists |
| Folds.StratifiedDocFolds | l1l2py/tools.py:445-447 | with those shuffles, k = 2 gives the documented folds ([8, 9, 5, 2, 1], [7, 6, 3, 0, 4]) and their swap |
| Metrics.AxisMeanOf | l1l2py/tools.py:133 | mean(axis=0) is the mean of a vector, or one mean per column of a matrix |
| Metrics.Subtract | l1l2py/tools.py:137 | matrix - mean keeps the kind of array and the number of samples, except when a one-entry vector is stretched against a per-column mean |
| Metrics.Center | l1l2py/tools.py:133-146 | shape mismatch of the optional matrix raises; an empty matrix has NaN means; otherwise the tuple holds the optional part exactly when given and the mean exactly when asked |
| Metrics.CenterZeroMean | l1l2py/tools.py:133-137 | every column of the centered matrix sums to zero |
| Metrics.AddMean | algorithms.py:50 | Yts + meanY keeps the kind of array, the number of samples and the width |
| Metrics.AddMeanUndoesSubtract | l1l2py/tools.py:137 | adding back the subtracted mean restores the array |
| Metrics.CenterRoundTrip | l1l2py/tools.py:139-146 | the returned mean is the column mean of matrix alone, and adding it back restores both matrix and optional_matrix |
| Metrics.CenterIdempotent | l1l2py/tools.py:133-137 | centering a centered matrix changes nothing and reports zero means |
| Metrics.CenterDocTwoRows | l1l2py/tools.py:114-130 | [[1,2,3],[4,5,6]] centers to rows of -1.5 and 1.5 with mean [2.5, 3.5, 4.5]; its first two columns as optional matrix raise a shape mismatch |
| Metrics.CenterDocOneRow | l1l2py/tools.py:121-123 | a one-row matrix centers to zeros with the row as mean |
| Metrics.CenterDocVector | l1l2py/tools.py:124-126 | [1, 2, 3] centers to [-1, 0, 1] with mean 2.0 |
| Metrics.StandardizeGuard | l1l2py/tools.py:211-212 | ValueError exactly for a two-dimensional matrix with one row |
| Metrics.StandardizeGuardMissesOneEntryVector | l1l2py/tools.py:211-214 | a one-entry vector passes the guard although the ddof = 1 divisor is 0 |
| Metrics.StandardizeGuardCorrected | l1l2py/tools.py:211-212 | the corrected guard rejects everything the original does, and more |
| Metrics.StandardizeGuardCorrectedDivisor | l1l2py/tools.py:211-214 | the corrected guard passes exactly the arrays whose ddof = 1 divisor is positive |
| Metrics.MismatchCount | l1l2py/tools.py:274-275 | the mismatch count is at most N; it is 0 exactly when every sign agrees and N exactly when every sign differs |
| Metrics.MismatchCountIsPositionCount | l1l2py/tools.py:274-275 | the count equals the number of positions that `difference.nonzero()` returns |
| Metrics.ClassificationError | l1l2py/tools.py:271-275 | empty labels raise ZeroDivisionError; otherwise the error lies in [0, 1], is 0 exactly without mismatches and 1 exactly when all signs differ |
| Metrics.ClassificationDocExamples | l1l2py/tools.py:259-268 | the doctest values 0, 1/3, 2/3, 1 and 2/3 for labels [1, 1, 1] |
| Metrics.DefaultWeights | l1l2py/tools.py:321-322 | the default weights are non-negative, one per label |
| Metrics.DefaultWeightsFromCenter | l1l2py/tools.py:321-322 | the default weights are the magnitudes of center(labels) |
| Metrics.WeightedErrors | l1l2py/tools.py:324 | a correctly signed prediction costs 0; with non-negative weights each error lies between 0 and its weight |
| Metrics.BalancedClassificationError | l1l2py/tools.py:318-325 | empty labels give NaN; with default weights the error is never negative |
| Metrics.UnitWeightsCount | l1l2py/tools.py:324-325 | with unit weights the weighted error sum is the mismatch count |
| Metrics.BalancedUnitWeights | l1l2py/tools.py:318-325 | all-ones error_weights turn the balanced error into classification_error |
| Metrics.BalancedSingleClass | l1l2py/tools.py:321-325 | labels of a single class give 0 with default weights, whatever the predictions |
| Metrics.BalancedNoMismatch | l1l2py/tools.py:324-325 | without mismatches the balanced error is 0 for any weights |
| Metrics.DocDefaultWeights | l1l2py/tools.py:321-322 | labels [-1, 1, 1] have mean 1/3 and weights [4/3, 2/3, 2/3] |
| Metrics.BalancedDocExamples | l1l2py/tools.py:303-314 | the doctest values 0, 0, 8/9, 4/9, 2/9, and 1/3 with unit weights |
| Metrics.SquaredErrors | l1l2py/tools.py:351-352 | each squared difference is non-negative and 0 exactly where prediction and label agree |
| Metrics.RegressionError | l1l2py/tools.py:348-352 | empty labels give NaN; otherwise the error is never negative and is 0 exactly when the predictions equal the labels |
| Metrics.SquaredErrorsVanish | l1l2py/tools.py:351-352 | the squared differences sum to a non-negative value, 0 exactly for equal vectors |
| LegacyTools.Differences | tools.py:305 | entry i is True exactly when the signs of label i and prediction i differ |
| Common.Masked | tools.py:306 | boolean indexing keeps at most every entry: all of them under an all-True mask, none under an all-False one |
| LegacyTools.SelfMaskAllTrue | tools.py:306 | difference[difference] keeps only True entries |
| LegacyTools.ClassificationError | tools.py:305-306 | empty labels raise ZeroDivisionError |
| LegacyTools.SelfMaskCountsMismatches | tools.py:305-306 | difference[difference] has as many entries as there are sign mismatches |
| LegacyTools.ClassificationErrorAgrees | tools.py:254-306 | the legacy classification error equals the newer one on every input, so it lies in [0, 1] |
| LegacyTools.ClassificationDocExamples | tools.py:293-302 | the doctest values 0, 1/3, 2/3, 1 and 2/3 |
| LegacyTools.BalancedClassificationError | tools.py:365-368 | empty labels give NaN |
| LegacyTools.BalancedAgrees | tools.py:338-368 | the legacy balanced error, with factors from center, equals the newer one with default weights |
| LegacyTools.BalancedSingleClass | tools.py:346-349 | labels of a single class always give 0 |
| LegacyTools.BalancedDocExamples | tools.py:353-362 | the doctest values 0, 0, 8/9, 4/9 and 2/9 |
| LegacyTools.RegressionError | tools.py:405-406 | empty labels give NaN |
| LegacyTools.Dot | tools.py:406 | the dot product of a vector with itself is never negative |
| LegacyTools.DotSelf | tools.py:406 | np.dot(d, d) is the sum of the squares of the entries of d |
| LegacyTools.DotIsSquaredErrorSum | tools.py:396-406 | np.dot(difference, difference) is the sum of the squared differences |
| LegacyTools.RegressionErrorAgrees | tools.py:396-406 | the legacy regression error equals the newer one, so it is non-negative and 0 exactly for equal vectors |
| LegacyTools.CenterDocExamples | tools.py:226-235 | the doctests of center: the 2 x 3 matrix with and without its mean, and the vector [1, 2, 3] |
| Algorithms.SoftThresholding | algorithms.py:132-135 | the two array passes produce, entry by entry, 0 where abs(x) < th/2 and x - sign(x) * th/2 elsewhere |
| Algorithms.ShrinkZeroThreshold | algorithms.py:132-135 | a zero threshold is the identity |
| Algorithms.ShrinkProperties | algorithms.py:133-134 | for th >= 0 no entry grows in magnitude or changes sign, and an entry becomes 0 exactly when abs(x) <= th/2 |
| Algorithms.PredictionError | algorithms.py:122-130 | an unknown experiment type raises RuntimeError; an empty classification raises ZeroDivisionError; an empty regression gives NaN |
| Algorithms.MaskedCount | algorithms.py:124-125 | labels[difference] has as many entries as difference[difference]: the size depends on the mask alone |
| Algorithms.PredictionErrorMatchesMetrics | algorithms.py:122-128 | the classification branch is classification_error and the regression branch (norm squared over N) is regression_error |
| Algorithms.WithinTolerance | algorithms.py:175-176 | the test is relative: passing it keeps every zero coefficient at zero, and an unchanged model always passes |
| Algorithms.Update | algorithms.py:170-171 | the soft-thresholded step never grows a coefficient or flips its sign, and zeroes exactly those within tau_s/2 of 0 |
| Algorithms.IterateFixedPoint | algorithms.py:179-180 | iterating from a fixed point of the update stays at that point |
| Algorithms.FixedPointStopsAtKMin | algorithms.py:172-181 | from a fixed point log is latched by the first iteration, so the loop stops at exactly kmin = 100 iterations |
| Algorithms.ConvergedWitness | algorithms.py:172-176 | log is False before iteration k exactly when some earlier iteration found every change within tol / (j + 1) of the coefficient |
| Algorithms.ConvergedStays | algorithms.py:172-176 | once log is False it stays False |
| Algorithms.ElasticNetLoop | algorithms.py:163-183 | k >= 100 and k <= max(100, ceil(kmax)); the result is the (k+1)-th iterate; the loop stops because k reached kmax or log was latched, and no earlier k >= 100 met either condition |
| Algorithms.NonZeros | algorithms.py:114 | the sparsity is at most the model's length |
| Algorithms.PrependKeepsAlignment | algorithms.py:107-115 | appendleft of the model for the next tau from the end keeps every entry aligned with its tau |
| Algorithms.RegularizationPath | algorithms.py:105-117 | the loop builds min(cap, L) models; entry j is the model for tau_range[L - min(cap, L) + j], warm-started from entry j + 1 or from beta_ls, or beta_ls itself when mu is 0 and the previously computed model (none, giving sparsity 0, for the last entry) has at least n non-zeros |
| Algorithms.PathEntry | algorithms.py:109-112 | a model is either beta_ls or the warm-started solve, and it is the solve whenever mu is not 0 or the sparsity is below n |
| Algorithms.PathEntryCases | algorithms.py:109-113 | an entry is beta_ls when mu is 0 and the previous model has at least n non-zeros, and otherwise the solve warm-started from that model |
| Algorithms.StageIa | algorithms.py:98-117 | the path has min(10, L) entries aligned to the last taus; the first model computed is never the shortcut when X has rows, and is solved from beta_ls for tau_range[L - 1] |
| Algorithms.CappedPathMisaligned | algorithms.py:107 | with L > 10 taus the path has 10 entries, and entry j was solved for tau_range[L - 10 + j] |
| Algorithms.StageIaAligned | algorithms.py:105-117 | without the cap the path has one entry per tau, and entry j is the model for tau_range[j] |
| Algorithms.FoldMean | algorithms.py:61 | err_ts.mean(axis=0) is a taus x lambdas grid |
| Algorithms.FoldMeanOfCopies | algorithms.py:61 | folds that all hold the same grid average to that grid |
| Algorithms.ArgMin | algorithms.py:64 | the index of the first minimum of a non-empty vector |
| Algorithms.GridArgMin | algorithms.py:64 | the first row-major position of the grid minimum: no entry is smaller, and every earlier entry is larger |
| Algorithms.FirstMinimumUnique | algorithms.py:64 | the first minimum position is unique |
| Algorithms.StageISelect | algorithms.py:61-66 | an empty grid raises; no folds leaves only NaN, so indexing the empty np.where result raises; otherwise tau_opt and lambda_opt are read at the first minimum of the fold-mean test error |

## Left out

- `ridge_regression` (`np.linalg.pinv`), `_get_sigma` (SVD and spectral norm) and the numeric update inside `elastic_net` (matrix products, `mu_s`, `tau_s`): this is floating-point linear algebra. The solver enters `stage_Ia` as a function parameter, and the gradient step enters `elastic_net` as a function parameter. The soft thresholding applied to the step is modelled.
- Floating-point rounding: all arithmetic is exact real arithmetic, so the doctest values are the exact fractions (8/9 rather than 0.88888888888888895).
- `standardize` beyond its guard: the division by `std` needs a square root.
- `geometric_range` and `linear_range`: float powers and `np.linspace`.
- The global random generator of `kfold_splits` and `stratified_kfold_splits` (`random.seed`, `random.shuffle`): the shuffled index lists are inputs. The doctests' outputs are checked with the shuffles that produce them.
- `kfold_splits` and `stratified_kfold_splits` of tools.py: they call the `mlpy` library, which is not part of this model.
- In `stage_I`:
  - the printing and the call to `tools.kcv_indexes` (a function not present in these files) are left out;
  - the nested loops that fill `err_ts` and `err_tr` (standardize, ridge solves, predictions) are left out;
  - the error grids are inputs to `Algorithms.StageISelect`;
  - `center_Y` is taken as True, since `meanY` is otherwise unbound.
- `stage_II`: it only calls the numeric solvers, its loop is `pass`, and it returns None.
- setup.py: packaging.
- Algorithms.ElasticNetLoop: `kmax` is a finite real. With the default `kmax = inf` the loop ends only if the tolerance test succeeds, which the abstract step cannot promise. The `beta is None` start from `ridge_regression` is not modelled, because `stage_Ia` always passes a warm start.
- Algorithms.ElasticNetLoop: when the step changes the model's length, the tolerance test is taken as failing; numpy would raise instead. The real step never changes the length.
- Metrics.Center: an empty matrix gives `Err(NotANumber)`. numpy instead returns an empty centered array and a NaN mean.
- Metrics.Subtract: the number of samples is not stated when a one-entry vector is stretched against a per-column mean.
- Every error function requires labels and predictions of equal length (their documented shape (N,)). numpy's broadcasting of other shapes is not modelled.
- `np.sign` of NaN and other non-finite floats is not modelled.

## Findings

| source | as written | input that shows it | evidently intended | confidence | as-written member | corrected member |
|---|---|---|---|---|---|---|
| algorithms.py:107 | `zip(reversed(xrange(10)), tau_range[::-1])` computes at most 10 models, for the last 10 taus. `stage_I` (algorithms.py:64-65) reads path entry j as the model of `tau_range[j]`, and never fills `err_ts` rows 10 .. L - 1 | any `tau_range` of 11 values: entry 0 was solved for `tau_range[1]` | one model per tau, so that entry j belongs to `tau_range[j]` | high, not executed | Algorithms.CappedPathMisaligned | Algorithms.StageIaAligned |
| l1l2py/tools.py:211-212 | the guard tests `matrix.ndim == 2`, so only a two-dimensional matrix with one row is rejected | the vector [5.0]: it passes the guard, and `std(axis=0, ddof=1)` divides by 1 - 1 = 0 | reject every input with fewer than two samples, as the error message says; a vector is standardized as one column | medium, not executed | Metrics.StandardizeGuardMissesOneEntryVector | Metrics.StandardizeGuardCorrected |
