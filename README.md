# Feature-importance statistics of AutoMLPipe-MC, modelled in Dafny

After a multi-class run, AutoMLPipe-MC's statistics job (`StatsJobMC.py`)
gathers the per-fold results of every modelling algorithm. This project
models the numerical and list-processing core of that job:

- **Decoding** (`AlgorithmDecode`): the seven-character '0'/'1' mask becomes the
  list of algorithms that were run.
- **Reconciliation** (`Reconciliation`): each fold's feature importances are
  indexed by the fold's own test-file header. They are moved onto the
  original feature order, with 0 for a feature the fold dropped, then summed
  and averaged over the folds.
- **Aggregate average precision** (`AveragePrecision`): the per-fold precision
  figure computed from the confusion matrix.
- **Normalisation and union** (`Normalization`, `NonZeroUnion`): each
  algorithm's average importances are divided by their maximum, with
  non-positive scores clamped to 0. The features some algorithm scored above
  zero are collected into one union.
- **Selection** (`TopSelection`): when there are more features than the
  display allows, features are ranked by their performance-weighted score
  summed over algorithms. Ties keep their union order, as Python's stable
  sort does. The top `top_results` are kept.
- **Display slices** (`DisplaySlices`): the selected features' scores per
  algorithm, in selection order or in original order.
- **Transformations** (`Transforms`): fractionation (scores rescaled to sum to
  1), performance weighting (scaling by the chance-corrected balanced
  accuracy), and the two combined.
- **Bar stacking** (`Stacking`): the base of each algorithm's bar in the
  composite plot.
- **Pairwise tables** (`Pairwise`): the pair loops of the Wilcoxon and
  Mann-Whitney reports. The statistical test is a parameter.

Importances and metrics are `real`. Lists are `seq`. A Python exception raised
on external input is an `Option` or an outcome datatype:

- an unknown label in `list.remove`
- a mask shorter than seven characters
- a division by zero
- numpy's casting error when a float row is added in place into an integer array

Three Python objects that the source updates in place keep that form in the
model:

- The per-algorithm `FI_ave` accumulator is a class with an array field.
- `weightFI`'s metric list is an `array` the method modifies.
- The plot's running `bottom` is a fresh array per algorithm.

## Model

| member | source | states |
|---|---|---|
| AlgorithmDecode.Decode | StatsJobMC.py:117-121 | one `decode` step: the list so far is kept and the algorithm at `index` is appended exactly when the mask character there is '1' (the DecodeUpTo lemmas state what repeated steps give) |
| AlgorithmDecode.DecodeUpTo | StatsJobMC.py:105-111 | the first n of the job's sequential `decode` calls, starting from the empty list |
| AlgorithmDecode.DecodeAlgorithms | StatsJobMC.py:103-111 | the seven `decode` calls over the fixed algorithm list; a mask shorter than seven characters makes a call index past its end, which is the None outcome (DecodeAlgorithmsSelects states the result) |
| AlgorithmDecode.PossibleAlgosDistinct | StatsJobMC.py:104 | the seven algorithm names the mask can select are distinct |
| AlgorithmDecode.DecodeUpToLength | StatsJobMC.py:117-121 | after n decode steps the list has one entry per '1' among the first n mask characters |
| AlgorithmDecode.DecodeUpToMembers | StatsJobMC.py:117-121 | an algorithm is in the list exactly when the mask character at its position, among the first n, is '1' |
| AlgorithmDecode.DecodeUpToOrdered | StatsJobMC.py:117-121 | the list keeps the order of the fixed algorithm list and draws only from its first n names |
| AlgorithmDecode.DecodeUpToSelects | StatsJobMC.py:117-121 | after n decode steps the list holds exactly the algorithms whose mask character among the first n is '1', as many as there are '1's, in mask order |
| AlgorithmDecode.DecodeAlgorithmsSelects | StatsJobMC.py:103-111 | a mask shorter than seven characters fails; otherwise the result is distinct and holds exactly the selected algorithms, in the fixed order |
| AlgorithmDecode.DecodeExample | StatsJobMC.py:103-111 | the mask "1010000" decodes to Naive Bayes and Random Forest |
| Reconciliation.Without | StatsJobMC.py:176-177 | reference definition of removing a name: the list with its first occurrence cut out and every other entry in its order |
| Reconciliation.RemoveFirst | StatsJobMC.py:175-177 | `list.remove` fails exactly when the label is absent; otherwise it removes one entry and keeps every other name |
| Reconciliation.RemoveFirstIsWithout | StatsJobMC.py:176-177 | for a name that is present, `list.remove` gives exactly Without: the first occurrence cut out, the other entries in their order |
| Reconciliation.StripLabels | StatsJobMC.py:175-177 | a missing class label, or a missing instance label other than "None", fails; otherwise the header loses one or two columns and keeps every feature name |
| Reconciliation.StripLabelsKeepsOrder | StatsJobMC.py:175-177 | when both removals succeed, the stripped header is the fold's header with the first instance-ID entry (unless the label is "None") and then the first class entry cut out, the feature columns keeping their order, so position p of the fold's scores belongs to the p-th remaining name |
| Reconciliation.ReconciledRow | StatsJobMC.py:178-186 | one fold's row in original feature order: the fold's score of each original feature, read at that name's first position in the stripped header, or 0 for a feature the fold dropped (ReconcileIdentity, ReconcileByName and AbsentFeatureAveragesZero state its properties) |
| Reconciliation.ReconcileIdentity | StatsJobMC.py:178-186 | a fold that kept every feature, in original order, is reconciled to its own scores |
| Reconciliation.ReconcileByName | StatsJobMC.py:178-186 | each fold feature's score lands at that feature's position in the original order |
| Reconciliation.AlgorithmImportances.constructor | StatsJobMC.py:136-137 | FI_all starts empty and FI_ave starts as one 0 per original feature |
| Reconciliation.AlgorithmImportances.AddFold | StatsJobMC.py:178-187 | one reconciled row is appended to FI_all and added into FI_ave, keeping FI_ave equal to the column sums of FI_all |
| Reconciliation.AlgorithmImportances.Average | StatsJobMC.py:204-205 | each sum is divided by cv_partitions; with one row per fold this is the column mean of FI_all |
| Reconciliation.ReconcileFolds | StatsJobMC.py:141-205 | the fold loop fails exactly when some fold's header lacks a label; otherwise the rows are the reconciled folds and the averages are their column means |
| Reconciliation.AbsentFeatureAveragesZero | StatsJobMC.py:178-186 | a feature that no fold kept averages to 0 |
| Reconciliation.ThreeFoldExample | StatsJobMC.py:141-205 | three folds that dropped different features give the expected rows and averages |
| Reconciliation.ThreeFoldMean | StatsJobMC.py:204-205 | the averages of the three reconciled folds of the example are 0.2, 0.2/3 and 0.3 |
| AveragePrecision.AggregatePrecision | StatsJobMC.py:155-162 | the figure as written: the sum over classes of conf[c][c] divided by the total of column 0, divided by the class count; an empty matrix is a zero division and a zero column-0 total a non-finite value |
| AveragePrecision.ComputeAggregatePrecision | StatsJobMC.py:155-162 | the two loops compute the sum over classes of conf[c][c] divided by the first column's total, divided by the class count; an empty matrix is a zero division, a zero first column a non-finite value |
| AveragePrecision.AggregatePrecisionCanExceedOne | StatsJobMC.py:155-162 | as written, the figure for the matrix [[1,0],[0,9]] is 5 |
| AveragePrecision.MacroPrecision | StatsJobMC.py:155-162 | the corrected figure: the mean over classes of conf[c][c] divided by the total of column c, with the same zero-division and non-finite outcomes |
| AveragePrecision.MacroPrecisionInUnitRange | StatsJobMC.py:155-162 | the per-class (macro) precision of a non-negative square matrix lies in [0, 1] |
| Normalization.Normalize | StatsJobMC.py:413-421 | one algorithm's normalised list: 0 for a score at or below 0, the score divided by the list's maximum otherwise (the Normalize lemmas below state its properties) |
| Normalization.NormalizeInUnitRange | StatsJobMC.py:413-422 | normalisation keeps the length, sends non-positive scores to 0 and positive ones to their ratio to the maximum, all in [0, 1] |
| Normalization.NormalizeMaxIsOne | StatsJobMC.py:413-422 | with some positive score, the largest scores become 1 and 1 is the new maximum |
| Normalization.NormalizeNoPositive | StatsJobMC.py:413-422 | with no positive score, every normalised score is 0 |
| Normalization.NormalizeIdempotent | StatsJobMC.py:413-422 | normalising twice is the same as normalising once |
| NonZeroUnion.PositiveNames | StatsJobMC.py:423-430 | a name is in an algorithm's non-zero list exactly when its average is above 0 |
| NonZeroUnion.PositiveNamesDistinct | StatsJobMC.py:423-430 | over distinct feature names the non-zero list is distinct |
| NonZeroUnion.NonZeroSetExtend | StatsJobMC.py:432-433 | each union step adds exactly the next algorithm's non-zero names |
| NonZeroUnion.ListOfSet | StatsJobMC.py:433 | `list(set(...))` holds each member of the set once, in unspecified order |
| NonZeroUnion.UnionStep | StatsJobMC.py:433 | one union step lists every name of either list, once each |
| NonZeroUnion.UnionLists | StatsJobMC.py:429-433 | the fold over the non-zero lists holds exactly the features some algorithm scored above 0, each once when there are several algorithms; with one algorithm it is that algorithm's list |
| NonZeroUnion.FirstPositions | StatsJobMC.py:434-436 | each index is the first position of its feature in the full list |
| NonZeroUnion.UnionFeatures | StatsJobMC.py:423-436 | the union holds exactly the features some algorithm scored above 0; with one algorithm it is that algorithm's list in original order; the indexes are each feature's position in the full list |
| TopSelection.Weight | StatsJobMC.py:453-457 | the chance-corrected weight is 0 at or below 0.5 accuracy, at most 1 for accuracy at most 1, and exactly 1 at 1 |
| TopSelection.WeightMonotonic | StatsJobMC.py:453-457 | a higher accuracy never earns a smaller weight |
| TopSelection.Score | StatsJobMC.py:446-463 | a feature's dictionary value after the first n algorithms: the normalised scores in its column, each times its algorithm's weight, added up |
| TopSelection.ScoreOfUnimportant | StatsJobMC.py:446-463 | a feature every algorithm scores 0 gets a summed score of 0 |
| TopSelection.ScoreSums | StatsJobMC.py:446-463 | with at least one algorithm, the score dictionary has exactly the union features as keys, each mapped to its performance-weighted normalised score summed over the algorithms; with none it stays empty |
| TopSelection.Scores | StatsJobMC.py:446-463 | the dictionary's values listed in union order, the scores the sort ranks |
| TopSelection.RankFrom | StatsJobMC.py:466 | `sorted(..., reverse=True)` as an insertion sort of the union positions; it holds every position once (RankFromRanked states the order) |
| TopSelection.ScoreBounds | StatsJobMC.py:446-463 | the summed weighted score of a feature lies between 0 and the number of algorithms |
| TopSelection.RankFromRanked | StatsJobMC.py:466 | the ranking lists the features by descending score, with ties in union order |
| TopSelection.SelectForViz | StatsJobMC.py:439-470 | every feature is kept when there are at most top_results; otherwise the result is top_results distinct features, none outranked by an omitted one, listed by descending score with ties in union order; with no algorithms the empty dictionary gives an empty selection |
| TopSelection.TopKOfRanking | StatsJobMC.py:466-467 | the first k entries of a stable descending ranking form a top-k selection |
| DisplaySlices.SortedSlice | StatsJobMC.py:510-527 | `getFI_To_Viz_Sorted`: each algorithm's normalised scores at the selected names' first positions in the full list, in selection order, and the selected names themselves |
| DisplaySlices.OriginalOrderSlice | StatsJobMC.py:489-508 | `getFI_To_Viz`: each algorithm's scores at the positions whose index is selected, and the names of the full list that are selected, both in full-list order |
| DisplaySlices.SortedSliceByName | StatsJobMC.py:510-527 | the sorted slice names the selected features in selection order, and each algorithm's row holds its normalised score for exactly those features |
| DisplaySlices.OriginalOrderNames | StatsJobMC.py:503-507 | the original-order names are the selected features, once each, in full-list order |
| DisplaySlices.OriginalOrderRows | StatsJobMC.py:489-502 | each algorithm's original-order row pairs every shown name with that feature's normalised score |
| DisplaySlices.SlicesAgree | StatsJobMC.py:489-527 | a feature gets the same score from an algorithm in both slices |
| Transforms.FracRow | StatsJobMC.py:578-585 | one algorithm's fractions: each score divided by the row's total, or 0 throughout when the total is 0 |
| Transforms.FracFI | StatsJobMC.py:571-586 | every algorithm's scores are divided by their total, or all set to 0 when the total is 0 |
| Transforms.FracRowSumsToOne | StatsJobMC.py:571-586 | a fractionated row with a nonzero total sums to 1 |
| Transforms.FracRowOfZeroTotal | StatsJobMC.py:581-582 | an algorithm whose scores total 0 contributes only zero fractions |
| Transforms.FracRowInUnitRange | StatsJobMC.py:571-586 | fractions of non-negative scores lie in [0, 1] |
| Transforms.FracRowScaleInvariant | StatsJobMC.py:571-586 | fractionation ignores a positive rescaling of the scores |
| Transforms.WeightFI | StatsJobMC.py:588-607 | accuracies at or below 0.5 are overwritten with 0 in the caller's list; each weight is the chance-corrected accuracy; each row is scaled by its weight |
| Transforms.WeightFracFI | StatsJobMC.py:609-615 | each fractionated row is scaled by its algorithm's weight |
| Transforms.BelowChanceVanishes | StatsJobMC.py:593-599 | an algorithm no better than chance contributes only zero bars |
| Transforms.PerfectUnchanged | StatsJobMC.py:600-601 | an algorithm of accuracy 1 has its scores shown unchanged |
| Transforms.WeightedFracArea | StatsJobMC.py:609-615 | in the fractionated and weighted plot, an algorithm's total bar area is its weight, or 0 when its scores total 0 |
| Transforms.WeightsExample | StatsJobMC.py:588-607 | accuracies 0.9 and 0.4 leave the list as 0.9 and 0 and give weights 0.8 and 0 |
| Stacking.Top | StatsJobMC.py:543-550 | the top of algorithm i's bar: the scores of algorithms 0..i added feature by feature |
| Stacking.CastFails | StatsJobMC.py:547-549 | numpy refuses the in-place add exactly when the first algorithm's array holds integers and a later added row holds floats |
| Stacking.AddInto | StatsJobMC.py:549 | `bottom += row` adds the row element-wise in place |
| Stacking.Bottoms | StatsJobMC.py:543-550 | the loop raises numpy's casting error exactly when CastFails holds; otherwise it gives one base per algorithm after the first, base i being the element-wise sum of the scores of algorithms 0..i |
| Stacking.IntegerFirstRowFails | StatsJobMC.py:543-549 | a first row held as integers under two float rows makes the loop raise with three algorithms |
| Stacking.FloatFirstRowNeverFails | StatsJobMC.py:543-549 | a float first row, or at most two algorithms, never raises |
| Stacking.TopStep | StatsJobMC.py:543-556 | bars are contiguous: each base is the previous base plus the previous algorithm's scores |
| Stacking.TopsRise | StatsJobMC.py:543-550 | with non-negative scores each base is no lower than the one before |
| Stacking.LastTopIsTotal | StatsJobMC.py:543-556 | the top of the last bar is the feature's total over all algorithms |
| Pairwise.MakeRow | StatsJobMC.py:345-355 | the row for one pair: the ('NA', 1) sentinel when all scores of both algorithms are equal, the test's statistic and p-value otherwise, and the '*' flag when the p-value is below the cutoff |
| Pairwise.ComparePair | StatsJobMC.py:345-355 | the body of the pair loop, assigning `report` and then the flag, produces exactly MakeRow |
| Pairwise.Pairs | StatsJobMC.py:339-341 | the index pairs (i, j) with i < j that the two nested loops visit, row by row (AllPairsOnce states which) |
| Pairwise.Table | StatsJobMC.py:339-356 | the rows `wilcoxon_stats` holds after a list of visited pairs: MakeRow for each, in visiting order |
| Pairwise.MakeRowFlags | StatsJobMC.py:345-355 | a row is starred exactly when its p-value is below the cutoff; equal scores give the ('NA', 1) sentinel whatever the test, which is not run |
| Pairwise.PairwiseTable | StatsJobMC.py:339-356 | the done-list loop writes one row per visited pair, in loop order |
| Pairwise.ScanRow | StatsJobMC.py:340-356 | one pass of the inner loop extends the done list and the table by exactly the pairs (i, j) with i < j, in column order |
| Pairwise.GuardIsOrder | StatsJobMC.py:341-342 | the done test lets the pair at row i and column j through exactly when i < j |
| Pairwise.AllPairsOnce | StatsJobMC.py:339-356 | the visited pairs are exactly the pairs i < j, each once, n(n-1)/2 of them |
| Pairwise.TableLength | StatsJobMC.py:370-387 | a table over n algorithms has n(n-1)/2 rows |
| Pairwise.TableHasPair | StatsJobMC.py:370-387 | every pair of distinct algorithms has a row, with the earlier-listed algorithm first |
| Pairwise.TableRowOrder | StatsJobMC.py:370-387 | every row's first algorithm is listed before its second |
| Pairwise.TableRowsDistinct | StatsJobMC.py:370-387 | no pair of algorithms has two rows |
| Pairwise.PairwiseReports | StatsJobMC.py:335-336 | a table is produced exactly for the metrics the Kruskal-Wallis summary starred |

## Left out

- File and plot I/O is not modelled. This covers the pickles, CSV headers, CSV exports, figures and `eval` of the command-line flags. The values read from files are parameters.
- The scipy tests `kruskal`, `wilcoxon` and `mannwhitneyu` are not modelled. The two pairwise tests are an abstract `Test` parameter, so the Wilcoxon and Mann-Whitney loops share one model. The Kruskal-Wallis test and its exception fallback appear only as the set of starred metrics.
- Means and standard deviations of the metric lists are not modelled. They are library numerics that feed only the saved summaries and the accuracy each algorithm is weighted by.
- Floating point is not modelled. All arithmetic is exact `real`, so sums-to-1 and maximum-is-1 hold exactly.
- NonZeroUnion.UnionFeatures: the order of a multi-algorithm union is left unspecified, because it is Python's hash-dependent set order. Distinctness and membership are proved. The selection and display stages take the union order as given.
- Reconciliation.AlgorithmImportances.Average: requires cv_partitions > 0 whenever there are features. With cv_partitions = 0, Python raises on the division; this path is not modelled.
- DisplaySlices.SortedSlice: requires every selected name to be in the full feature list. In the job the names always come from that list, so `list.index` never raises.
- TopSelection.SelectForViz: requires distinct union features. The union is distinct with several algorithms; with one it is distinct because the feature names are, pandas making CSV column names unique.
- Stacking.Bottoms: requires every algorithm's list to have the same length. numpy's broadcasting of unequal lengths is not modelled.
- Stacking.Bottoms: the element type numpy gives each algorithm's array is a parameter. The model does not derive it from the int 0 that normalisation (StatsJobMC.py:418) and fractionation (StatsJobMC.py:582) append.
- The runtime report (`saveRuntime`, `parseRuntime`) and the mean-AUC bar plot are not modelled; they are outside the feature-importance core.

## Findings

| source | as written | input that shows it | evidently intended | confidence | as-written member | corrected member |
|---|---|---|---|---|---|---|
| StatsJobMC.py:155-162 | each class's diagonal count is divided by the sum of column 0 of the confusion matrix, one denominator shared by every class | conf = [[1,0],[0,9]] gives (1/1 + 9/1)/2 = 5 | the mean over classes of conf[c][c] divided by the total of column c, which lies in [0, 1] | medium, not executed | AveragePrecision.AggregatePrecisionCanExceedOne | AveragePrecision.MacroPrecisionInUnitRange |
