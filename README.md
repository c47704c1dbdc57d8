# Dip-test cluster merging, modelled in Dafny

This project models the cluster-merging core of scUNC (`scUNC/utils.py`):

- **Hartigan's dip test front end.** `dip` checks its input and applies the guard for small or constant samples. `dip_pval` turns a dip into a p-value for n points using the dip test's table of critical values (`dip_table_values`). `dip_test` combines the two.
- **`get_dip_matrix`.** For every pair of clusters it computes the dip-test p-value of the two clusters' points projected onto the line through their centers. When one cluster is more than `factor` times the size of the other, it takes the smaller of that p-value and the p-value of a rebalanced sample. The rebalanced sample replaces the larger cluster by its points nearest to the other center (`get_nearest_points`).
- **`merge_by_dip_value`.** Clusters a and b become cluster n − 1 and the other labels close up in their old order. The two center rows are removed, and the data point nearest to the size-weighted mean of the two old embedded centers becomes the new center (`get_nearest_points_to_optimal_centers`). Then the p-value matrix is recomputed.

Modules:

| file | module | contents |
|---|---|---|
| `sorting.dfy` | `Sorting` | `np.sort` as insertion sort; the argsort contract and one index sort meeting it |
| `interp.dfy` | `Interpolation` | `np.interp` with clamping; range and monotonicity |
| `dip_pvalue.dfy` | `DipPValue` | `dip_pval` over any critical-value table; the facts proved once for every well-formed table |
| `dip_table.dfy` | `DipTable` | the dip test's 21 breakpoints, 26 levels and 21 × 26 critical values; the table is well-formed |
| `dip_statistic.dfy` | `DipStatistic` | `dip`, `dip_test`, and `dip_pval` on the dip test's table |
| `points.dfy` | `Points` | rows, centers, projection, distances, and the boolean-mask selection `data[labels == c]` |
| `cluster_sampler.dfy` | `ClusterSampler` | `get_nearest_points` |
| `dip_matrix.dfy` | `DipMatrix` | `get_dip_matrix`: the matrix as a function and the nested loop as methods over an `array2` |
| `cluster_merger.dfy` | `ClusterMerger` | `merge_by_dip_value`: the relabelling loop in place over an `array`, center deletion, and the new center |

Numerical routines the core calls into are parameters of the model:

- the square root;
- the compiled dip routine (`diptst`);
- `cdist`'s metric;
- numpy's `argsort`, described by what it promises.

In `DipMatrix` they travel together as the `Routines` datatype.

## Model

| member | source | states |
|---|---|---|
| Sorting.Sort | scUNC/utils.py:359-360 | `np.sort`: the result ascends, is a permutation of the input and has its length |
| Sorting.SortPermutationInvariant | scUNC/utils.py:359-360 | inputs with the same multiset of values sort to the same sequence |
| Sorting.SortOfSorted | scUNC/utils.py:359-360 | sorting data that already ascends leaves it unchanged |
| Sorting.ArgSort | scUNC/utils.py:120 | an index order that lists every index exactly once and ascends by key, which is what `np.argsort` returns |
| Interpolation.Segment | scUNC/utils.py:195 | the segment of `np.interp` that holds x: xp[j] <= x < xp[j+1] |
| Interpolation.Interp | scUNC/utils.py:195 | `np.interp` clamps: left of the first breakpoint it gives the first value, at or past the last breakpoint the last value; between them it is the linear interpolation on the segment that holds x (range and monotonicity in InterpWithinEnds and InterpMonotone) |
| Interpolation.SegmentUnique | scUNC/utils.py:195 | on ascending breakpoints, that segment is the only one that holds x |
| Interpolation.InterpWithinEnds | scUNC/utils.py:195 | with ascending values, `np.interp` stays between the first and the last value |
| Interpolation.InterpMonotone | scUNC/utils.py:195 | with ascending breakpoints and values, `np.interp` is non-decreasing in x |
| DipPValue.SearchSortedLeft | scUNC/utils.py:182 | `searchsorted(side='left')`: every breakpoint before the position is below n, and every one from it on is at least n |
| DipPValue.Bracket | scUNC/utils.py:182-188 | the two bracketing rows are consecutive and enclose n when n is inside the table. Past the last breakpoint they are the top two rows. Up to the first breakpoint both are row 0 |
| DipPValue.SmallSampleBracketDegenerate | scUNC/utils.py:182-191 | up to the first breakpoint the two bracket sizes coincide, so the blend fraction divides by zero |
| DipPValue.FractionInUnitInterval | scUNC/utils.py:191 | inside the table the blend fraction lies in (0, 1] |
| DipPValue.CurveSorted | scUNC/utils.py:190-195 | inside the table the blended critical curve ascends along the levels |
| DipPValue.PValue | scUNC/utils.py:180-196 | one minus the level the scaled dip sqrt(n)·dip reaches on the blended curve: 1 - sig[0] below the curve, 1 - the last level at or above its top (range, monotonicity and zero dip in the three lemmas below) |
| DipPValue.PValueInUnitInterval | scUNC/utils.py:180-196 | on a well-formed table every p-value lies in [0, 1], for every dip and every size above the first breakpoint |
| DipPValue.PValueNonIncreasing | scUNC/utils.py:180-196 | inside a well-formed table a larger dip never has a larger p-value |
| DipPValue.ZeroDipPValueIsOne | scUNC/utils.py:180-196 | inside a well-formed table a zero dip has p-value exactly 1 |
| DipTable.TableShaped | scUNC/utils.py:199-347 | 21 strictly ascending breakpoints from 4 to 72000, with 26 critical values per row |
| DipTable.TableWellFormed | scUNC/utils.py:199-347 | the dip test's table is well-formed: levels from 0 to 1 ascend, and every row is positive and ascends |
| DipStatistic.DipPVal | scUNC/utils.py:180-196 | `dip_pval` on the dip test's table, for more than 4 points: always a probability |
| DipStatistic.DipPValNonIncreasing | scUNC/utils.py:180-196 | for 5 to 72000 points, `dip_pval` does not increase with the dip |
| DipStatistic.ZeroDipPValIsOne | scUNC/utils.py:180-196 | for 5 to 72000 points, a zero dip has p-value 1 |
| DipStatistic.DipBracket | scUNC/utils.py:182-188 | on the dip test's table, the rows blended for n points: (0, 0) up to 4 points, two consecutive rows enclosing n up to 72000, and rows 19 and 20 beyond |
| DipStatistic.Dip | scUNC/utils.py:355-363 | `dip` fails exactly when the sample is not one-dimensional |
| DipStatistic.Prepared | scUNC/utils.py:359-360 | the data handed on is a permutation of the input. It is the input itself when flagged sorted, and ascending otherwise |
| DipStatistic.DipOrderIndependent | scUNC/utils.py:359-363 | without the sorted flag the dip depends only on the multiset of the data |
| DipStatistic.DipSortedFlagAgrees | scUNC/utils.py:359-360 | on data that already ascends, the sorted flag does not change the dip |
| DipStatistic.DipGuard | scUNC/utils.py:361-363 | fewer than 4 points or a constant sample give dip 0.0 |
| DipStatistic.DipCallsRoutine | scUNC/utils.py:381-384 | past the guard the dip is the compiled routine's value on the prepared data |
| DipStatistic.DipTest | scUNC/utils.py:349-353 | `dip_test` fails exactly when `dip` fails. Otherwise it returns the dip and `dip_pval` of it for X.shape[0] points, a probability |
| DipStatistic.ConstantSampleNotSeparated | scUNC/utils.py:349-363 | a constant sample of 5 to 72000 points has dip 0 and p-value 1 |
| Points.Distances | scUNC/utils.py:119 | `cdist(points, [center])`: entry k is the distance of row k to the center |
| Points.Sub | scUNC/utils.py:472 | `dip_centers[i] - dip_centers[j]`: a vector of the same width which, added to the second center, gives back the first |
| Points.Project | scUNC/utils.py:476 | `np.dot(points, center_diff)`: one value per row, the dot product of that row with the direction |
| Points.Count | scUNC/utils.py:427-428 | `len(labels[labels == c])`: at most the number of labels (exactly the multiplicity of c, by CountMultiplicity) |
| Points.CountMultiplicity | scUNC/utils.py:427-428 | the size of the cluster selected by the mask is the number of times c occurs among the labels |
| Points.Positions | scUNC/utils.py:473-474 | the selected positions ascend strictly, lie inside the labels, and are as many as there are labels c |
| Points.PositionsExact | scUNC/utils.py:473-474 | a position is selected exactly when its label is c |
| Points.Members | scUNC/utils.py:473-474 | `data[labels == c]` has as many rows as there are labels c, and every row comes from data |
| Points.MembersSelect | scUNC/utils.py:473-474 | `data[labels == c]` is the rows of data at the selected positions, in ascending order: exactly the rows labelled c, in their order |
| ClusterSampler.SampleSize | scUNC/utils.py:121-123 | the sample is factor times the smaller size when that reaches minSize. Otherwise it tops the union up to exactly minSize, unless the larger cluster runs out first |
| ClusterSampler.NearestPoints | scUNC/utils.py:116-125 | the first rows in argsort order, as many as the sample size clipped to the number of rows |
| ClusterSampler.NearestPointsFromInput | scUNC/utils.py:116-125 | the sample is drawn from the larger cluster's rows, with no index taken twice |
| ClusterSampler.NearestPointsAreNearest | scUNC/utils.py:119-124 | every chosen row is at least as near to the center as every row left out |
| DipMatrix.UnionPValue | scUNC/utils.py:475-477 | the p-value of the projected union of two clusters is a probability |
| DipMatrix.Resampled | scUNC/utils.py:480-487 | the rebalanced pair: one of the two sides is kept and neither grows (which side and how, in ResampledSides) |
| DipMatrix.Nearest | scUNC/utils.py:483-487 | `get_nearest_points` with numpy's argsort of the distances to the other center: exactly NearestPoints on that order (so the nearest rows, by NearestPointsAreNearest), Min(sample size, rows) of them, all its own |
| DipMatrix.ResampledSides | scUNC/utils.py:480-487 | the strictly larger side (the first when both could be) is replaced by its Nearest rows to the other cluster's center, Min(sample size, its rows) of them; the other side is kept; every row stays in its own side; the rebalanced pair keeps more than 4 points |
| DipMatrix.ResampledLargerHasEnough | scUNC/utils.py:121-123 | with minSize above 4, the smaller side plus the sample has more than 4 points |
| DipMatrix.FullPValue | scUNC/utils.py:472-477 | the p-value of the whole union is a probability |
| DipMatrix.RebalancedPValue | scUNC/utils.py:480-490 | `dip_p_value_2`: the p-value of the Resampled pair's projected union, a probability |
| DipMatrix.PairPValue | scUNC/utils.py:472-491 | the pair's entry is a probability. When the sizes are balanced it is the whole union's p-value. When they are imbalanced it is Python's min of that and the rebalanced p-value: no larger than either, and equal to one of them |
| DipMatrix.Matrix | scUNC/utils.py:466-497 | the matrix is n × n, symmetric and zero on the diagonal, every entry is a probability, and entry (i, j) for i < j is the pair's p-value |
| DipMatrix.GetDipMatrix | scUNC/utils.py:466-497 | the nested loop over an n × n array leaves every cell equal to the matrix |
| DipMatrix.FillRow | scUNC/utils.py:471-495 | one pass of the inner loop writes row i and column i and leaves every other cell as it was |
| DipMatrix.SetPair | scUNC/utils.py:494-495 | cells (i, j) and (j, i) receive the pair's value |
| DipMatrix.PairStep | scUNC/utils.py:472-491 | the loop body's steps compute the pair's p-value |
| ClusterMerger.Relabel | scUNC/utils.py:432-439 | both labels of the pair become n - 1; every other label drops by the number of pair labels below it |
| ClusterMerger.RelabelRange | scUNC/utils.py:431-439 | the merged pair gets label n - 1 and every other old label a label in 0 .. n - 2 |
| ClusterMerger.RelabelStrictlyIncreasing | scUNC/utils.py:434-439 | the clusters outside the pair keep their relative order |
| ClusterMerger.RelabelSymmetric | scUNC/utils.py:432-439 | which cluster of the pair is named first does not matter |
| ClusterMerger.RelabelBijective | scUNC/utils.py:431-439 | the old labels outside the pair map one to one onto 0 .. n - 2, with an explicit inverse |
| ClusterMerger.RelabelAll | scUNC/utils.py:431-439 | the labels after the loop: one per old label, each the Relabel of it |
| ClusterMerger.NewLabelSet | scUNC/utils.py:431-439 | when every old cluster has a point, the new labels are exactly 0 .. n - 1 |
| ClusterMerger.MembersKept | scUNC/utils.py:431-439 | a cluster outside the pair keeps exactly its points, in their order, under its new label |
| ClusterMerger.MergedCount | scUNC/utils.py:427-439 | the merged cluster has as many points as the two old clusters together |
| ClusterMerger.RelabelInPlace | scUNC/utils.py:431-439 | the loop rewrites every label in place with the new numbering |
| ClusterMerger.DeletePair | scUNC/utils.py:450 | `np.delete(rows, [a, b])` has two rows fewer, all from the old rows |
| ClusterMerger.DeletePairAligned | scUNC/utils.py:450 | after the deletion, the center row of every other cluster sits at its new label |
| ClusterMerger.DeletePairRows | scUNC/utils.py:450 | every remaining row is the row of the old cluster whose new label is its position |
| ClusterMerger.WeightedMean | scUNC/utils.py:442-444 | `optimal_new_center`: each coordinate times the two sizes together equals the two centers' coordinates weighted by their sizes (bounds in WeightedMeanBetween, blend form in MeanAsBlend) |
| ClusterMerger.WeightedMeanBetween | scUNC/utils.py:442-444 | the size-weighted mean lies, coordinate by coordinate, between the two old centers |
| ClusterMerger.MeanAsBlend | scUNC/utils.py:442-444 | the weighted mean is the blend of the first center towards the second, with the second cluster's share as weight |
| ClusterMerger.ArgMin | scUNC/utils.py:108 | `np.argmin`: an index of a smallest value, with no smaller value earlier |
| ClusterMerger.DistancesFrom | scUNC/utils.py:108 | `cdist([target], embedded)`: entry k is the distance of the target to point k |
| ClusterMerger.NewCenterIndex | scUNC/utils.py:108 | the first data point nearest to the target |
| ClusterMerger.NearestToCenter | scUNC/utils.py:106-113 | the new center is the first point nearest to the target, taken as its row in each of the two views and its embedded row |
| ClusterMerger.Merge | scUNC/utils.py:424-464 | the labels are relabelled in place. Each kept view's centers, and the embedded centers, lose rows a and b and gain the nearest point to the weighted mean, weighted by the sizes before relabelling. The returned array equals the p-value matrix of the new labels and embedded centers, with factor 3 and minimum sample size 100 |
| ClusterMerger.ReplaceCenters | scUNC/utils.py:448-458 | every center array, and the embedded centers, lose rows a and b. The first two arrays and the embedded centers gain the new center's row; the rebuilt list holds only those two arrays |
| ClusterMerger.NewCentersAligned | scUNC/utils.py:457-458 | the new embedded centers have the width of the data |

## Left out

- The compiled dip routine (`diptst`, Hartigan's algorithm AS 217) and `load_c_dip_file` are not modelled. The routine is the parameter `hartigan`, applied to the data `dip` would hand it. Loading the shared library, the ctypes buffers and the `debug` flag are I/O.
- `dip` with `just_dip=False` (the `low_high` and `modal_triangle` outputs) is not modelled, because `dip_test` always asks for the dip alone.
- Floating point is modelled as exact reals. `np.sqrt` is a parameter. The monotonicity lemmas require it to be non-negative on non-negative inputs (`NonNegativeRoot`). The zero-dip lemmas require it to be positive on positive inputs (`PositiveRoot`).
- DipStatistic.DipPVal: requires more than 4 points. At or below the first breakpoint the source divides by n1 − n0 = 0, giving NaN or infinity (see DipPValue.SmallSampleBracketDegenerate). NaN, and Python's `min` on NaN in `get_dip_matrix`, are outside exact real arithmetic.
- DipMatrix.GetDipMatrix: requires every pair of clusters to have more than 4 points together and minSize above 4, so that every `dip_pval` it takes is defined. The source has no such guard.
- ClusterMerger.Merge: requires the two merged clusters to have at least one point together. Otherwise the source divides by zero when it takes the mean.
- ClusterMerger.Merge: `centers_cpu` is rebuilt from its first two views only, as the source's `range(2)` does. A third view is dropped just as there.
- DipPValue.PValueNonIncreasing: monotonicity and the zero-dip value are proved only up to the last breakpoint (72000 points). Beyond it the source extrapolates with a fraction above 1. The model computes that extrapolation, but the blended curve need not ascend there.
- `cdist`'s metric, `np.argsort` and `np.sqrt` are parameters. `argsort` is described by what it promises: every index once, ascending by distance. Nothing depends on the order of ties. Sorting.ArgSort is one routine that meets the description.
- Interpolation.Interp: the monotonicity facts need ascending breakpoints, as `np.interp` itself does. On breakpoints that do not ascend the model picks the first segment that holds x, while numpy's result is unspecified.
- Tensor conversions (torch) and GPU copies are not modelled; numpy arrays are sequences of reals.
- The rest of `scUNC/utils.py` is not part of this model. That covers the accuracy and purity scores, the data loaders and device helpers, the batchwise encoder, one-hot encoding, `squared_euclidean_distance`, `judge_system` and `get_center_labels` (Louvain clustering).
