# ALN training operations: data preparation and noise variance

This project models the deterministic data-preparation and bookkeeping
logic of `libaln/src/train_ops.cpp`, the driver that fits an Adaptive Logic
Network (ALN: a tree of linear pieces joined by max/min nodes) to noisy
data. It also proves properties of that model. The model covers:

- **createSamples**: the noise-variance sweep. Tessellation leaves a map
  `apLFN` from every data row to the linear piece ("LFN") that row
  activates, or to none. The sweep scans the rows in order. At the first
  row of a piece not yet met, it counts every later row on the same piece.
  A piece with more than `nDim + 1` rows fits a least-squares plane through
  them and writes a leverage-corrected squared residual into each row's
  output column of VARfile. A smaller piece writes the pooled sample
  variance of its outputs into all its rows. Either way the piece's rows
  are then cleared from the map.
- **createTR_VARfiles**: the four preparations of the training file TRfile
  and the noise-variance file VARfile from the full file TVfile:
  - LINEAR_REGRESSION: front/back fill of both files;
  - TESSELLATION: paraboloid target in TRfile;
  - APPROXIMATION: verbatim copy into TRfile;
  - BAGGING: VARfile's output column divided by the number of ALNs.
- **The F-limit selection in `approximate`**: the degrees-of-freedom index
  into the table of F values, and the 1.4 override that follows it.
- **The per-axis constraints** set on every ALN: the zero-epsilon check,
  the widened domain, and the slope bounds clamped by the a-priori bounds.
- **The compression of the regression centroid into the bias weight W[0].**
- **fillvector**: the training-vector callback. It picks a row, jitters it
  triangularly, and averages the ensemble.

Modelling choices:

- Doubles are modelled as `real`, so there is no rounding.
- Tables are `seq<seq<real>>` with exactly `nDim` columns per row. The
  output is column `nDim - 1`, and `nDim` counts the output too.
- The piece map is `seq<Option<int>>`, with integers standing for `ALNNODE*`
  identity.
- Foreign computations are parameters:
  - the least-squares fitted values (the Eigen hat matrix) are a function
    `fit(X, y)` returning one value per row;
  - the random draws are reals in [0, 1);
  - the ensemble ALNs are functions from input vectors to reals;
  - `pow(2.0, 0.5)` is a parameter `sqrt2`.
- `exit(0)` on a zero epsilon becomes an `Err` result.

The sweep is proved against a declarative reference,
`NoiseVariance.SampleRow`. It computes every row of the final VARfile from
the table and map as they were on entry: the row's piece, the piece's rows
in order, and the row's rank among them. The proof is a loop invariant that
pins the state after `i` rows to reference tables (`SweptTable`,
`SweptMap`).

## Model

| member | source | states |
|---|---|---|
| NoiseVariance.CreateSamples | libaln/src/train_ops.cpp:1124-1235 | Each VARfile row ends as the reference row: rows on no piece are unchanged; a row on piece p gets, in its output column only, the sample of its rank among p's rows, computed from the entry-time table. Every map entry ends cleared. good+bad samples is the number of rows initially on a piece, good+bad pieces is the number of distinct pieces, and the good counters count exactly the pieces with more than nDim+1 rows and their rows |
| NoiseVariance.SampleRow | libaln/src/train_ops.cpp:1139-1226 | The reference row keeps the input columns. It equals the original row when the row has no piece, and its output is non-negative when the row has one |
| NoiseVariance.SweptPrefixCleared | libaln/src/train_ops.cpp:1124-1137 | Every map entry before the sweep position is already cleared |
| NoiseVariance.ProcessPiece | libaln/src/train_ops.cpp:1127-1233 | Processing the first row of a newly met piece takes the sweep state and the counters from position i to i+1 |
| NoiseVariance.SkipRow | libaln/src/train_ops.cpp:1124-1127 | A cleared entry changes neither the sweep state nor the counters |
| NoiseVariance.FreshPiece | libaln/src/train_ops.cpp:1127-1137 | A row still set at position i carries its original piece, which no earlier row had. The piece's rows are read unchanged from the entry-time table, so its samples are those of the original data |
| NoiseVariance.SweepComplete | libaln/src/train_ops.cpp:1235 | After the last row every row equals its reference row and the map is empty |
| NoiseVariance.TallyComplete | libaln/src/train_ops.cpp:1198-1199 | After the last row the sample counters add up to the assigned rows and the piece counters add up to the distinct pieces |
| NoiseVariance.CountMembers | libaln/src/train_ops.cpp:1130-1137 | nX is the number of rows from i on that lie on the piece |
| NoiseVariance.Gather | libaln/src/train_ops.cpp:1150-1167 | The design matrix (input columns plus a constant 1.0 column) and target vector are the piece's rows in row order |
| NoiseVariance.PooledSums | libaln/src/train_ops.cpp:1204-1217 | The running sum and sum of squares are those of the piece's outputs |
| NoiseVariance.PooledStep | libaln/src/train_ops.cpp:1204-1217 | One pass of the accumulation loop: a row on the piece adds its output to the sum and its square to the sum of squares, and any other row leaves the piece's rows unchanged |
| NoiseVariance.WriteSamples | libaln/src/train_ops.cpp:1176-1197 | The row with n earlier rows of the piece receives sample n in its output column, and its map entry is cleared. The write pass meets as many rows as the count pass (nRow == nX). Every other row and entry is unchanged |
| NoiseVariance.PieceNoise | libaln/src/train_ops.cpp:1130-1226 | The piece's samples equal PieceSamples of its rows, and the piece counts as good exactly when it has more than nDim+1 rows |
| NoiseVariance.PieceSamples | libaln/src/train_ops.cpp:1139-1226 | One non-negative sample per row. On a big piece a sample is zero exactly where the fitted plane passes through the row. On a small piece all samples are equal, and a single row gets 0 |
| NoiseVariance.RegressionSample | libaln/src/train_ops.cpp:1149-1185 | With nX > nDim+1 the sample ((yhat - y)/(1 - nDim/nX))^2 (nDim+1)/(nDim+3) is non-negative and zero iff yhat == y |
| NoiseVariance.PooledVarianceIsSampleVariance | libaln/src/train_ops.cpp:1219 | The running-sum formula (sum v^2 - (sum v)^2/n)/(n-1) times n-1 equals the sum of squared deviations from the mean |
| NoiseVariance.PooledVariance | libaln/src/train_ops.cpp:1219 | The pooled value (Q - S^2/n)/(n - 1), or 0 for a single row, is never negative |
| NoiseVariance.PooledVarianceOfConstant | libaln/src/train_ops.cpp:1219 | Equal outputs give a pooled value of 0 |
| NoiseVariance.SmallPieceSampleVariance | libaln/src/train_ops.cpp:1201-1226 | On a piece of 2..nDim+1 rows every row's sample is the sample variance of the piece's outputs |
| NoiseVariance.ConstantSmallPieceIsNoiseless | libaln/src/train_ops.cpp:1201-1226 | A small piece whose outputs agree gets zero samples |
| NoiseVariance.SumSqDeviations | libaln/src/train_ops.cpp:1211-1219 | The sum of squared deviations from any point c, expanded, is sum v^2 - 2c sum v + n c^2 |
| Pieces.MembersIn | libaln/src/train_ops.cpp:1130-1137 | The rows of the range that lie on the piece, as the forward scan visits them: at most one per row of the range, none for an empty range |
| Pieces.MembersSound | libaln/src/train_ops.cpp:1131-1137 | The rows the forward scan lists lie in the scanned range and on the piece |
| Pieces.MembersComplete | libaln/src/train_ops.cpp:1131-1137 | Every row of the range on the piece is listed |
| Pieces.MembersIncreasing | libaln/src/train_ops.cpp:1151-1166 | The listed rows are in strictly increasing order, so each row is written exactly once |
| Pieces.MemberRank | libaln/src/train_ops.cpp:1176-1194 | A row's rank (how many rows of its piece precede it) indexes that row in the piece's row list |
| Pieces.CountOnAll | libaln/src/train_ops.cpp:1198-1231 | Counting the rows on a set that holds every piece counts every assigned row |
| Pieces.CountOnUnion | libaln/src/train_ops.cpp:1198-1231 | Rows counted over two disjoint sets of pieces add up |
| Phases.CreateTrVarFiles | libaln/src/train_ops.cpp:968-1105 | TVfile is never written. LINEAR_REGRESSION: TRfile and VARfile both become TVfile. TESSELLATION: VARfile and TRfile's inputs are unchanged, and TRfile's output is the paraboloid value flatten * sum (x_j - c_j)^2 with flatten = 1 / HalfRangeSum, non-negative and zero exactly at rows on the centroid. APPROXIMATION: TRfile becomes TVfile and VARfile is unchanged. BAGGING: TRfile and VARfile's inputs are unchanged, and VARfile's output times nALNs is the old output. Any other selector changes nothing |
| Phases.FrontBackFill | libaln/src/train_ops.cpp:1006-1035 | The cursors end with tmp1 == tmp0 - 1, and tmp0 is the number of front rows. Both files receive the same rows, row i of TVfile lands at its destination, and when every row goes to the front both files equal TVfile |
| Phases.FrontCounts | libaln/src/train_ops.cpp:1006-1022 | After i rows the front cursor equals the number of those rows sent to the front |
| Phases.WindowShrinks | libaln/src/train_ops.cpp:1022-1032 | The front cursor never moves down and the back cursor never moves up |
| Phases.DestinationOutside | libaln/src/train_ops.cpp:1014-1032 | A row already placed never lies between the two cursors of a later step, so no later row overwrites it |
| Phases.PlacedWindow | libaln/src/train_ops.cpp:1014-1032 | Slots between the cursors still hold their old contents; every other slot holds the same row whatever the files held before |
| Phases.PlacedRows | libaln/src/train_ops.cpp:1014-1032 | Every row placed so far sits at its destination |
| Phases.WindowClosed | libaln/src/train_ops.cpp:1035 | After the last row the back cursor is one below the front cursor, and the front cursor counts the front rows |
| Phases.Destination | libaln/src/train_ops.cpp:1006-1032 | Every destination, front or back, is a row index of the files |
| Phases.CursorsMet | libaln/src/train_ops.cpp:1035 | Once every row is placed every slot is filled, so TRfile and VARfile end equal whatever they held before |
| Phases.AllFrontCopies | libaln/src/train_ops.cpp:1011-1023 | When every row goes to the front, the fill copies TVfile |
| Phases.FrontAll | libaln/src/train_ops.cpp:1011-1023 | When every row goes to the front, the front cursor equals the row index |
| Phases.AllFrontKeepsOrder | libaln/src/train_ops.cpp:1009-1033 | With bSwitch always TRUE every row keeps its index |
| Phases.Tessellate | libaln/src/train_ops.cpp:1047-1071 | Only the output column of TRfile changes |
| Phases.TessellationTargets | libaln/src/train_ops.cpp:1060-1071 | Every paraboloid target is non-negative and is zero exactly when the row's inputs equal the centroid |
| Phases.HalfRangeSum | libaln/src/train_ops.cpp:1047-1055 | The sum of squared half-ranges that 1055 divides by is never negative |
| Phases.HalfRangeSumZero | libaln/src/train_ops.cpp:1047-1055 | That sum is zero exactly when every input axis has max == min, the one case where 1055 divides by zero |
| Phases.ParaboloidValue | libaln/src/train_ops.cpp:1060-1069 | With a non-negative flattening factor the paraboloid target is non-negative |
| Phases.ParaboloidZeroAtCentroid | libaln/src/train_ops.cpp:1063-1069 | flatten times sum (x_j - c_j)^2, with flatten > 0, is non-negative and zero iff x equals c on the inputs |
| Phases.ApproximationFill | libaln/src/train_ops.cpp:1082-1089 | The cell-by-cell copy makes TRfile equal to TVfile |
| Phases.BagVariance | libaln/src/train_ops.cpp:1097-1101 | Inputs are unchanged, and each new output times nALNs is the old output |
| Phases.BagVarianceShrinks | libaln/src/train_ops.cpp:1097-1101 | Non-negative samples stay non-negative and never grow; with one ALN nothing changes |
| FLimit.TableLimit | libaln/src/train_ops.cpp:455-464 | For nDim >= 2 the table limit is a table entry between 1.4 and 9.0 |
| FLimit.DofIndex | libaln/src/train_ops.cpp:456-462 | For nDim >= 2 the degrees-of-freedom index selects one of the 13 table entries; for nDim < 2 it is negative, before the table |
| FLimit.DofIndexMonotone | libaln/src/train_ops.cpp:456-462 | The index never decreases as nDim grows |
| FLimit.FTableDecreasing | libaln/src/train_ops.cpp:455 | The F table is strictly decreasing |
| FLimit.TableLimitNonIncreasing | libaln/src/train_ops.cpp:455-464 | The table-driven limit never increases with nDim |
| FLimit.ApproximationLimit | libaln/src/train_ops.cpp:464-465 | The final limit is the 1.4 override, the last table entry, whatever nDim is. It never exceeds the table value for any nDim |
| AxisBounds.ConstrainAxis | libaln/src/train_ops.cpp:144-157 | weightMin is max(-k/eps, minWeight) and weightMax is min(k/eps, maxWeight), each equal to one of its two candidates. The domain is [min - 0.1 sd, max + 0.1 sd]. The same clamping is repeated for every ALN at lines 310-322, 524-537 and 765-780 (AxisBounds.ConstrainAll applies it to every axis) |
| AxisBounds.ConfigureAxes | libaln/src/train_ops.cpp:127-157 | Fails iff some axis has zero epsilon, naming the first such axis. Otherwise it returns the constraint of every axis with k = sqrt2 * sd(output) |
| AxisBounds.DomainCoversData | libaln/src/train_ops.cpp:144-145 | With sd >= 0 the widened domain contains the data range |
| AxisBounds.ZeroSlopeAdmitted | libaln/src/train_ops.cpp:147-157 | With eps > 0 and k > 0, a-priori bounds admitting slope 0 leave a non-empty interval containing 0 |
| AxisBounds.DisjointBoundsGiveEmptyInterval | libaln/src/train_ops.cpp:150-157 | A-priori bounds disjoint from the derived ones give weightMin > weightMax |
| LinearSeed.CompressSeed | libaln/src/train_ops.cpp:227-241 | W0 = C[nDim-1] - sum W[m+1] C[m], the other weights are copied and W[nDim] = -1. For every x the bias form W0 + sum W[m+1] x[m] equals the centroid form C[nDim-1] + sum W[m+1](x[m] - C[m]) |
| LinearSeed.CentredSplits | libaln/src/train_ops.cpp:236-240 | sum W(x - C) = sum W x - sum W C |
| FillVector.RowPick | libaln/src/train_ops.cpp:934 | floor(u * nRowsTR) lies in [0, nRowsTR) for a draw u in [0, 1) |
| FillVector.Fill | libaln/src/train_ops.cpp:934-963 | Outside averaging the vector is the chosen TRfile row verbatim. In averaging, the inputs are the row's inputs after Jitter's step (u1 - u2) * eps, so each moves by at most its epsilon, strictly less when epsilon is non-zero. The output is the ensemble mean at the jittered inputs |
| FillVector.Jitter | libaln/src/train_ops.cpp:948-955 | The jittered vector has nDim entries and keeps the row's output in the last place |
| FillVector.JitterWithinEpsilon | libaln/src/train_ops.cpp:948-955 | (u1 - u2) eps moves a coordinate by less than abs(eps) |
| FillVector.IdenticalEnsembleGivesMember | libaln/src/train_ops.cpp:956-963 | An ensemble of N identical ALNs averages to that ALN's value |
| FillVector.Averaged | libaln/src/train_ops.cpp:956-963 | An ensemble of one ALN averages to that ALN's value |
| FillVector.AveragedBounded | libaln/src/train_ops.cpp:956-963 | The ensemble mean lies between the smallest and largest member value |

## Left out

- The ALN library calls are not modelled, because their code is not part of
  this model: `Create`, `SetGrowable`, `Train`, `QuickEval`, `ConvertDtree`
  and `WriteDtree`. Their results (the piece map, the ensemble's values)
  are inputs.
- The Eigen normal-equation solve (lines 1170-1173) is not modelled. The
  fitted values come from the `fit` parameter, which only guarantees one
  value per row. Least squares itself is not verified.
- The `sqrt`-based RMSE and statistics, `outputTrainingResults`, and the
  average of the samples that createSamples prints at the end are left out:
  they are reporting only.
- The `Train` iteration loops of each phase are left out: they are control
  flow around a foreign call.
- Logging, the diagnostic `Write` calls, `malloc`/`free` and `cleanup` are
  left out. So is the random source itself: the draws are parameters.
- NoiseVariance.RegressionSample: the `(float)nDim/(float)nX` cast at line
  1185 is computed exactly, without single-precision rounding.
- NoiseVariance.PooledVariance: `dblnX = (float)nX` (line 1138), used only by
  the pooled formula at line 1219, is computed exactly, without
  single-precision rounding.
- NoiseVariance.PieceSamples: promises non-negative samples only because
  `fit` returns reals. In the source a piece with more than nDim+1 rows whose
  inputs are repeated or collinear makes X'X singular (lines 1170-1171), so
  the fitted values and the samples at line 1185 are not finite.
- FillVector.Fill: requires a non-empty ensemble when averaging. The source
  divides by `nalns` at line 963 with no guard.
- AxisBounds.ConstrainAll: requires every input axis to have a non-zero
  epsilon. The sites at lines 310-322, 524-537 and 765-780 have no guard of
  their own; they rely on the linear-regression phase having stopped the run
  on a zero epsilon first.
- FillVector.RowPick: `floor(u * n)` is exact; the rounding of the product
  in double precision is not modelled.
- AxisBounds.ConstrainAxis: does not claim `weightMin <= weightMax`. The
  clamping does not guarantee it (AxisBounds.DisjointBoundsGiveEmptyInterval).
- Phases.Tessellate: requires a positive sum of squared half-ranges. The
  source divides by it with no guard (line 1055).
- Phases.CreateTrVarFiles: requires `nALNs >= 1` for BAGGING; the source
  divides by `nALNs` with no guard.
- FLimit.TableLimit: requires `nDim >= 2`. For smaller `nDim` the source's
  index `nDim - 2` is negative and reads outside the table.
- Phases.FrontBackFill: the back-fill branch is modelled with a general
  per-row switch. The source's switch is the constant TRUE, which is the
  instance CreateTrVarFiles uses.
- Phases.CreateTrVarFiles: the source's `ASSERT` on equal row counts is the
  precondition `Aligned`.
- Three places where the source's own comments and its code part ways; the
  model follows the code:
  - the clamping at lines 150-157 does not ensure `weightMin <= weightMax`
    (AxisBounds.DisjointBoundsGiveEmptyInterval);
  - the comment at line 1046 aims for a paraboloid of depth about 1.0, but
    line 1055 divides by the sum of squared half-ranges, which only roughly
    bounds the depth;
  - the table value chosen at line 464 is overwritten with 1.4 at line 465.
- The source's comment on the small-piece branch says the mean is written.
  The code writes the pooled sample variance, and so does the model.
- In the pooled branch the source's write loop does not count rows, so its
  last `nRow == nX` check repeats the one made after the summing loop. The
  model's WriteSamples counts in both branches.
