# Eyevents gaze analysis, modelled in Dafny

This project models the exactly specifiable core of the Eyevents eye-tracking package:

- the area-of-interest (AOI) grid;
- the mapping of samples to AOIs and the transition-count matrices built from it;
- the class-probability and likelihood steps that aggregate those matrices;
- the geometry helpers (`get_shortname`, `distance`, `det`, the polar-angle quicksort and the Graham scan);
- the velocity-threshold event labeller and the per-event statistics;
- the preprocessing of a recording (column map, time shift, rescaling, smoothing dispatch, gap filling) and the stage order of the eyevents `Trajectory` constructor;
- the batch scoring of a directory of trajectories;
- the settings validator.

Coordinates and times are Dafny `real`s, so arithmetic is exact. Where numpy produces `inf` or NaN, results are `Floats.Float` values (`Num`, `PosInf`, `NegInf`, `NaN`). A Python exception is a `Failure` of a `Common.Result`, or a `Fail` of a `Common.Outcome`, naming the exception class.

Several things are parameters rather than definitions:

- `sqrt`, `atan2` and `log`;
- the rolling filters and the Savitzky-Golay filter;
- the angular projection;
- the random quicksort pivot;
- the CSV read (the already-loaded frame `loaded`);
- the directory listing (`listing`).

The behaviour modelled is that of the library versions the code was written against, pandas before 2.0 and numpy before 2.0: the code passes the axis of `drop` positionally (`drop('time', 1)`), calls `np.product` and fills gaps with `fillna(method='bfill')`; pandas 2.0 rejects the first, numpy 2.0 removes the second, and later pandas releases deprecate the third.

A pandas frame is `Frames.Frame`, a sequence of column labels plus rows of `Cell`s (`Value`, `Missing` or `Text`).

One module per source file:

| module | file |
|---|---|
| `AoiRectangle` | `AOI/Rectangle.py` |
| `AoiGrid` | `AOI/AOI.py` |
| `AoiTrajectory` and `Transitions` | `AOI/Trajectory.py` |
| `PreparedTrajectory` | `AOI/PreparedTrajectory.py` |
| `EyeventsUtils` | `eyevents/utils.py` |
| `Summariser` | `eyevents/summariser.py` |
| `Detector` | `eyevents/detector.py` |
| `ValuesChecker` | `eyevents/values_checker.py` |
| `Preprocess` | `trajectory/__init__.py` |
| `EyeventsTrajectory` | `eyevents/trajectory.py` |
| `Scoring` | `eyevents/trajectories.py` and `eyevents/extended_trajectories.py` |

`Common`, `Floats`, `Seqs`, `Arith` and `Frames` hold the shared vocabulary.

`trajectory/__init__.py` imports its settings checker from `modules/python/utils/values_checker.py`, and that file is not part of this model. `Preprocess` calls `ValuesChecker.CheckSettings`, the model of `eyevents/values_checker.py`, in its place.

Objects whose methods assign their own fields are classes. These are:

- `AoiGrid.Aoi`;
- `AoiTrajectory.Trajectory`;
- `EyeventsTrajectory.Trajectory`.

Each returns an `Outcome` and changes only the fields named in its `modifies` clause. Loops in the source are loops here:

- the grid's nested loops;
- the AOI row scan;
- the `+= 1` count loop and the column division;
- the class loop;
- the quicksort partition;
- the hull scans;
- the fan-area accumulation;
- the column-map loop;
- the pairwise table fill.

Each such loop is proved equal to a specification function, and the properties are proved about that function.

Quirks of the source are kept as written, not corrected:

- `Rectangle.includes` tests `x` against the y bounds.
- The `aoi < cells` filter also drops the last grid cell.
- Class probabilities divide by row sums broadcast along columns, with no zero guard.
- Without smoothing, the eyevents `Trajectory` constructor fails at the angular stage.

Where the two copies of the preprocessing code differ, each copy is modelled as written:

- `Preprocess.DispatchOf` and `EyeventsTrajectory.EyeDispatchOf` dispatch on the smoothing name differently, and `EyeventsTrajectory.DispatchesAgree` states exactly where the two agree.
- The angular stage of the class reads its velocity settings from a different section than the module function does. Both are inside the angular parameter, and neither is modelled.

## Model

| member | source | states |
|---|---|---|
| AoiRectangle.Make | modules/python/AOI/Rectangle.py:2-17 | after construction x0 <= x1 and y0 <= y1 (corners may be infinite); each stored pair is the given pair or the given pair swapped |
| AoiRectangle.MakeIgnoresCornerOrder | modules/python/AOI/Rectangle.py:9-12 | swapping the x corners, or the y corners, given to the constructor yields the same rectangle |
| AoiRectangle.BetweenFinite | modules/python/AOI/Rectangle.py:24-31 | without the border flag the test is lo < v < hi; with it the interval is lower-open and upper-closed, lo < v <= hi |
| AoiRectangle.StrictImpliesBorder | modules/python/AOI/Rectangle.py:28-36 | includes(x, y, False) implies includes(x, y, True) |
| AoiRectangle.IncludesIgnoresY | modules/python/AOI/Rectangle.py:33-36 | the result of includes does not depend on y, because the second test is applied to x |
| AoiRectangle.ZeroAreaIncludesNothing | modules/python/AOI/Rectangle.py:6-36 | a zero-width or zero-height rectangle is still built and includes no point, with or without the border |
| AoiRectangle.CatchAll | modules/python/AOI/AOI.py:34 | the (-inf, inf) x (-inf, inf) rectangle includes every finite point |
| AoiGrid.GridLines | modules/python/AOI/AOI.py:23-24 | the arange of grid lines has n + 1 entries, entry k being k * step |
| AoiGrid.GridCheck | modules/python/AOI/AOI.py:20-24 | the grid can be built iff both cell counts and both coefficients are non-zero; otherwise ZeroDivisionError |
| AoiGrid.BuildAoiList | modules/python/AOI/AOI.py:26-34 | the nested loops with the running id produce exactly the dict Grid |
| AoiGrid.GridIds | modules/python/AOI/AOI.py:26-34 | the ids are exactly 1 .. cells_x * cells_y + 1 |
| AoiGrid.GridRowMajor | modules/python/AOI/AOI.py:29-32 | the cell in y-row r and x-column c has id r * cells_x + c + 1 |
| AoiGrid.CellAtRowCol | modules/python/AOI/AOI.py:29-32 | the rectangle stored under an id is the grid cell of that id's row and column |
| AoiGrid.CellOfLines | modules/python/AOI/AOI.py:20-31 | the rectangle built from consecutive arange entries is the cell between lines c, c + 1 and r, r + 1 |
| AoiGrid.GridCellSpan | modules/python/AOI/AOI.py:20-31 | with positive coefficients cell (r, c) spans [c * x_step, (c + 1) * x_step] x [r * y_step, (r + 1) * y_step] |
| AoiGrid.GridNeighbours | modules/python/AOI/AOI.py:23-31 | horizontally and vertically adjacent cells share their boundary |
| AoiGrid.GridBounds | modules/python/AOI/AOI.py:23-24 | the outer bounds of the finite cells are 0 and x_coef (resp. 0 and y_coef) |
| AoiGrid.GridCatchAll | modules/python/AOI/AOI.py:34 | the highest id holds the unbounded catch-all rectangle |
| AoiGrid.Aoi.constructor | modules/python/AOI/AOI.py:7-14 | the four parameters are stored and no AOI list exists yet |
| AoiGrid.Aoi.GetAoiList | modules/python/AOI/AOI.py:16-36 | fails as GridCheck says and then leaves the list unchanged; otherwise `aois` becomes Grid |
| AoiTrajectory.DefaultParams | modules/python/AOI/Trajectory.py:35-36 | the default parameters are 1280, 720, 0.001, min_time on, one timestamp per group and 5 x 5 cells |
| AoiTrajectory.Trajectory.constructor | modules/python/AOI/Trajectory.py:17-33 | the loaded samples become the raw data and every derived field starts empty |
| AoiTrajectory.Trajectory.FromData | modules/python/AOI/PreparedTrajectory.py:7-16 | a prepared trajectory holds the frame as its data and has no raw data, parameters, grouped data or aoi_df attributes, since Trajectory.__init__ never runs |
| AoiTrajectory.Trajectory.SetParameters | modules/python/AOI/Trajectory.py:35-47 | the parameters are stored; the working data is then reset to a copy of the raw data, or, on a prepared trajectory without raw data, AttributeError with the data unchanged |
| AoiTrajectory.PreparedTimesStartAtZero | modules/python/AOI/Trajectory.py:53-55 | with min_time some sample ends at time 0, and with a non-negative factor none is negative |
| AoiTrajectory.PreparedTimesKeepDifferences | modules/python/AOI/Trajectory.py:53-55 | every difference of two times is the original difference times t_coef; x and y are untouched |
| AoiTrajectory.Trajectory.PrepareTime | modules/python/AOI/Trajectory.py:49-55 | fails with AttributeError before set_parameters and with ValueError (min of nothing) on empty data; otherwise the data becomes PreparedTimes |
| AoiTrajectory.ScaledCoordinates | modules/python/AOI/Trajectory.py:61-62 | each sample keeps its time and has x scaled by x_coef and y by y_coef |
| AoiTrajectory.Trajectory.PrepareCoordinates | modules/python/AOI/Trajectory.py:57-62 | the data becomes ScaledCoordinates, or AttributeError before set_parameters |
| AoiTrajectory.Trunc | modules/python/AOI/Trajectory.py:69 | int() truncates toward zero: the result lies within 1 of the argument, on the side of zero |
| AoiTrajectory.GroupCheck | modules/python/AOI/Trajectory.py:69 | grouping fails only for ts_in_group = 0 on non-empty data: ValueError (int of NaN) iff the first time is 0, otherwise OverflowError (int of inf) |
| AoiTrajectory.Buckets | modules/python/AOI/Trajectory.py:69 | one bucket per sample, int(t / ts_in_group) |
| AoiTrajectory.LastPerBucketFromInput | modules/python/AOI/Trajectory.py:68-70 | every grouped row carries the bucket of some input sample |
| AoiTrajectory.LastPerBucketCovers | modules/python/AOI/Trajectory.py:68-70 | every bucket that occurs in the input has a grouped row |
| AoiTrajectory.LastPerBucketDistinct | modules/python/AOI/Trajectory.py:68-70 | no two grouped rows share a bucket |
| AoiTrajectory.LastPerBucketIsLast | modules/python/AOI/Trajectory.py:68-70 | each grouped row is the last input sample of its bucket, its time replaced by the bucket |
| AoiTrajectory.Trajectory.GroupByTime | modules/python/AOI/Trajectory.py:64-70 | fails as GroupCheck says (AttributeError before set_parameters); otherwise grouped_data becomes the last row per bucket |
| AoiTrajectory.FirstFrom | modules/python/AOI/Trajectory.py:83-89 | the scan yields the smallest id whose rectangle includes the point, or 0 when none does |
| AoiTrajectory.AoiRows | modules/python/AOI/Trajectory.py:78-90 | one row per sample, with t copied unchanged and the AOI found by the scan |
| AoiTrajectory.GridOf | modules/python/AOI/Trajectory.py:76-77 | the dict get_aoi_list builds for the parameters holds every id 1 .. cells + 1 |
| AoiTrajectory.AoiInRange | modules/python/AOI/Trajectory.py:76-89 | thanks to the catch-all every point gets an id in 1 .. cells + 1, never 0 |
| AoiTrajectory.AoiIgnoresY | modules/python/AOI/Trajectory.py:83-87 | the AOI a sample gets does not depend on its y coordinate |
| AoiTrajectory.OriginGoesToCatchAll | modules/python/AOI/Trajectory.py:83-89 | a sample at x = 0 lies on the open lower bound of every cell and goes to the catch-all |
| AoiTrajectory.GridTransitionsSucceed | modules/python/AOI/Trajectory.py:100-112 | the ids the grid produces never make the count loop raise, with or without empty_aoi |
| AoiTrajectory.FindAoi | modules/python/AOI/Trajectory.py:83-89 | the inner loop returns the first id whose rectangle strictly includes the sample, or 0 |
| AoiTrajectory.MatchRows | modules/python/AOI/Trajectory.py:79-90 | the row loop appends exactly one AoiRow per sample, in order |
| AoiTrajectory.Trajectory.TrajectoryToAois | modules/python/AOI/Trajectory.py:72-91 | before set_parameters TypeError, or AttributeError on a prepared trajectory that has no parameters attribute; the grid's error, or AttributeError without data; otherwise aois is the grid and aoi_df is AoiRows of self.data (never of grouped_data) |
| AoiTrajectory.Trajectory.GetTransitionMatrix | modules/python/AOI/Trajectory.py:93-119 | AttributeError on a prepared trajectory that never got an aoi_df; otherwise AOIs are computed only when aoi_df is missing; the outcome and the stored matrix are those of TransitionMatrixOf over aoi_df, including its TypeError for probabilities over zero cells, and a failure leaves the matrix unchanged |
| Transitions.Zeros | modules/python/AOI/Trajectory.py:109 | an n x n matrix of zeros |
| Transitions.Moves | modules/python/AOI/Trajectory.py:111 | the zip of the sequence with its shift: |s| - 1 pairs (0 when empty), pair k being (s[k], s[k + 1]) |
| Transitions.CountsAreMoves | modules/python/AOI/Trajectory.py:107-112 | entry [i][j] counts exactly the moves from j to i (Python negative indices resolved) |
| Transitions.CountsTotal | modules/python/AOI/Trajectory.py:107-112 | the counts total the number of moves: len - 1 for a non-empty sequence, 0 for an empty one |
| Transitions.CountsNonNegative | modules/python/AOI/Trajectory.py:109-112 | every count is non-negative |
| Transitions.CountTransitions | modules/python/AOI/Trajectory.py:109-112 | the `+= 1` loop over an n x n array gives Counts, or IndexError when an index is out of Python's range |
| Transitions.Guard | modules/python/AOI/Trajectory.py:116 | a zero column sum is replaced by 1 and any other sum is kept |
| Transitions.NormalisedColumnSumsToOne | modules/python/AOI/Trajectory.py:114-117 | after normalisation every column with a non-zero sum sums to 1 |
| Transitions.ZeroColumnUnchanged | modules/python/AOI/Trajectory.py:114-117 | an all-zero column is left as it was |
| Transitions.GuardedColumnSums | modules/python/AOI/Trajectory.py:115-116 | the loop yields the guarded sum of each column |
| Transitions.NormaliseColumns | modules/python/AOI/Trajectory.py:117 | the in-place division gives ColumnNormalised |
| Transitions.TransitionMatrixOf | modules/python/AOI/Trajectory.py:107-117 | IndexError iff some index is invalid; otherwise TypeError for probabilities of a 0 x 0 matrix (the built-in sum gives the int 0, which refuses item assignment); otherwise an n x n matrix, the raw counts when no probabilities are asked for |
| Transitions.BuildTransitionMatrix | modules/python/AOI/Trajectory.py:107-119 | count, then the 0 x 0 TypeError or the optional normalisation, equals TransitionMatrixOf |
| Transitions.NoCellsNoProbabilities | modules/python/AOI/Trajectory.py:100-117 | with no cells and no empty AOI every id is filtered out: the raw counts are the empty matrix and probabilities are a TypeError |
| Transitions.FilterDropsLastCell | modules/python/AOI/Trajectory.py:104-107 | without empty_aoi an id survives iff it is below cells, so the last grid cell and the catch-all are both dropped |
| Transitions.GridIdsIndexable | modules/python/AOI/Trajectory.py:100-109 | ids in 1 .. cells + 1, shifted by one, always index the (cells + int(empty_aoi))-square matrix |
| Transitions.NoAoiWrapsToLast | modules/python/AOI/Trajectory.py:107-112 | id 0 (no AOI) becomes index -1, which Python resolves to the last row and column |
| PreparedTrajectory.DefaultSettings | modules/python/AOI/PreparedTrajectory.py:24-32 | columns 0, 1, 2; coefficients 0.001, 1280, 720; min_time on; 100 per group; 5 x 5 cells; empty_aoi on |
| PreparedTrajectory.ParamsOf | modules/python/AOI/PreparedTrajectory.py:44-46 | each settings field is passed to set_parameters unchanged |
| PreparedTrajectory.PipelineCounts | modules/python/AOI/PreparedTrajectory.py:43-53 | a successful pipeline returns a square count matrix of the size empty_aoi selects |
| PreparedTrajectory.GetTransitionMatrix | modules/python/AOI/PreparedTrajectory.py:19-53 | the method, with its default settings and its stage order, returns PipelineCounts: raw counts, never probabilities |
| PreparedTrajectory.GroupingDoesNotMatter | modules/python/AOI/PreparedTrajectory.py:47-53 | the counts do not depend on ts_in_group, because the matrix is built from the ungrouped data |
| PreparedTrajectory.PipelineSucceeds | modules/python/AOI/PreparedTrajectory.py:43-53 | with a valid grid, a non-zero group size and data when min_time is set, the pipeline does not raise |
| PreparedTrajectory.PipelineTotal | modules/python/AOI/PreparedTrajectory.py:47-53 | with empty_aoi the counts of a non-empty recording total its length minus one |
| PreparedTrajectory.MatSumEntry | modules/python/AOI/PreparedTrajectory.py:75 | the class total at [i][j] is the sum of the files' entries at [i][j] |
| PreparedTrajectory.SymmetricColumnsSumToOne | modules/python/AOI/PreparedTrajectory.py:77 | P[i][j] is T[i][j] divided by the sum of row j; only for a symmetric total does each column then sum to 1 |
| PreparedTrajectory.RowSumsAreNotColumnSums | modules/python/AOI/PreparedTrajectory.py:77 | a concrete total whose probability table holds inf and NaN, since there is no zero guard |
| PreparedTrajectory.UnenteredStateGivesNoProbability | modules/python/AOI/PreparedTrajectory.py:77 | a state whose row sums to 0 gives NaN or inf in its whole column |
| PreparedTrajectory.ClassCounts | modules/python/AOI/PreparedTrajectory.py:69-72 | succeeds iff the pipeline succeeds on every file of the class, and then holds one square count matrix per file, in file order |
| PreparedTrajectory.EachOf | modules/python/AOI/PreparedTrajectory.py:68-72 | a loop appending one result per element succeeds iff every element does, and then holds exactly those results in order |
| PreparedTrajectory.EachOfStops | modules/python/AOI/PreparedTrajectory.py:68-72 | after k successes, a failure at element k is the result of the whole loop, whatever follows |
| PreparedTrajectory.EachOfStep | modules/python/AOI/PreparedTrajectory.py:68-72 | one more round appends its value, and the first element that raises gives the error of the whole loop |
| PreparedTrajectory.AllClassCounts | modules/python/AOI/PreparedTrajectory.py:68-72 | succeeds iff every class does, and then holds each class's own matrices, all square |
| PreparedTrajectory.ProbabilityMap | modules/python/AOI/PreparedTrajectory.py:75-77 | the result has exactly the class keys |
| PreparedTrajectory.ProbabilityMapEntry | modules/python/AOI/PreparedTrajectory.py:75-77 | each class's entry is the row-normalised sum of that class's own matrices |
| PreparedTrajectory.ClassMatrices | modules/python/AOI/PreparedTrajectory.py:69-72 | the file loop gives ClassCounts |
| PreparedTrajectory.GetClassesProbabilities | modules/python/AOI/PreparedTrajectory.py:56-79 | the class loop with its prefix and default settings gives the probability map, or the first pipeline error |
| PreparedTrajectory.Terms | modules/python/AOI/PreparedTrajectory.py:120 | one term M[i][j] * log P[i][j] per cell |
| PreparedTrajectory.LogLikelihood | modules/python/AOI/PreparedTrajectory.py:120 | the reduction succeeds iff the probability table has the count matrix's shape |
| PreparedTrajectory.ZeroCountsContributeNothing | modules/python/AOI/PreparedTrajectory.py:120 | probabilities in cells with zero count do not affect the estimate |
| PreparedTrajectory.LikelihoodEstimationOf | modules/python/AOI/PreparedTrajectory.py:82-122 | a successful estimate has exactly the class keys |
| PreparedTrajectory.EstimatesOf | modules/python/AOI/PreparedTrajectory.py:106-120 | succeeds iff every class's matrix has the counts' shape (else ValueError), with exactly the class keys, each the NaN-skipping sum of its terms |
| PreparedTrajectory.LikelihoodEstimationEntry | modules/python/AOI/PreparedTrajectory.py:106-120 | each class's estimate is the NaN-skipping sum of the terms of the new trajectory's raw counts |
| EyeventsUtils.ReplaceDoubleDot | modules/python/eyevents/utils.py:14 | the replacement only removes dots and adds underscores, and keeps a single leading dot |
| EyeventsUtils.NoDoubleDotLeft | modules/python/eyevents/utils.py:14 | no two consecutive dots remain after the replacement |
| EyeventsUtils.Split | modules/python/eyevents/utils.py:14 | str.split gives at least one piece, no piece holds the separator, and two or more pieces when the separator occurs |
| EyeventsUtils.SplitWithoutSeparator | modules/python/eyevents/utils.py:14-16 | the split is [s] iff the separator does not occur |
| EyeventsUtils.JoinSplit | modules/python/eyevents/utils.py:14-18 | joining the pieces with the separator gives back the string |
| EyeventsUtils.GetShortname | modules/python/eyevents/utils.py:13-19 | the short name never contains '/' or '\\' |
| EyeventsUtils.ShortnameWithoutDot | modules/python/eyevents/utils.py:15-16 | without a dot the short name is the last '/'-component of the path |
| EyeventsUtils.ShortnameOfFile | modules/python/eyevents/utils.py:13-19 | dir/name.ext gives name |
| EyeventsUtils.ShortnameJoinsParts | modules/python/eyevents/utils.py:17-18 | a.b.c gives a_b: all parts but the last, joined with '_' |
| EyeventsUtils.DistanceIsMetricLike | modules/python/eyevents/utils.py:42-49 | the squared distance is non-negative, symmetric, and zero iff the points are equal |
| EyeventsUtils.DetAntisymmetric | modules/python/eyevents/utils.py:52-54 | det(p1, p2, p3) = -det(p1, p3, p2), and det is 0 when a point repeats |
| EyeventsUtils.GeronRotation | modules/python/eyevents/utils.py:22-29 | Heron's formula gives the same value for the vertices taken in rotated order |
| EyeventsUtils.SortBy | modules/python/eyevents/utils.py:73 | sorted(equal, key=distance) is a permutation ordered by the key |
| EyeventsUtils.PartitionOf | modules/python/eyevents/utils.py:63-72 | the three lists, in input order, together are a permutation of the input, with angles below, equal to and above the pivot's |
| EyeventsUtils.Partition | modules/python/eyevents/utils.py:63-72 | the loop computes PartitionOf, and so the three lists together are a permutation of the input, with angles below, equal to and above the pivot's |
| EyeventsUtils.PivotInMiddle | modules/python/eyevents/utils.py:64-72 | the pivot falls in the equal list, so both recursive calls get a shorter list |
| EyeventsUtils.PolarSort | modules/python/eyevents/utils.py:57-73 | for every choice of random pivots, quicksort's result is a permutation of its input ordered by polar angle, and by distance among equal angles |
| EyeventsUtils.Quicksort | modules/python/eyevents/utils.py:57-73 | the recursion computes PolarSort with the same pivots; whatever pivot is chosen, the result is a permutation ordered by polar angle, and by distance among equal angles |
| EyeventsUtils.Lowest | modules/python/eyevents/utils.py:82-89 | a non-empty list has an anchor: no point lies below it, and none left of it at the same height |
| EyeventsUtils.AnchorUnique | modules/python/eyevents/utils.py:82-89 | a list has at most one anchor, so the anchor the loop finds is Lowest |
| EyeventsUtils.LowestIndex | modules/python/eyevents/utils.py:82-87 | None iff there are no points; otherwise the index of the lowest point, the leftmost among ties |
| EyeventsUtils.FirstIndex | modules/python/eyevents/utils.py:93 | list.index gives the first position of the point |
| EyeventsUtils.DeleteFirst | modules/python/eyevents/utils.py:93 | deleting at that position removes exactly one copy of the point |
| EyeventsUtils.Backtrack | modules/python/eyevents/utils.py:97-100 | the inner while leaves a prefix of the hull, at least one point long, whose last two points turn strictly left towards s |
| EyeventsUtils.BacktrackAppend | modules/python/eyevents/utils.py:95-101 | backtracking and then appending s keeps the first point and the left turns, and adds no point other than s |
| EyeventsUtils.HullAfterShape | modules/python/eyevents/utils.py:95-102 | after any number of outer rounds the hull starts at the anchor, has at least two points, turns left at every vertex and holds only the anchor and points already visited |
| EyeventsUtils.ScanHull | modules/python/eyevents/utils.py:95-102 | the loops compute the hull HullAfter determines from the anchor and the sorted points; the backtracking loop keeps the anchor first and at least two points, and makes every consecutive triple a strict left turn (det > 0) |
| EyeventsUtils.HullPointsFromInput | modules/python/eyevents/utils.py:92-103 | the scan over the sorted points with the anchor deleted holds only input points |
| EyeventsUtils.GrahamHull | modules/python/eyevents/utils.py:76-103 | the hull of at least two points is a function of the points and the pivots: it starts at the anchor, holds only input points and turns strictly left at every vertex |
| EyeventsUtils.GrahamScan | modules/python/eyevents/utils.py:76-103 | TypeError for no points and IndexError for one; otherwise the result is GrahamHull of the points, so at least two hull points, all taken from the input, the anchor first, and only strict left turns |
| Summariser.Duration | modules/python/eyevents/summariser.py:50-54 | max(time) - min(time): at least every difference of two times and equal to one of them, hence >= 0; ValueError for no rows |
| Summariser.DurationOfSingleSample | modules/python/eyevents/summariser.py:50-54 | a single-sample group lasts 0 |
| Summariser.Amplitude | modules/python/eyevents/summariser.py:57-67 | amplitudeX and amplitudeY are the absolute first-minus-last differences; fewer than two rows raise TypeError when the NaN is unpacked |
| Summariser.PathLength | modules/python/eyevents/summariser.py:70-79 | NaN iff there are fewer than two rows, otherwise a number |
| Summariser.PathLengthNonNegative | modules/python/eyevents/summariser.py:74-77 | with a non-negative sqrt the path length is >= 0 |
| Summariser.Curvature | modules/python/eyevents/summariser.py:82-91 | NaN iff the amplitude or the path length is 0, otherwise the number c with c * amplitude = path length; TypeError with fewer than two rows |
| Summariser.PeakVelocity | modules/python/eyevents/summariser.py:94-97 | the maximum velAng: at least every velocity and attained; NaN for no rows |
| Summariser.MeanVelocity | modules/python/eyevents/summariser.py:100-103 | lies between the group's smallest and largest velAng; NaN for no rows |
| Summariser.MassCenterXY | modules/python/eyevents/summariser.py:106-110 | the centre lies in the bounding box of xAng and yAng; NaN for no rows |
| Summariser.OrientationOf | modules/python/eyevents/summariser.py:113-127 | IndexError exactly for no rows |
| Summariser.OrientationBySlope | modules/python/eyevents/summariser.py:119-125 | with x1 != x0, slope >= 2 is Vertical, slope <= 0.5 (every negative slope included) is Horisontal, otherwise Diagonal |
| Summariser.OrientationOfVerticalMove | modules/python/eyevents/summariser.py:119-125 | with x1 == x0 numpy's +inf, -inf or NaN gives Vertical, Horisontal or Diagonal as dy is > 0, < 0 or 0 |
| Summariser.FanTerms | modules/python/eyevents/summariser.py:140-141 | exactly len(pts) - 2 terms, term k the Heron area of pts[0], pts[k+1], pts[k+2] |
| Summariser.FanArea | modules/python/eyevents/summariser.py:138-141 | the accumulation loop gives the sum of the fan terms |
| Summariser.Area | modules/python/eyevents/summariser.py:130-143 | NaN below 3 rows, the fan over the raw points for 3 or 4, and for 5 or more the fan over GrahamHull of the points, the one hull graham_scan returns for them |
| Summariser.Marked | modules/python/eyevents/summariser.py:11 | exactly the rows whose event equals the mark |
| Summariser.GroupKeys | modules/python/eyevents/summariser.py:12 | the group values that occur, strictly increasing |
| Summariser.GroupRows | modules/python/eyevents/summariser.py:12 | exactly the rows of one group |
| Summariser.GroupsAreNonEmpty | modules/python/eyevents/summariser.py:12 | every group that occurs has at least one row |
| Summariser.Grouped | modules/python/eyevents/summariser.py:12 | one non-empty (key, rows) pair per group key, in key order |
| Summariser.GroupedPartitions | modules/python/eyevents/summariser.py:12 | the groups are in increasing key order, every row is in its own group, and every grouped row comes from the input |
| Summariser.SaccadeCheckIsFirstError | modules/python/eyevents/summariser.py:13-24 | all saccade statistics succeed iff the group has two rows, and otherwise the error is that of the first failing statistic in the order listed |
| Summariser.SaccadeStatsOf | modules/python/eyevents/summariser.py:24-25 | the row carries its group key and its sample count |
| Summariser.SaccadeStatsFields | modules/python/eyevents/summariser.py:13-25 | every field of a result row is the corresponding statistic of that group |
| Summariser.SaccadeParams | modules/python/eyevents/summariser.py:9-26 | one row per group of marked rows, or TypeError iff some group has fewer than two rows |
| Summariser.SaccadeParamsRow | modules/python/eyevents/summariser.py:12-25 | result row i holds the statistics of group i, with its key and sample count |
| Summariser.MarkedGroupsCarryTheMark | modules/python/eyevents/summariser.py:11-12 | every row in a group carries the mark and comes from the input |
| Summariser.FixationParams | modules/python/eyevents/summariser.py:29-41 | one row per group of marked rows holding its count, duration, centre and the area Summariser.Area gives for the group |
| Detector.LabelOf | modules/python/eyevents/detector.py:24-25 | 'Saccade' iff velAng > threshold (strict), 'Fixation' otherwise including at equality and for a missing value, TypeError for text |
| Detector.Labels | modules/python/eyevents/detector.py:24-25 | pointwise: label i depends only on row i, and the column has the input's length |
| Detector.IVT | modules/python/eyevents/detector.py:14-26 | KeyError without velAng, TypeError on text; otherwise the same rows in the same order, the input columns plus event, without above_threshold, each event being that row's label |
| Detector.IVTEventColumn | modules/python/eyevents/detector.py:25-26 | dropping above_threshold keeps the event column as it was |
| Detector.AssignThenDropKeeps | modules/python/eyevents/detector.py:23-26 | assigning event and dropping above_threshold leaves every other column's values in every row |
| Detector.IVTKeepsOtherColumns | modules/python/eyevents/detector.py:23-26 | every output column other than event is an input column with the same values |
| Detector.Blinker | modules/python/eyevents/detector.py:3-11 | always NotImplementedError |
| Detector.IDT | modules/python/eyevents/detector.py:29-30 | always NotImplementedError |
| Detector.ANH | modules/python/eyevents/detector.py:33-34 | always NotImplementedError |
| ValuesChecker.CheckSettings | modules/python/eyevents/values_checker.py:7-21 | TypeError unless the exact type is dict, then ValueError iff columns, common or loading is missing, otherwise True |
| ValuesChecker.CheckIgnoresValuesAndExtraKeys | modules/python/eyevents/values_checker.py:12-21 | only the presence of the three sections matters, not their values or any other key |
| ValuesChecker.SubclassRejected | modules/python/eyevents/values_checker.py:9-10 | a dict subclass is rejected with TypeError even with every section present |
| ValuesChecker.MissingSectionIsValueError | modules/python/eyevents/values_checker.py:12-13 | whichever section is missing, the error is ValueError |
| Preprocess.SourceName | modules/python/trajectory/__init__.py:23-26 | an int entry names the loaded column at that (Python-style) position, IndexError out of range; a string entry names itself |
| Preprocess.ColumnMapOf | modules/python/trajectory/__init__.py:20-26 | the map is built iff every entry's source resolves, and otherwise fails with IndexError |
| Preprocess.ColumnMapLastWins | modules/python/trajectory/__init__.py:22-26 | the entry no later entry overrides decides what its source column is renamed to |
| Preprocess.ColumnMapKeysNamed | modules/python/trajectory/__init__.py:22-26 | every column the map renames is the resolved source of some settings entry |
| Preprocess.ColumnMapPrefixFails | modules/python/trajectory/__init__.py:22-26 | once an entry fails to resolve, the whole loop fails |
| Preprocess.ColumnMap | modules/python/trajectory/__init__.py:20-26 | the dict-filling loop gives ColumnMapOf |
| Preprocess.Rename | modules/python/trajectory/__init__.py:30 | the columns in the map get their new names; rows are unchanged |
| Preprocess.MatchingDistinct | modules/python/trajectory/__init__.py:39 | with distinct labels a present name selects exactly its own column |
| Preprocess.SelectPositions | modules/python/trajectory/__init__.py:39 | selection fails with KeyError iff some key is not a column |
| Preprocess.SelectHasTheKeys | modules/python/trajectory/__init__.py:39 | with distinct labels the selected frame has exactly the keys as columns, in order |
| Preprocess.MinValue | modules/python/trajectory/__init__.py:33 | the smallest present value, attained by some cell; none when no value is present |
| Preprocess.AdjustTime | modules/python/trajectory/__init__.py:32-34 | KeyError without time, TypeError on text; otherwise only the time column changes |
| Preprocess.AdjustTimeStartsAtZero | modules/python/trajectory/__init__.py:32-34 | after the shift no time is negative, some time is 0, and missing times stay missing |
| Preprocess.AdjustTimeKeepsDifferences | modules/python/trajectory/__init__.py:32-34 | every difference of two times is preserved |
| Preprocess.Normalize | modules/python/trajectory/__init__.py:36-37 | KeyError without porx or pory; TypeError on text only when the resolution has a float entry, while an integer resolution repeats a text cell that many times; numbers in porx are scaled by resolution[0], in pory by resolution[1], every other column is unchanged |
| Preprocess.ScaleInt | modules/python/trajectory/__init__.py:36-37 | multiplying a column by an integer scales numbers, repeats text and keeps missing cells |
| Preprocess.NormalizeTextCell | modules/python/trajectory/__init__.py:36-37 | a text cell 'ab' becomes 'abab' under resolution (2, 3) and is a TypeError under (2.0, 3.0) |
| Preprocess.NormalizeKeepsTime | modules/python/trajectory/__init__.py:36-37 | the time column is unchanged by normalisation |
| Preprocess.PreparedLabels | modules/python/trajectory/__init__.py:30-37 | the time shift and the rescaling keep the renamed frame's columns and row count |
| Preprocess.PreparedHasTheKeys | modules/python/trajectory/__init__.py:20-39 | a prepared frame with distinct labels has exactly the keys of the columns setting, in order, and all loaded rows |
| Preprocess.PrepareLoaded | modules/python/trajectory/__init__.py:20-39 | map, rename, optional shift, optional rescaling, then selection give PreparedFrameOf |
| Preprocess.GetTrajectoryAsDf | modules/python/trajectory/__init__.py:8-39 | the settings check first, then the preparation |
| Preprocess.DispatchOf | modules/python/trajectory/__init__.py:61-69 | med or median gives the rolling median, avg, average or mean the rolling mean, any other name Savitzky-Golay |
| Preprocess.SmoothColumns | modules/python/trajectory/__init__.py:57-72 | KeyError without time; otherwise time is kept and every other column is replaced by its filtered values, all gap-filled when fillna is set |
| Preprocess.SmoothTrajectoryDf | modules/python/trajectory/__init__.py:42-73 | TypeError without settings, the frame unchanged without smoothing, otherwise SmoothColumns with the dispatched filter |
| Preprocess.TimeNeverSmoothed | modules/python/trajectory/__init__.py:58-72 | the time column is never smoothed |
| Preprocess.SmoothedFillLeavesNoGap | modules/python/trajectory/__init__.py:71-72 | with fillna a column holding at least one value has no missing value left |
| Preprocess.ReferencePoint | modules/python/trajectory/__init__.py:89-92 | without a reference point the reference is half the physical size |
| Preprocess.ReferenceIgnoresResolution | modules/python/trajectory/__init__.py:86-92 | the reference does not depend on the resolution |
| Frames.Drop | modules/python/trajectory/__init__.py:58 | drop of a label raises KeyError iff the label is absent, and otherwise removes every column so labelled |
| Frames.BFillMissing | modules/python/trajectory/__init__.py:72 | after a back-fill a cell is missing iff no cell at or after it is present |
| Frames.FFillMissing | modules/python/trajectory/__init__.py:72 | after a forward-fill a cell is missing iff no cell at or before it is present |
| Frames.FillGaps | modules/python/trajectory/__init__.py:71-72 | back-fill then forward-fill never changes a present value |
| Frames.FillGapsLeavesNoMissing | modules/python/trajectory/__init__.py:71-72 | a column with at least one value has no gap left |
| Frames.FillGapsOfEmptyColumn | modules/python/trajectory/__init__.py:71-72 | an all-missing column stays all-missing |
| Frames.FillFrame | modules/python/trajectory/__init__.py:71-72 | fillna applies the column fill to every column and keeps labels and row count |
| EyeventsTrajectory.EyeDispatchOf | modules/python/eyevents/trajectory.py:69-80 | only 'savgol' gives Savitzky-Golay, med or median the rolling median, any other name the rolling mean |
| EyeventsTrajectory.DispatchesAgree | modules/python/eyevents/trajectory.py:69-80 | the class and the module dispatch agree exactly on med, median, avg, average, mean and savgol |
| EyeventsTrajectory.Trajectory.constructor | modules/python/eyevents/trajectory.py:11-19 | settings and path are stored, the name is exactly get_shortname(path), and both frames start empty |
| EyeventsTrajectory.Trajectory.GetTrajectoryAsDf | modules/python/eyevents/trajectory.py:24-52 | raw_df becomes the prepared frame (exactly the columns-setting keys), or the stage's error leaves it unchanged |
| EyeventsTrajectory.Trajectory.SmoothTrajectoryDf | modules/python/eyevents/trajectory.py:54-85 | AttributeError before loading; without smoothing it returns and df is not assigned; otherwise df becomes the smoothed, gap-filled frame |
| EyeventsTrajectory.AngularCheck | modules/python/eyevents/trajectory.py:95-108 | passes iff time, porx and pory are columns, none holds text where it is subtracted, and neither screen size is 0; otherwise KeyError, TypeError, AttributeError or ZeroDivisionError, first in statement order |
| EyeventsTrajectory.ZeroWidthIsZeroDivision | modules/python/eyevents/trajectory.py:105-107 | with the columns readable, a zero width is a ZeroDivisionError |
| EyeventsTrajectory.Trajectory.CalculateAngularParameters | modules/python/eyevents/trajectory.py:87-129 | AttributeError (None.copy()) when df was never set; otherwise AngularCheck's exit with df unchanged, or df becomes the projection from the reference point |
| EyeventsTrajectory.Construction | modules/python/eyevents/trajectory.py:9-22 | check, load, smooth, angular in that order, the first error ending construction; without smoothing AttributeError; success iff all stages pass including AngularCheck on the smoothed frame, with the prepared frame as raw_df and its projection as df |
| EyeventsTrajectory.NoPorxNeverBuilds | modules/python/eyevents/trajectory.py:49-107 | a column map without porx gives no trajectory |
| EyeventsTrajectory.ZeroSizeNeverBuilds | modules/python/eyevents/trajectory.py:97-108 | a zero screen width or height gives no trajectory |
| EyeventsTrajectory.Build | modules/python/eyevents/trajectory.py:9-22 | a fresh trajectory with the stored name, path and settings and exactly the two frames of Construction, or Construction's error |
| Scoring.NormaliseDirectory | modules/python/eyevents/trajectories.py:18-19 | IndexError for an empty directory; otherwise it ends in a separator, extends the input, and is the input itself when that already ends in '/' or '\\' |
| Scoring.NormaliseIdempotent | modules/python/eyevents/extended_trajectories.py:23-24 | normalising twice gives the same directory as normalising once |
| Scoring.ListingOf | modules/python/eyevents/trajectories.py:20-21 | file k is the directory followed by listing entry k, and shortname k is its get_shortname |
| Scoring.TrajectoriesListing | modules/python/eyevents/trajectories.py:18-21 | fails iff the directory is empty; otherwise the listing of the normalised directory |
| Scoring.ShortnameOfListedFile | modules/python/eyevents/trajectories.py:20-21 | a listed name.ext gets the shortname name |
| Scoring.ExtendedListing | modules/python/eyevents/extended_trajectories.py:21-29 | TypeError without stimulus paths, before any directory work; IndexError for an empty directory; ValueError on a length mismatch; otherwise each file zipped with its stimulus |
| Scoring.Products | modules/python/eyevents/trajectories.py:59 | the elementwise product of two matrices of the same shape |
| Scoring.Likelihood | modules/python/eyevents/trajectories.py:57-59 | the product over all cells of count times probability; ValueError when the shapes differ |
| Scoring.LikelihoodZeroCell | modules/python/eyevents/extended_trajectories.py:66-68 | the likelihood is 0 when any count or probability cell is 0 |
| Scoring.LogLikelihood | modules/python/eyevents/trajectories.py:61-63 | the sum over all cells of count times log-probability; ValueError when the shapes differ |
| Scoring.ZeroCountsContributeNothing | modules/python/eyevents/extended_trajectories.py:70-72 | values in zero-count cells change neither the log-likelihood nor the likelihood |
| Scoring.ScoreRow | modules/python/eyevents/trajectories.py:47-52 | every column of row r scored, or ValueError with a column whose shapes differ; other rows untouched |
| Scoring.PairwiseTables | modules/python/eyevents/trajectories.py:43-52 | both tables are square over the shortnames, every (row, col) entry combining row's counts with col's (log-)probabilities; ValueError when a pair's shapes differ |
| Scoring.EntropyColumn | modules/python/eyevents/trajectories.py:54-55 | one entropy per shortname, in shortname order |

## Left out

- File and display I/O are parameters or absent. `pd.read_csv` is the already-loaded frame `loaded` (or the `load` parameter) and `listdir` is the sequence `listing`. `tqdm`, `print`, the rectangle warning message, `imread` and `help` are left out: they do not affect results.
- The numerics themselves are parameters, because they are floating-point library code: the rolling median and mean, `savgol_filter`, the `arctan` angular projection, `sqrt`, `atan2` and `log`.
- The NaN/±inf→0 replacement inside the angular stage, the `dt`/`xAng`/`velAng` columns and the `velocity_type` branch are all inside the `angular` parameter. They are IEEE and trigonometric arithmetic. The stage's exceptions before that arithmetic (missing columns, text, a zero screen size) are modelled by `EyeventsTrajectory.AngularCheck`; errors inside `savgol_filter` for the velocity are not.
- EyeventsTrajectory.AngularCheck: with duplicated `time`, `porx` or `pory` labels it looks only at the first matching column.
- IEEE rounding and `np.arange` boundary artefacts are not modelled: the grid is built over exact reals.
- The quicksort pivot is random in the source and a parameter here. The global `anchor` is threaded as a parameter.
- `modules/python/eyevents/extended_trajectory.py` is not part of this model. It is image loading and `log2` informativity.
- The batch constructors, as written, never reach their pairwise tables. For a non-empty directory the loop calls `Detector.ivt`, but `Detector` defines only `IVT`, so the first iteration raises AttributeError (modules/python/eyevents/trajectories.py:29, modules/python/eyevents/extended_trajectories.py:36); `Summariser.total_saccade_params`, `Summariser.total_fixation_params` and the attributes `transition_count`, `transition_probability`, `transition_log_probability` and `entropy` are defined nowhere either. For an empty directory `pd.concat([])` raises ValueError (trajectories.py:38, extended_trajectories.py:45). The model keeps the listing steps and states the table fill (`Scoring.ScoreRow`, `Scoring.PairwiseTables`, `Scoring.EntropyColumn`) over an input map `Scores`, as the table loop would compute it if those attributes existed; the AttributeError and ValueError exits of the constructors are not modelled.
- `modules/python/eyevents/messages.py`, `modules/python/eyevents/settings.py` and `modules/python/utils/__init__.py` are data only. The exception messages they supply are not modelled.
- A missing settings key (a KeyError from `settings['common']` and the like) is not modelled. `GazeSettings` is taken as already parsed; only the validator's own checks (`ValuesChecker.CheckSettings`) are modelled on raw objects.
- Errors raised inside the rolling window or `savgol_filter`, such as a bad window or order, are not modelled. They are library behaviour.
- AoiTrajectory.Trajectory.TrajectoryToAois: the data of a prepared trajectory is taken as (t, x, y) samples. A frame passed to `PreparedTrajectory(data)` without exactly three columns raises ValueError when `t, x, y = row[1]` unpacks a row (modules/python/AOI/Trajectory.py:80); that input is not representable and the ValueError is not modelled.
- Preprocess.SourceName: a `bool` column reference (not an `int` for `type(b) is int`) is not representable; `ColumnRef` holds only integers and strings.
- Preprocess.SelectPositions keeps every column whose label matches, as pandas does; `SelectHasTheKeys` and `PreparedHasTheKeys` state exact column lists only for distinct labels.
- Preprocess.AdjustTime: with a duplicated `time` label pandas works on every matching column, while the model (through `Frames.IndexOf`) shifts only the first one.
- Preprocess.Normalize: with a duplicated `porx` or `pory` label pandas scales every matching column, while the model scales only the first one.
- Detector.IVT: with a duplicated `velAng` label pandas compares a frame rather than a series, while the model reads the first matching column.
- AoiGrid.GridCheck: the cell counts `cellsX` and `cellsY` are `nat`. A negative count in the source gives an empty `np.arange`, so only the catch-all cell is built (modules/python/AOI/AOI.py:20-34); that case is not representable here.
- AoiGrid.Aoi.GetAoiList: the same restriction to non-negative cell counts as `AoiGrid.GridCheck`.
- Scoring.Likelihood: numpy broadcasting of compatible but unequal shapes is not modelled; every shape mismatch is reported as ValueError.
- PreparedTrajectory.LogLikelihood: numpy broadcasting is not modelled; a probability table of a compatible but unequal shape (1x1, 1xn or nx1 against n x n counts) is reported as ValueError, where numpy would broadcast it.
- PreparedTrajectory.EstimatesOf: the same broadcasting gap as `PreparedTrajectory.LogLikelihood`, for every class's table.
- Scoring.LogLikelihood: a zero count times a log-probability of -inf is NaN in numpy; the model's log-probabilities are reals, so that NaN does not arise.
- Scoring.PairwiseTables: duplicate shortnames are not modelled. The dict would keep the last trajectory and `.loc` would fill every duplicate label; the method requires only that every shortname has scores.
- Summariser.PathLength: the contract states when the result is NaN, plus non-negativity in `PathLengthNonNegative`, but not the sum of segment lengths as a closed formula.
- Concurrency: the code has none.
