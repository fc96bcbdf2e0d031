# Ranking kernels of ranking_app

ranking_app ranks products, such as headphones, that are described by a
decision matrix. `D[j][i]` is alternative `i` on criterion `j`, and `W_max[j]`
says whether criterion `j` is maximised. The project offers three methods:

- **RSM** (reference set method, `rsm.py`). Per criterion, the method sorts
  the values and derives the best value (aspiration), the worst value
  (anti-ideal), a threshold, and two status-quo values: half the range and
  the middle entry of the sorted column. It keeps the alternatives that reach
  the threshold on at least one criterion. It measures each kept alternative's
  distance from the aspiration point and from both quo points, under a chosen
  metric, and max-normalises each list of distances. The score is the
  aspiration distance minus the smaller quo distance. A dominated
  alternative scores `inf`. The ranking sorts by ascending score.
- **SP-CS** (`sp_cs.py`). The reference values are derived as in RSM, plus a
  random quo point. The thresholds are taken over the aspiration set, and the
  non-dominated alternatives are projected onto the first two criteria. For
  three pairs of a quo point and a randomly disrupted aspiration point, each
  point is projected onto the line through the pair. It gets a positional
  score along the segment and a normalised negative offset from the line. The
  score is the average over the three passes. The ranking sorts by descending
  score.
- **TOPSIS** (`topsis.py`). Each criterion row is divided by its Euclidean
  norm and weighted. The method tracks the ideal and anti-ideal value of each
  criterion, then scores each alternative by its relative closeness
  `d- / (d- + d*)` to the ideal. The ranking sorts by descending score.

The model follows the source's loops: sorting, appending and filtering loops
become methods over sequences, and TOPSIS's in-place matrix and point arrays
become `array2`/`array` updated by methods. Each method is proved against a
specification function or predicate, and lemmas state what the methods
promise: bounds, iff characterisations of the failure cases, what is kept,
and the uniqueness of a stable sort. Python's exceptions on well-shaped input
are modelled as `Result` errors:

- `IndexError`: a constant criterion column overruns the best-value loop;
  SP-CS has fewer than two criteria, or a pass leaves a point without a
  positional score; TOPSIS has more criteria than alternatives.
- `ZeroDivisionError`:
  - in TOPSIS, a zero norm, or `d- + d* == 0` for an alternative;
  - in RSM, a zero maximum of a non-empty list of Euclidean distances (for
    the scipy metrics see "Left out");
  - in SP-CS, a vertical line (`quo[0] == asp[0]`), a horizontal line
    (`a == 0` in `-1 / a`), a zero segment length `d`, or a zero maximum
    offset.
- `UnboundLocalError`: an unknown metric name.

Modules:

- `Common`: errors, extended floats with `inf`, sums of squares, max/min and
  max-normalisation.
- `Ranking`: stable sort and the `(name, score)` ranking.
- `Reference`: per-criterion reference values, shared by RSM and SP-CS.
- `Pareto`: the non-domination filter.
- `Rsm`, `SpCs` and `Topsis`: the three kernels.

## Model

| member | source | states |
|---|---|---|
| Common.Normalize | rsm.py:93 | `[e / max(d) for e in d]`: an empty list gives an empty list, since `max` is never called. A non-empty list fails with ZeroDivisionError iff its maximum is 0. Otherwise each result times the maximum gives back the input, and for non-negative inputs every value is in [0,1], with 1 attained when the list is non-empty |
| Common.MaxZeroIff | rsm.py:93 | a non-negative non-empty list has maximum 0 iff every entry is 0 |
| Common.SqDistZeroIff | rsm.py:88-92 | a squared distance is 0 iff the two vectors agree on every coordinate |
| Common.SumSquaresZeroIff | topsis.py:15-17 | a sum of squares is 0 iff every summand is 0 |
| Common.SumSquaresPrefix | topsis.py:15-17 | a partial sum of squares never exceeds a longer one, and equals it iff the entries in between are 0 |
| Ranking.PrecedesTotal | rsm.py:221 | the stable-sort precedence on positions is a strict total order |
| Ranking.PrecedesTransitive | rsm.py:221 | the stable-sort precedence is transitive |
| Ranking.StableOrder | rsm.py:33-37 | the insertion loop returns a permutation of the positions, sorted by key (ascending or descending), with equal keys in input order |
| Ranking.StableOrderDistinct | rsm.py:33-37 | distinct positions of a stable order hold distinct items |
| Ranking.StableOrderUnique | rsm.py:33-37 | two stable orders of the same keys agree on every prefix |
| Ranking.StableOrderEqual | rsm.py:33-37 | the stable sorted order is unique, so it is the order Python's stable sort produces |
| Ranking.Rank | rsm.py:217-221 | the ranking has one `(name, score)` entry per alternative, laid out in the stable sorted order of the scores |
| Ranking.RankSorted | rsm.py:221 | scores read down a ranking never go against the sort direction |
| Ranking.RankTiesKeepInputOrder | rsm.py:221 | alternatives with equal scores keep their input order |
| Ranking.InfLast | rsm.py:181-183 | in an ascending ranking, every `inf` score comes after every finite score |
| Reference.SortedAt | rsm.py:32-37 | a later sorted entry is never better than an earlier one |
| Reference.SortedEnds | rsm.py:38-39 | the first sorted entry is the best value (max or min by direction) and the last is the worst |
| Reference.ExtremeIsMax | rsm.py:38 | an entry no smaller than every entry is the column's `max` |
| Reference.ExtremeIsMin | rsm.py:38 | an entry no larger than every entry is the column's `min` |
| Reference.ThresholdBetween | rsm.py:40-43 | the RSM threshold lies between the best and the worst value |
| Reference.QuoMedianBetween | rsm.py:47 | the quo-median value lies between the best and the worst value |
| Reference.Derive | rsm.py:31-52 | one criterion fails with IndexError iff its column is constant. Otherwise the result holds the stable sort, the best, worst, threshold, quo-mean and quo-median values, and exactly the positions holding the best value |
| Reference.CollectBest | rsm.py:48-52 | the best-index loop overruns (IndexError) iff the column is constant. Otherwise it collects exactly the positions whose value equals the best value |
| Reference.ConstantWhenAllBest | rsm.py:50 | if the best value fills the whole sorted column, the column is constant |
| Reference.BestPrefix | rsm.py:48-52 | the sorted prefix before the first non-best entry holds exactly the best-value positions |
| Reference.DeriveAll | rsm.py:30-54 | the loop over criteria fails with IndexError iff some column is constant. Otherwise every criterion is described, and the aspiration set is exactly the positions that hold some criterion's best value |
| Reference.DescribesStep | rsm.py:30-54 | appending one more criterion's description keeps every criterion so far described |
| Reference.BestUnionAppend | rsm.py:53-54 | adding a criterion's best indices to the set grows the union by exactly those indices |
| Reference.BestUnionHolders | rsm.py:53-54 | a position is in the union iff it holds the best value of some criterion |
| Reference.AspirationHolders | rsm.py:53-54 | the aspiration set of described criteria is the set of positions that hold some best value |
| Reference.AspirationNonEmpty | rsm.py:53-54 | the aspiration set is non-empty and holds only valid positions |
| Reference.ReferencePoints | rsm.py:44-47 | the aspiration, anti-ideal, quo-mean and quo-median points have, per criterion, the values the source derives |
| Reference.CollectPoints | rsm.py:44-47 | the appending loop puts criterion j's best, worst, quo-mean and quo-median at entry j of the four points |
| Reference.PointsFromRefs | rsm.py:44-47 | points read off described criteria are the reference points of the matrix |
| Reference.PointsUnique | rsm.py:30-47 | the aspiration, anti-ideal, quo-mean and quo-median points and the thresholds are determined by the matrix and the directions |
| Pareto.Filter | rsm.py:56-69 | the non-domination loop returns, in ascending order, exactly the alternatives that reach the threshold on some criterion (`>=` when maximised, `<=` when minimised) |
| Pareto.Thresholds | rsm.py:40-43 | `opt_threshold` has entry j equal to criterion j's threshold |
| Pareto.BestHolderPasses | rsm.py:56-69 | the holder of a criterion's best value passes that criterion's RSM threshold |
| Pareto.AspirationKept | rsm.py:56-69 | every aspiration position survives the RSM filter, so `pareto` is never empty |
| Pareto.AtLeastPosition | rsm.py:56-69 | in a strictly ascending list of positions, entry p is at least p |
| Pareto.AtMostRoom | rsm.py:56-69 | in a strictly ascending list below m, entry p leaves room for the entries after it |
| Pareto.IdentityPrefix | rsm.py:56-69 | a strictly ascending list containing every position below m starts 0, 1, 2, ... |
| Pareto.KeptAllIff | rsm.py:56-69 | the kept list has length m iff every alternative is kept |
| Pareto.AscendingUnique | rsm.py:56-69 | two strictly ascending lists with the same members are equal, so the kept list is determined by which alternatives pass |
| Rsm.ParseMetricName | rsm.py:87-160 | every metric is recognised under the name the source compares against |
| Rsm.Columns | rsm.py:80-85 | `data` has one row per criterion and, for kept position p, the column of alternative `pareto[p]` |
| Rsm.Select | rsm.py:80-85 | the nested append loop builds exactly `Columns(D, pareto)` |
| Rsm.Distances | rsm.py:87-176 | one distance per kept alternative |
| Rsm.DistancesFacts | rsm.py:87-176 | distances are never negative, and a Default (Euclidean) distance is 0 iff the alternative coincides with the reference point |
| Rsm.SquaredDistances | rsm.py:88-91 | the accumulated squares are the squared Euclidean distances of each kept alternative from the reference point |
| Rsm.AddCriterion | rsm.py:90-91 | the inner loop for criterion i adds each alternative's squared difference on criterion i to its running sum |
| Rsm.MetricDistances | rsm.py:87-176 | each metric branch yields the distances `Distances` defines for that metric |
| Rsm.Combined | rsm.py:178-180 | each score is the aspiration distance minus the smaller of the two quo distances; with normalised distances every score is in [-1,1] |
| Rsm.Combine | rsm.py:178-180 | the appending loop builds exactly `Combined` |
| Rsm.RetainedScores | rsm.py:93-180 | the scores exist iff all three distance lists normalise, and otherwise fail with ZeroDivisionError; for non-negative distances every score is in [-1,1] |
| Rsm.KeptScores | rsm.py:87-180 | the kept scores are `RetainedScores` of the metric's three distance lists, each in [-1,1] |
| Rsm.InsertDominated | rsm.py:181-183 | after the `insert(j, inf)` loop the list has length m, holds `inf` exactly at the dominated positions, and holds kept alternative p's score at position `pareto[p]` |
| Rsm.NextKept | rsm.py:182 | scanning positions in order, a kept position j is the next unconsumed entry of the ascending `pareto` list |
| Rsm.InsertAt | rsm.py:183 | Python's `list.insert(j, x)` places x at j and shifts the tail by one |
| Rsm.Screen | rsm.py:21-69 | the first half of rsm() fails with IndexError iff some criterion is constant. Otherwise it returns the reference points and the non-empty ascending list of kept alternatives |
| Rsm.Score | rsm.py:80-185 | an unknown metric raises UnboundLocalError. With a known metric it succeeds iff all three distance lists of the kept alternatives normalise (`Scorable`); then the retained scores are the normalised combination, each in [-1,1], placed at the kept positions, with `inf` elsewhere |
| Rsm.Rsm | rsm.py:11-185 | rsm() raises IndexError iff some criterion is constant. Otherwise it computes the reference points and the kept list, raises UnboundLocalError for an unknown metric, and with a known metric succeeds iff `Scorable` holds for them; on success it returns them with the full score vector |
| Rsm.RsmInputsUnique | rsm.py:21-69 | the reference points and the kept list rsm() computes are determined by the matrix, so whether it succeeds depends on the input alone |
| Rsm.DefaultNormalizes | rsm.py:88-93 | with the Default metric a list of distances to a reference point normalises iff some kept alternative is not at that point |
| Rsm.DefaultScorable | rsm.py:88-106 | with the Default metric rsm() gets through its normalisation iff, for each of the aspiration, quo-mean and quo-median points, some kept alternative lies away from it |
| Rsm.RankRsm | rsm.py:217-221 | the RSM ranking is the stable ascending order of the scores, and every dominated alternative comes after every retained one |
| SpCs.ScaleUnit | sp_cs.py:41 | a non-negative range scaled by a draw in [0,1) stays within the range |
| SpCs.RandomCoordinate | sp_cs.py:41 | a random quo coordinate lies between the worst value and worst + abs(best - worst) |
| SpCs.RandomQuo | sp_cs.py:41 | `quo_point_random` has, per criterion, the coordinate drawn from that criterion's best and worst values |
| SpCs.ThresholdValue | sp_cs.py:53-64 | for a maximised criterion, the running minimum over the aspiration set (`inf` if the set is empty); for a minimised one, the running maximum seeded with 0 |
| SpCs.Thresholds | sp_cs.py:52-64 | `threshold_value` has, per criterion, that criterion's threshold over the aspiration set |
| SpCs.AspirationPassesAll | sp_cs.py:66-79 | every aspiration position passes every SP-CS threshold, so it is not dominated |
| SpCs.Disrupt | sp_cs.py:81-83 | a disrupted aspiration point has one coordinate per criterion |
| SpCs.Project2 | sp_cs.py:85-89 | `data_0` and `data_1` are the first two criteria of the kept alternatives. With fewer than two criteria and a kept alternative, reading `D[1]` raises IndexError |
| SpCs.Line | sp_cs.py:95-96 | the line through the quo and aspiration points: fails with ZeroDivisionError iff their first coordinates are equal, and otherwise both points lie on it |
| SpCs.PerpendicularMeets | sp_cs.py:101-103 | a non-zero slope and its perpendicular's slope never cancel, so the foot of the perpendicular is defined |
| SpCs.Foot | sp_cs.py:101-104 | the foot of the perpendicular fails with ZeroDivisionError iff the slope is 0. Otherwise the foot lies on the line |
| SpCs.Classify | sp_cs.py:107-112 | within 1% of the segment the score is d1/d; beyond the aspiration end it is 1 + d2/d; before the quo end it is -d1/d; with d1 == d2 outside the band no score is appended. Division by d = 0 fails. For non-negative lengths the three cases land in [0,1.01), [1,∞) and (-∞,0] |
| SpCs.InBandQuotient | sp_cs.py:107-108 | inside the band the segment length is non-zero and d1/d is in [0,1.01) |
| SpCs.BeyondQuotient | sp_cs.py:109-110 | beyond the aspiration end the score 1 + d2/d is at least 1 |
| SpCs.BeforeQuotient | sp_cs.py:111-112 | before the quo end the score -d1/d is at most 0 |
| SpCs.Offsets | sp_cs.py:115 | `[-el / max(score2)]` fails exactly as max-normalisation fails (an empty list gives an empty list). Otherwise it is the negated normalisation, in [-1,0], with -1 attained when there is a point |
| SpCs.PointScore | sp_cs.py:100-114 | one point's positional score and offset. Only division by zero can fail, and the offset is never negative |
| SpCs.Collect | sp_cs.py:100-114 | the loop over points succeeds iff every point does. Every point contributes its offset, and score1 is full-length iff every point got a positional score |
| SpCs.CollectErr | sp_cs.py:100-114 | a failed point ends the pass with that error |
| SpCs.PointResults | sp_cs.py:100-114 | one result per kept point |
| SpCs.SegmentLength | sp_cs.py:97 | the segment length d is non-negative, and 0 iff the quo and aspiration points agree on the first two criteria |
| SpCs.PairSpec | sp_cs.py:95-115 | one pass fails only by division by zero. Otherwise every offset is in [-1,0], with -1 attained when there is a point |
| SpCs.PairScore | sp_cs.py:95-115 | the loop body for one (quo, aspiration) pair computes exactly `PairSpec` |
| SpCs.PassAccumulated | sp_cs.py:117-118 | a full pass adds its score1[i] + score2[i] to every running sum |
| SpCs.AddPass | sp_cs.py:117-118 | `score_sum[i] += score1[i] + score2[i]` succeeds iff score1 covers every point, and then adds each pair |
| SpCs.Accumulate | sp_cs.py:91-118 | `score_sum` after the three passes: it exists iff every pass is full, and each entry is the sum of the three passes' contributions |
| SpCs.Average | sp_cs.py:91-120 | `score_sum / 3` exists iff every pass is full, and then each entry is a third of the summed contributions |
| SpCs.PassPairs | sp_cs.py:92-94 | the three passes pair the quo-mean, quo-median and random quo points with the first, second and third disrupted aspiration points, in that order |
| SpCs.Projection | sp_cs.py:85-89 | row j restricted to the kept alternatives, in kept order |
| SpCs.Screen | sp_cs.py:20-79 | the first half of sp_cs() fails with IndexError iff some criterion is constant. Otherwise it returns the reference points, the random quo point, the aspiration set, the thresholds and exactly the non-dominated alternatives, every aspiration position among them |
| SpCs.ScoresEveryAlternative | sp_cs.py:66-79 | sp_cs returns a score for every alternative iff every alternative passes some threshold |
| SpCs.ThresholdUnique | sp_cs.py:53-64 | a criterion's threshold over a given aspiration set is unique |
| SpCs.ThresholdsUnique | sp_cs.py:52-64 | so is the whole `threshold_value` list |
| SpCs.KeptUnique | sp_cs.py:20-79 | the aspiration set, the thresholds and the kept list are determined by the matrix and the directions |
| SpCs.ScreenedUnique | sp_cs.py:20-79 | every value the second half of sp_cs() reads is determined by the matrix, the directions and the draws |
| SpCs.SucceedsUnique | sp_cs.py:20-120 | so whether the second half succeeds depends on the inputs alone |
| SpCs.Score | sp_cs.py:81-120 | with fewer than two criteria it raises IndexError. It succeeds iff there are two criteria and each of the three passes over the projected kept alternatives succeeds and scores every one of them (`Succeeds`). Then the outcome holds the projections, the three disrupted points, and each score equal to the average of the three passes |
| SpCs.SpCs | sp_cs.py:9-122 | sp_cs() fails on a constant criterion or fewer than two criteria. Otherwise it computes the screened values and succeeds iff `Succeeds` holds for them; on success it returns them with the scored outcome above |
| SpCs.RankSpCs | sp_cs.py:154-158 | the SP-CS ranking raises IndexError iff there are fewer scores than names. Otherwise it is the stable descending order of the scores |
| Topsis.EuclidNorm | topsis.py:8-18 | the norm is the square root of the sum of the squares of the first len(D) entries of row j. It raises IndexError iff the row is shorter, and it is 0 iff those entries are all 0 |
| Topsis.Norms | topsis.py:46-47 | one norm per criterion |
| Topsis.Directions | topsis.py:38-44 | `W_max`, or every criterion maximised when it is None |
| Topsis.Row | topsis.py:48-49 | one normalised value per alternative |
| Topsis.NMatrix | topsis.py:46-49 | row j of N is `W[j] * D[j][i] / norm_j` |
| Topsis.Ideal | topsis.py:38-57 | maximised: the largest value, or 0 if all are below 0; minimised: the smallest value |
| Topsis.AntiIdeal | topsis.py:38-57 | maximised: the smallest value; minimised: the largest value, or 0 if all are below 0 |
| Topsis.IdealBeyondAntiIdeal | topsis.py:50-57 | the ideal value is never on the wrong side of the anti-ideal value |
| Topsis.IdealPoint | topsis.py:32-57 | `p_ideal` has, per criterion, that criterion's ideal value |
| Topsis.AntiIdealPoint | topsis.py:33-57 | `p_anti_ideal` has, per criterion, that criterion's anti-ideal value |
| Topsis.Closeness | topsis.py:67 | `d- / (d- + d*)` fails with ZeroDivisionError iff the sum is 0. For non-negative distances it is in [0,1], 1 iff d* = 0, and 0 iff d- = 0 |
| Topsis.ClosenessFacts | topsis.py:67 | the same bounds and extremes for the quotient itself |
| Topsis.Distance | topsis.py:59-66 | a distance is non-negative, and 0 iff the alternative coincides with the point |
| Topsis.Scores | topsis.py:59-67 | the scores fail iff some alternative's closeness divides by zero; otherwise each is its closeness |
| Topsis.TopsisSpec | topsis.py:21-69 | topsis() fails only with IndexError or ZeroDivisionError, and otherwise gives one score per alternative |
| Topsis.Raise | topsis.py:50-57 | `if p < x: p = x` leaves p or x, whichever is larger |
| Topsis.Lower | topsis.py:50-57 | `if p > x: p = x` leaves p or x, whichever is smaller, and never `inf` |
| Topsis.RunningIdeal | topsis.py:50-57 | the running ideal is finite and non-negative when maximising; when minimising it is `inf` only before the first entry |
| Topsis.RunningAntiIdeal | topsis.py:50-57 | the running anti-ideal is `inf` only before the first entry when maximising, and finite and non-negative when minimising |
| Topsis.RunningValues | topsis.py:50-57 | after i entries, the running ideal and anti-ideal are the closed-form maximum and minimum, with the 0 seed |
| Topsis.RunningEnd | topsis.py:50-57 | after the whole row the running values are the ideal and anti-ideal values |
| Topsis.Track | topsis.py:50-57 | the four comparisons raise or lower entry j of the ideal and anti-ideal arrays and change no other entry |
| Topsis.FillCell | topsis.py:49-57 | one cell: `N[j][i] = W[j] * D[j][i] / en`, then the ideal and anti-ideal updates; no other cell changes |
| Topsis.FillRow | topsis.py:48-57 | the inner loop writes row j of N and leaves the running ideal and anti-ideal of row j at their end values |
| Topsis.FillRows | topsis.py:46-57 | the outer loop fails with ZeroDivisionError iff some norm is 0. Otherwise every row of N is written and every running value is complete |
| Topsis.FillMatrix | topsis.py:46-57 | the normalisation loop fails with IndexError iff there are more criteria than alternatives, and with ZeroDivisionError iff a norm is 0. Otherwise N, `p_ideal` and `p_anti_ideal` are the normalised matrix and its ideal and anti-ideal points |
| Topsis.ScoreOne | topsis.py:59-67 | one alternative's score is the closeness of its distances to the ideal and anti-ideal points |
| Topsis.ScoreAll | topsis.py:59-67 | the distance loop yields exactly `Scores` |
| Topsis.Topsis | topsis.py:21-69 | topsis() returns exactly what the normalisation, ideal points and closeness define, failing at the first bad value |
| Topsis.ScoresInUnit | topsis.py:67-69 | every score topsis returns is in [0,1] |
| Topsis.ScoreExtremes | topsis.py:59-67 | a score is 1 iff the alternative is the ideal point, and 0 iff it is the anti-ideal point |
| Topsis.NormZeroIff | topsis.py:8-18 | a norm is 0 iff the first len(D) entries of its row are 0 |
| Topsis.TopsisFailures | topsis.py:46-67 | topsis raises IndexError iff there are more criteria than alternatives. It raises ZeroDivisionError when a norm is 0. With non-zero norms it fails iff some alternative is both the ideal and the anti-ideal point |
| Topsis.RankTopsis | topsis.py:86-90 | the TOPSIS ranking is the stable descending order of the scores |

## Left out

- The PyQt6 interface (`main.py`) and the Excel reading in `compute_*`:
  the reading of `Wagi`, `Maksymalizacja` and `Nazwa` and the column scan.
  The model starts from the decision matrix, the directions, the weights
  and the names.
- The `rank_str` text built with `'{0:1.3f}'`. The ranking is modelled as
  the sorted list of `(name, score)` entries.
- Floating point. Every value is an unbounded real. IEEE rounding, NaN and
  overflow are not modelled, and `inf` exists only where the source writes
  `float('inf')` (the `Ext` type).
- `math.sqrt` is a parameter `Sqrt`. Where a property needs it, the model
  assumes only that `Sqrt` is non-negative on non-negative arguments and
  zero exactly at zero (`SqrtSpec`).
- The scipy metrics `braycurtis`, `canberra`, `chebyshev` and `cityblock`
  are one parameter `Scipy`. The model assumes only that they are
  non-negative (`ScipyNonneg`). The numpy array conversion around them is
  not modelled.
- `random.random()` draws are parameters: `quoDraws`, `jitter1`, `jitter2`
  and `jitter3`, each in [0,1) (`Draws`).
- Python's sort algorithm itself. The model sorts by stable insertion and
  proves that the stable sorted order is unique, so it is the order
  `list.sort` produces.
- Input shapes are preconditions, not errors:
  - the matrix has at least one criterion and one alternative, with rows of
    equal length (`WellShaped`);
  - `W_max` has one entry per criterion;
  - `W` has at least one entry per criterion;
  - there is one name per alternative.
  Ragged or empty input is not modelled.
- The commented-out quo-domination check (rsm.py:71-78) is not code and is
  not modelled.
- Rsm.Score: a zero maximum distance is reported as ZeroDivisionError
  without saying which of the three lists caused it.
- Rsm.KeptScores: for the scipy metrics (Bray-Curtis, Canberra, Chebyshev,
  City Block) the distances are numpy floats, and dividing by a zero maximum
  gives `nan` with a warning, not ZeroDivisionError. The model has no `nan`
  and reports DivisionByZero for every metric.
- Rsm.Score: the same holds for its DivisionByZero with a scipy metric.
- Rsm.Rsm: the same holds for its DivisionByZero with a scipy metric.
- SpCs.PointScore: only the error kind and the sign of the offset are
  stated. The positional score itself is stated by SpCs.Classify, and the
  foot of the perpendicular by SpCs.Foot.
- SpCs.Disrupt: only the length is stated. Each coordinate is
  `coord * (lo + draw * width)`, which holds by definition.
- Behaviours of the code that differ from a plain reading of the method:
  - The TOPSIS norm sums only the first `len(D)` entries of row j (the loop
    runs over `range(len(D))`, not over the alternatives). It raises
    IndexError when there are more criteria than alternatives. The model
    does the same.
  - The quo-mean value is `abs(best - worst) / 2`, half the range, not the
    midpoint.
  - The quo-median value is the entry at index `m // 2` of the sorted
    column.
  - A constant criterion, or a single alternative, makes the best-index
    loop read past the end (IndexError) in both RSM and SP-CS.
  - The SP-CS threshold of a minimised criterion is seeded with 0, so it is
    never below 0.
  - SP-CS uses only the first two criteria in its geometry.
  - The SP-CS ranking reads one score per alternative. Only kept
    alternatives are scored, and a point with `d1 == d2` outside the band
    appends no positional score, so the ranking, or the summing loop
    before it, can raise IndexError.
