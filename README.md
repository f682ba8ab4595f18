# llh-combiner, modelled in Dafny

llh-combiner combines log-likelihood profiles from several sets of "scrambled
trials". Each input file holds an optional bias line, then a header
`flux_min flux_max nsamples`. Each line after that is one trial: its true flux,
then `nsamples` log-likelihood values sampled on `linspace(flux_min, flux_max, nsamples)`.

This project models three parts of it:

* **merge.py `main`:** the combination engine. It reads the heads of all
  files and checks their headers. It sets up the coarse grid `x` and the fine
  grid `xs`. It then reads one line per file in lock-step until a file runs
  out, checking that all files agree on the true flux.
  * Without `--interp`, it sums the profiles on the coarse grid.
  * With `--interp`, it interpolates each profile onto the fine grid (optionally
    through the bias remap `(x - b) / a`), sums the curves, finds the maximum,
    and checks whether the true flux lies inside the region within 1.0 of the maximum.
  * It writes one row `(true flux, max flux, max llh)` per trial and keeps the
    counters `line_count`, `overflow_count` and `count_correct`.
* **shuffle.py:**
  * `find_change_indices` cuts a flux-sorted table into maximal ranges of constant flux.
  * `shuffle` permutes the rows of one range.
  * `main` sorts, copies and shuffles every range.
* **ntrials.py `main`:** sorts a table by flux and counts the trials at each flux.

The modules:

* `Wrappers`: Option and Result.
* `Runs`: maximal runs of a column, their values and lengths, and index
  permutations. These are shared by shuffle.py and ntrials.py.
* `Shuffle`: the imperative `find_change_indices`, `shuffle` and the loop of
  `main`. `shuffle` writes into an `array` in place, like the numpy copy `odata`.
* `NTrials`: the imperative counting loop, proved against `Runs`.
* `Numeric`: Python's `float()` and `int()` on one token.
* `LinearInterp`: `np.linspace`, the bias remap and `np.interp`.
* `Profile`: merge.py as specification functions. It covers reading heads,
  set-up, reading a trial, the naive and interpolated combination, the trial
  sequence and a whole run.
* `Merge`: merge.py as imperative methods (loops over files, rows, samples and
  trials). Each method is proved equal to its `Profile` function.
* `Properties`: what the script promises, proved about `Profile`.

Nothing here reads files. An input file is its lines, each already split into
whitespace-separated tokens (`Profile.Source`). The random shuffle and numpy's
`argsort` are parameters:

* `Shuffle.ShuffleFile` and `NTrials.TrialsAtFluxes` take a sorting order whose
  property (`Runs.IsSortingOrder`) is their precondition.
* Shuffling takes a function from index lists to index lists that keeps the
  multiset of its argument.

Where the script crashes (an uncaught `IndexError` or `ValueError`) or prints
an error and returns, the model ends the run with `Failed(reason)`. The
reasons are listed in `Profile.Failure`. Rows written before the failure stay
in the report.

Four things the code does that are easy to misread, and that the model follows:

* **The grid-index-to-flux conversion** is `index * (flux_max - flux_min) / nsamples`
  without interpolation (merge.py:178). With interpolation it is
  `index * (flux_max - flux_min) / (10 * nsamples)` (merge.py:132, 145-146).
  * Neither adds `flux_min`.
  * Both divide by the number of points, not the number of intervals.
  * Example: on the grid `0, 1, 2, 3`, naive index 2 maps to 1.5, not to the grid point 2.0.
* **Only the first file's header defines the grid** (merge.py:49-56). With
  `--interp`, the other headers are not checked at all.
* **Every bias line is parsed whenever `--interp` is given**, even without
  `--bias` (merge.py:79-84). A malformed bias line therefore fails an
  interpolated run with or without `--bias`.
* **`line_count` also counts the final pass** that meets the end of the data
  (merge.py:65, 70-77). A completed run reports one more line than it has
  trials, and the printed containment percentage divides by that number.

`np.interp` is modelled with numpy's own order of tests (`LinearInterp.InterpAt`).
A point above the last sample point gives the last value. Otherwise a point below
the first gives the first value, a point equal to the last gives the last value,
and any other point is interpolated across the last segment whose left end is at or
below it. On increasing sample points this is the usual clamped piecewise-linear
interpolation. It also fixes what the script computes when the sample points do not
increase: a header with `flux_min == flux_max`, a reversed header, or a negative
bias scale.

## Model

| member | source | states |
|---|---|---|
| Profile.ReadHead | merge.py:24-31 | A file whose first line holds the token `Bias` gives that line as bias and its second line as header, and its trials start at line 2. Otherwise the default bias `1 * x + 0` is used, the first line is the header and trials start at line 1. Either way trials start after the head. |
| Profile.SetUp | merge.py:41-56 | Set-up succeeds exactly when there is at least one file, the first header has at least three tokens (its first three being two floats and a non-negative integer), and, without interpolation, every header equals the first. A mismatch without interpolation is reported as such. On success, the grid bounds and count are the values of those tokens. The coarse grid is `linspace(flux_min, flux_max, nsamples)`, and the fine grid has ten times as many points and padding 0. |
| Merge.SetUpGrids | merge.py:41-56 | The header loop and the grid set-up return exactly what `Profile.SetUp` gives. |
| Profile.AddInto | merge.py:173-174 | numpy's `acc += v` succeeds exactly when `v` has the length of `acc` or a single element. It keeps the length of `acc`, and each element becomes itself plus `v`'s element at that position, or plus `v`'s single element. |
| Merge.AddInPlace | merge.py:174 | The in-place element loop over an array succeeds exactly when `Profile.AddInto` does. On success the array holds its result; on failure the array is unchanged. |
| Profile.Max | merge.py:176 | `np.max` is an upper bound of the profile and is attained in it. |
| Profile.ArgMax | merge.py:178 | `np.argmax` is an index holding the maximum, and every earlier index holds less. |
| Profile.FirstAbove | merge.py:137-140 | The low end of the containment scan holds a value above the threshold, and every earlier index holds at most the threshold. |
| Profile.LastAbove | merge.py:141-144 | The high end of the containment scan holds a value above the threshold, and every later index holds at most the threshold. |
| Merge.ScanLow | merge.py:137-140 | The forward scan loop stops at the first index above `maxllh - 1.0`. |
| Merge.ScanHigh | merge.py:141-144 | The backward scan loop stops at the last index above `maxllh - 1.0`. |
| Profile.ReadTrial | merge.py:66-77 | Reading one trial from every file gives the rows, one per file, or the end of the data, or a failure. Which one is stated by `Properties.ReadTrialDecided`. |
| Merge.ReadTrialRows | merge.py:66-77 | The loop over the files for one trial gives exactly `Profile.ReadTrial`: the rows, the end of data, or the failure. |
| Properties.ReadTrialDecided | merge.py:66-77 | A trial reads as rows exactly when every file's line is numeric, non-empty and carries the first file's true flux; the rows are then those lines. Otherwise the first file whose line is not good decides: an empty line ends the data whatever later files hold, and a malformed number or a differing flux is an error. |
| Profile.RowsAreAligned | merge.py:66-77 | Rows read for a trial are one non-empty parsed line per file, all with the first file's true flux. |
| Profile.RowsGiveLines | merge.py:68-72 | A file that gives a row for trial `k` still has a line for it. |
| Merge.SumNaive | merge.py:172-174 | The naive summing loop gives exactly `Profile.NaiveSum`. |
| Properties.NaiveSumIsColumnSum | merge.py:172-174 | The naive sum exists exactly when every row's samples broadcast against the first row's. It then has the first row's length, and each column holds the sum of that column over the files (a one-sample row adds its value everywhere). |
| Profile.ParseBias | merge.py:83-84 | A bias line parses exactly when it has at least eight tokens and tokens 3 and 7 are floats. Their values are then the scale `a` and the offset `b`. |
| Profile.ParseBiases | merge.py:80-84 | The bias list parses exactly when every bias line does, and then holds the `(a, b)` of each line at that line's position. |
| Merge.ReadBiases | merge.py:80-84 | The loop over bias lines gives exactly `Profile.ParseBiases`: every `(a, b)` from tokens 3 and 7, or failure if any is short or not numeric. |
| Merge.BiasPrefixFails | merge.py:82-84 | Once one bias line fails to parse, the whole list fails. |
| Merge.SumCurves | merge.py:102-109 | The loop interpolating and adding each file's curve gives exactly `Profile.InterpSumFrom` from zeros. |
| Properties.InterpSumIsCurveSum | merge.py:102-109 | The interpolated sum exists exactly when the bias lines parse, the grid is non-empty, every row has one sample per grid point and, with `--bias`, no scale `a` is zero. Each fine-grid point then holds the sum over the files of `np.interp` of their profiles, over the coarse grid or, with `--bias`, over its remap `(x - b) / a`. |
| Properties.DefaultBiasIsIdentity | merge.py:31 | The default bias line parses as scale 1 and offset 0, and remapping by it leaves the coarse grid as it is. |
| Properties.DefaultBiasesChangeNothing | merge.py:102-109 | When no file has a bias line, the interpolated sum with `--bias` equals the one without it. |
| Properties.GridShape | merge.py:49-56 | The coarse grid has `nsamples` points from `flux_min` to `flux_max`, and the fine grid has ten times as many over the same range. Both increase strictly when `flux_min < flux_max`. |
| Properties.NaiveOverflowAtTop | merge.py:178-180 | For a header with `flux_min < flux_max` and `nsamples > 0`: without interpolation, a trial overflows exactly when its peak index exceeds 0.95 × `nsamples`. |
| Properties.InterpOverflowAtTop | merge.py:132-134 | For a header with `flux_min < flux_max` and `nsamples > 0`: with interpolation, a trial overflows exactly when its peak index exceeds 0.95 × `10 * nsamples`. |
| Properties.ContainmentAroundPeak | merge.py:137-144 | On any non-empty curve, the low end of the containment region lies at or before the peak index and the high end at or after it. |
| Properties.ContainmentBracketsPeak | merge.py:137-146 | On a non-decreasing flux range, the same holds of the indices and of their fluxes. |
| Profile.EvaluateNaive | merge.py:170-181 | A naive trial succeeds exactly when the rows' samples broadcast into a non-empty sum and `nsamples > 0`. Its row then holds the first file's true flux, and it never counts as contained. |
| Profile.EvaluateInterp | merge.py:79-152 | An interpolated trial succeeds exactly when the interpolated sum does, and its row then holds the first file's true flux. |
| Merge.CombineNaive | merge.py:170-181 | The naive combination gives exactly `Profile.EvaluateNaive`, failures included. |
| Merge.CombineInterpolated | merge.py:79-152 | The interpolated combination gives exactly `Profile.EvaluateInterp`, failures included. |
| Merge.CombineTrial | merge.py:79-181 | The `--interp` branch gives exactly `Profile.Evaluate`. |
| Properties.OutcomeFacts | merge.py:129-181 | A combined trial reports the first file's true flux. It overflows exactly when its maximum flux exceeds 0.95 of the flux range, and is never contained without interpolation. |
| Properties.NaiveOutcome | merge.py:172-181 | In a naive trial, `maxllh` bounds the summed profile and is attained in it. It is attained first at an index `k`, and `maxflux` is `k * (flux_max - flux_min) / nsamples`. |
| Properties.SumOutcome | merge.py:129-150 | The outcome computed from a summed curve: `maxllh` bounds the curve and is attained first at the index whose fine-grid flux is `maxflux`. Containment means the true flux lies strictly between the fluxes of the containment region's ends. |
| Properties.InterpolatedOutcome | merge.py:129-150 | In an interpolated trial, `maxllh` bounds the summed curve and is attained in it. It is attained first at an index `k`, and `maxflux` is the fine-grid flux of `k`. The trial counts as contained exactly when its true flux lies strictly between the fluxes of the first and the last index above `maxllh - 1`. |
| Profile.Trials | merge.py:60-181 | The trials from `k` on, until one gives no outcome, with the status that ends them. The first file has a line for every outcome. |
| Merge.TrialStep | merge.py:64-181 | One pass of the trial loop either ends the run with the status `Profile.Trials` gives at trial `k`, or yields the first outcome and leaves the rest to trial `k + 1`, which the first file then still has. |
| Merge.RunTrials | merge.py:60-181 | The trial loop writes `Profile.RowsOf` the trial outcomes and ends with their status. `line_count` is one more than the number of outcomes; `overflow_count` and `count_correct` count the overflowing and contained outcomes. |
| Profile.Run | merge.py:41-185 | A whole run. A `line_count` of 0 comes only with no rows and a failed status, as after a failed set-up. Otherwise `line_count` is the number of rows plus one. Both other counters are at most the number of rows. |
| Merge.Merge | merge.py:41-181 | `main` from the header check on gives exactly `Profile.Run`. |
| Properties.TrialsFirst | merge.py:64-181 | The first outcome from trial `k` on, if any, reports trial `k`, and the others are those from trial `k + 1` on. Reporting a trial means: the outcome is what that trial's rows evaluate to on their own (`Properties.Evaluated`); it holds the trial's true flux; it overflows exactly when its maximum flux is in the top of the range; and it is never contained without interpolation. |
| Properties.TrialsInOrder | merge.py:64-181 | Proved by induction down from the end of the first file: the outcomes from trial `k` on report trials `k`, `k + 1`, … in order, in the sense of `Properties.TrialsFirst`. |
| Properties.TrialsReport | merge.py:60-181 | The `n`-th outcome of a run is the evaluation of trial `n` on its own, with that trial's true flux and overflow. |
| Properties.StatusHere | merge.py:64-77 | When trial `k` gives no outcome, the run completes exactly when that read met the end of the data. Otherwise the status is the one from trial `k + 1` on. |
| Properties.CountsOfOutcomes | merge.py:129-181 | Counting overflowing outcomes is counting rows whose maximum flux is in the top 5% of the range. At most every outcome is contained, and none is without interpolation. |
| Properties.RunReport | merge.py:41-185 | A failed set-up ends the run before any trial with zero counters. Otherwise the `n`-th row is the summary of trial `n`, evaluated on its own, and holds that trial's true flux. `line_count` is rows + 1, `overflow_count` is the number of rows whose maximum flux exceeds 0.95 of the range, and `count_correct` is at most the number of rows and 0 without `--interp`. |
| Numeric.ParseInt | merge.py:51 | `int` accepts only non-empty tokens, and gives a negative value only for a token starting with `-`. |
| Numeric.IntLiteralAccepted | merge.py:51 | `int` accepts exactly the tokens written as an optional sign followed by at least one decimal digit. |
| Numeric.ParseFloat | merge.py:49-50 | `float` accepts only non-empty tokens. |
| Numeric.FloatLiteralChars | merge.py:49-50 | `float` accepts only tokens made of digits, signs, a decimal point and the exponent marks `e` and `E`. |
| Numeric.IntTokenRoundTrip | merge.py:51 | `int` reads back every integer written in decimal. |
| Numeric.FloatOfIntToken | merge.py:49-51 | `float` reads an integer token as the same value `int` does. |
| Numeric.FloatIntTokenRoundTrip | merge.py:83-84 | `float` reads back every integer written in decimal, as the default bias tokens `1` and `0`. |
| LinearInterp.LinspaceShape | merge.py:52-56 | `np.linspace` starts at `start`, ends at `stop` with two or more points, and increases strictly when `start < stop`. |
| LinearInterp.RemapIdentity | merge.py:105 | The remap `(x - 0) / 1` is the identity. |
| LinearInterp.RemapKeepsOrder | merge.py:105 | A positive bias scale keeps the remapped grid strictly increasing. |
| LinearInterp.InterpAt | merge.py:105-107 | `np.interp` at one point, whatever the order of the sample points. At or beyond both ends on the right it gives the last value, and below the first point (and not above the last) the first value. Between the first and the last point it lies on the line across a segment `xp[j] <= v < xp[j+1]`. |
| LinearInterp.InterpOnSegment | merge.py:105-107 | On increasing sample points, `np.interp` is the straight line through the two samples around the point. |
| LinearInterp.InterpAtSample | merge.py:105-107 | On increasing sample points, `np.interp` passes through every sample. |
| LinearInterp.InterpClamps | merge.py:105-107 | On increasing sample points, `np.interp` holds the nearest end value outside the sample range. |
| LinearInterp.InterpOnNonIncreasing | merge.py:105-107 | On non-increasing sample points (`flux_min == flux_max`, a reversed header, a negative bias scale), `np.interp` gives the first value below both ends and the last value everywhere else. |
| LinearInterp.InterpWithinSamples | merge.py:105-107 | `np.interp` never leaves the range of its sample values. |
| Runs.MaximalRuns | shuffle.py:15-29 | The maximal runs of constant value of a non-empty column, in order. There is at least one, each lies within the column, and the last ends at the last row. |
| Runs.RunsArePartition | shuffle.py:15-29 | The maximal runs cover the column in order without gaps or overlap. The column is constant on each run, and neighbouring runs differ. |
| Runs.RunEncoding | ntrials.py:27-42 | Run values and lengths pair up. Every length is positive, the lengths add up to the column, neighbouring values differ, and the last pair is the trailing run. |
| Runs.SortedRunValuesIncrease | ntrials.py:19-42 | On a sorted column, the run values increase strictly. |
| Runs.RunValuesAreColumnValues | ntrials.py:27-42 | The run values are exactly the values of the column. |
| Runs.RunCountIsDistinctCount | ntrials.py:27-42 | On a sorted column, there are as many runs as distinct values. |
| Runs.RunLengthIsMultiplicity | ntrials.py:19-42 | On a sorted column, each run's length is the number of occurrences of its value. |
| Runs.RunLengthsSum | ntrials.py:27-42 | The run lengths add up to the number of rows. |
| Runs.SortKeepsRows | shuffle.py:50-51 | Reordering by an `argsort` order keeps the rows as a multiset. |
| Runs.SortKeepsFluxes | ntrials.py:19-20 | Reordering by an `argsort` order keeps the multiset of fluxes. |
| Runs.PermutationBounds | shuffle.py:35-36 | An index list with the multiset of `lo .. hi` lists each index of the range exactly once. |
| Shuffle.FindChangeIndices | shuffle.py:15-29 | The change points are exactly the maximal runs of constant flux, in order. |
| Shuffle.Shuffle | shuffle.py:33-41 | For a shuffled mapping of the range, `odata` takes the rows `idata[mapping]` on the range and keeps every other row. The mapping is a permutation of the range, so the range receives the same rows as a multiset. |
| Shuffle.ShuffleRangeStep | shuffle.py:61-62 | Shuffling the next constant-flux range extends the shuffled prefix over it: same rows as a multiset, same fluxes, rest untouched. |
| Shuffle.ShuffleRanges | shuffle.py:61-62 | After the loop over all ranges, `odata` holds the sorted rows as a multiset, with the sorted flux at every position. |
| Shuffle.ShuffleFile | shuffle.py:49-62 | The output of `main` is a permutation of the loaded rows and of the sorted rows. Its flux column is the sorted flux column, so rows move only within a range of constant flux. |
| NTrials.CountAtFluxes | ntrials.py:27-42 | The counting loop gives exactly the value and the length of every maximal run of the flux column, in order, the last one included. |
| NTrials.RunSummary | ntrials.py:27-42 | On a sorted column, the run values are what `np.unique` gives for the unsorted fluxes. Each count is the number of trials at its flux, and the counts add up to the number of rows. |
| NTrials.TrialsAtFluxes | ntrials.py:13-42 | After sorting by flux, `fluxes` lists each distinct flux of the file once, in increasing order. `counts` has one entry per flux, which is how many rows carry that flux, and the counts add up to the number of rows. |

## Left out

- Opening and closing files, the `IOError` messages and the output file: inputs are token lists, results are values (merge.py:14-39, shuffle.py:45-55, 64-69, ntrials.py:14-24).
- `np.loadtxt` parsing in shuffle.py and ntrials.py: the table arrives as numbers.
  - A one-line table and a one-column table are not modelled. `loadtxt` returns either one-dimensional, so `[:,0]` fails at shuffle.py:50 and ntrials.py:19. The model accepts rows of any positive width and shuffles or counts such a table.
  - The empty table is excluded by the `|data| > 0` precondition of `FindChangeIndices`, `CountAtFluxes`, `ShuffleFile` and `TrialsAtFluxes`. `loadtxt` returns it one-dimensional as well, so the script fails on it at `[:,0]` (shuffle.py:50, ntrials.py:19) before any of the modelled code runs.
- Printing is not modelled: the summary lines (merge.py:183-185), the ranges found (shuffle.py:28) and the per-flux report (ntrials.py:44-47). The percentage printed at merge.py:185 is not computed; its inputs are in the report.
- The `{:.2e}` formatting of written rows and the `%0.2e` output of shuffle.py: rows are kept as exact values.
- The diagnostic plots (merge.py:46-47, 153-167): graphics only.
- The `fit_poly` and `spline` branches and the unknown-option error (merge.py:92-101, 110-125). `interp_opt` is the constant `'linear'`, so they never run.
- Floating point: values are exact reals, so binary64 rounding, `inf` and `nan` are not modelled.
  - `float` refuses `inf` and `nan` tokens like any malformed token.
  - A NaN true flux, which never equals itself, is not modelled.
  - Where numpy would produce `inf` or `nan` instead of raising (`nsamples == 0` in the naive flux, bias scale 0), the model fails the trial.
- `random.shuffle` and `argsort` are parameters with their defining properties as preconditions. Which permutation is drawn, and `argsort`'s tie order, are not modelled.
- `np.unique` (ntrials.py:27) is stated as the predicate `NTrials.IsUniqueOf`, which `TrialsAtFluxes` proves of `fluxes`. It is not computed separately.
- Properties.StatusHere: states how the run ends one trial at a time, not as one statement over the whole run ("completes exactly when a file runs out"). The inductive form is not proved.
- Properties.RunReport: states `count_correct` only as a bound over the whole run, not as the number of trials whose evaluated outcome is contained. Each row is stated to be its trial's evaluated summary, and which trials count as contained is stated per trial by `Properties.InterpolatedOutcome`.
- LinearInterp.InterpAt: numpy's binary search for the segment is not modelled step by step; the model takes the last segment whose left end is at or below the point. The two agree on non-decreasing sample points. On non-increasing ones the search is never reached, since such a point is either above the last sample point, below the first, or equal to the last. The script's sample points are always one or the other, being an affine image of `linspace`.
- Shuffle.ShuffleFile: states the output as a row permutation preserving the flux column, not which random permutation each range received.
