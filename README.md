# SPR curve scoring: a Dafny model

This project models the numeric core of `PPTprocess.py`, a desktop tool that reads the
charts of a presentation, cuts each chart's curve down to a fixed number of samples, and
scores every curve against two reference ("standard") curves, a kinetic one and a
steady-state one, read from two workbooks. The model covers:

- the blank-placeholder filter applied before any numeric work;
- peak-anchored windowing (`retain_numbers_before_last_max`), as written, including the
  branch that anchors the window at the start when the last peak lies among the first
  `n` values, and the unchecked sample count;
- uniform resampling (`retain_numbers_uniform`), with Python's half-to-even `round`
  modelled exactly over rationals;
- the offset-corrected mean squared error (`calculate_mse`), its length and
  division-by-zero errors;
- the chart label `title.split(';')[0]`;
- the extraction loops of `extract_chart_data` and the two frames built from them;
- the joint table with the two resampled references appended, the scoring loop of
  `process_pptx`, and the whole computation as one method.

Modules: `Common` (errors, `Result`, `Last`), `Rounding` (`round` and `round(x, 2)`),
`Series` (filter, window, resample), `Scoring` (MSE, table, scoring loop), `Charts`
(labels, extraction, frames, pipeline). Exceptions are `Err` values of `Result`; the
presentation reader and the workbook reader are replaced by their outputs, passed as
parameters (`Chart` values and raw reference series).

Four behaviours of the code deserve a note, because the help text the program shows
(PPTprocess.py:323-340) suggests otherwise:

- Raw chart series of different lengths abort the run. `pd.DataFrame` at
  PPTprocess.py:227 refuses columns of different lengths, even though only the windowed
  frame is used afterwards (`Charts.ChartFrame`).
- The windowing step does not compare the sample count with the series length: a series
  with fewer numbers than the sample count is returned whole (PPTprocess.py:203-204). With
  `n >= 1` such a run always fails (`Charts.ShortChartFails`). Windows of different lengths
  raise a ragged-columns error at PPTprocess.py:226. A non-empty kinetic reference with
  fewer than `n` numbers raises the invalid-sample-count error at PPTprocess.py:178-179. An
  empty reference returns `[]` before that check (PPTprocess.py:172-173). In every other
  case the column assignment at PPTprocess.py:275 raises a length-mismatch error.
- Labels are collected once per chart, but windows once per series, and the frame at
  PPTprocess.py:226 pairs them by position. A chart with two series therefore gives its
  second series the next chart's label (`Charts.LabelsBySeriesPosition`). A lone chart
  with two series raises an index error (`Charts.TwoSeriesOneLabel`).
- `chart_data.csv` and `chart_original_data.csv` are written before the scoring loop runs,
  so a run that fails later still leaves them behind. File output is not modelled.

## Model

| member | source | states |
|---|---|---|
| `Series.Filter` | PPTprocess.py:191-192 | the filtered series is never longer than the raw one |
| `Series.FilterMembers` | PPTprocess.py:191-192 | the filtered values are exactly the numbers of the raw series |
| `Series.SeqMax` | PPTprocess.py:193 | `max` returns an element of the series that no element exceeds |
| `Series.LastMaxIndex` | PPTprocess.py:195-200 | the chosen index holds the maximum and every later value is strictly smaller |
| `Series.LastMaxIndexUnique` | PPTprocess.py:195-200 | any index holding the maximum with only smaller values after it is the chosen index |
| `Series.Window` | PPTprocess.py:187-206 | empty input gives `[]`; non-empty all-blank input raises (empty `max`); otherwise the window of the filtered values |
| `Series.WindowSize` | PPTprocess.py:201-206 | `n <= 0` gives `[]`, `n` past the length gives the whole series, otherwise exactly `n` contiguous values starting at `WindowStart` |
| `Series.WindowHoldsLastPeak` | PPTprocess.py:199-206 | a window with `1 <= n <= m` holds the last peak: it ends there when the peak index is at least `n`, is the first `n` values otherwise, and its maximum is the series maximum |
| `Series.WindowEndsAtLastPeakExample` | PPTprocess.py:187-206 | `[1,2,' ',3,10,4,10,2]` with `n = 3` gives `[10,4,10]` |
| `Series.WindowPrefixBranchExample` | PPTprocess.py:203-204 | `[10,2,1]` with `n = 3` gives `[10,2,1]`, a window that does not end at the peak |
| `Series.SampleIndex` | PPTprocess.py:183-184 | the `i`-th sampled position `round(i * (m-1)/(n-1))` is a valid index |
| `Series.SampleIndexEnds` | PPTprocess.py:183-184 | the first sampled position is 0 and the last is `m - 1` |
| `Series.SampleIndexAdvances` | PPTprocess.py:183-184 | consecutive sampled positions strictly increase, because the step is at least one |
| `Series.SampleIndexIncreasing` | PPTprocess.py:184 | sampled positions strictly increase over all pairs, so resampling picks a subsequence |
| `Series.SampleIndexIdentity` | PPTprocess.py:183-184 | with `n == m` the `i`-th sampled position is `i` |
| `Series.SampleIndexTieExample` | PPTprocess.py:184 | halfway positions round to even: 2.5 gives 2 and 1.5 gives 2 |
| `Series.Resample` | PPTprocess.py:171-185 | empty input gives `[]` before any check; otherwise it raises exactly when `n <= 0` or `m < n`, and returns the `n` values sampled from the numbers |
| `Series.ResampleOf` | PPTprocess.py:180-185 | a valid resampling returns exactly `n` values; with `n == 1` it is the first value alone |
| `Series.ResampleSpansSeries` | PPTprocess.py:183-185 | for `2 <= n <= m` the result starts at the first value, ends at the last, and takes each result value from a strictly increasing position |
| `Series.ResampleIdentity` | PPTprocess.py:180-185 | resampling to the series' own length returns it unchanged, `n == 1` included |
| `Rounding.RoundHalfEven` | PPTprocess.py:184 | `round` gives an integer within 1/2 of its argument, the even one at a tie |
| `Rounding.NearestEvenUnique` | PPTprocess.py:184 | only one integer meets that description |
| `Rounding.RoundHalfEvenShift` | PPTprocess.py:288-291 | adding an even integer before rounding adds it after |
| `Rounding.Round2` | PPTprocess.py:288-291 | `round(x, 2)` is within 0.005 of `x`, non-negative for non-negative `x`, and 0 at 0 |
| `Rounding.Round2Shift` | PPTprocess.py:288-291 | adding a multiple of 0.02 commutes with `round(x, 2)` |
| `Scoring.SumSquares` | PPTprocess.py:243-244 | the sum of squared offset errors is non-negative |
| `Scoring.CalculateMse` | PPTprocess.py:231-245 | different lengths raise, empty input divides by zero, otherwise the result is a non-negative mean |
| `Scoring.MseZeroIff` | PPTprocess.py:243-245 | the MSE is zero exactly when every prediction equals the true value plus the offset |
| `Scoring.MseSelfZero` | PPTprocess.py:243-245 | `calculate_mse(R, R, 0)` is zero |
| `Scoring.MseShiftInvariant` | PPTprocess.py:243-244 | adding a constant to every prediction and to the offset leaves the MSE unchanged |
| `Scoring.Score` | PPTprocess.py:288-291 | a rounded score at the rounded endpoint offset is non-negative |
| `Scoring.ScoreSelfZero` | PPTprocess.py:288-291 | a candidate identical to the reference scores zero |
| `Scoring.ScoreShiftInvariant` | PPTprocess.py:288-291 | lifting a candidate by a multiple of 0.02, such as 5.0, leaves its score unchanged |
| `Scoring.ScoreOfLiftedReference` | PPTprocess.py:288-291 | the reference lifted by a multiple of 0.02 scores zero against itself |
| `Scoring.RecordOf` | PPTprocess.py:285-293 | the record of a chart column has non-negative kinetic and steady scores |
| `Scoring.ScoreColumns` | PPTprocess.py:281-293 | one record per column except the last two, in column order, each with the column's label, last value and scores against the second-to-last and last columns; empty columns raise at `[-1]` |
| `Charts.Label` | PPTprocess.py:219 | the label is a prefix of the title without `;`; it stops at the first `;` and is the whole title when there is none |
| `Charts.Labels` | PPTprocess.py:218-221 | one label per chart, in chart order |
| `Charts.AllSeriesOnePerChart` | PPTprocess.py:221-224 | with one series per chart, the `i`-th series collected is chart `i`'s |
| `Charts.NotWindowable` | PPTprocess.py:222-224 | one all-blank series in any chart makes the collection fail |
| `Charts.ExtractSeries` | PPTprocess.py:221-223 | the windows of one chart's series, each the window of the series at the same position; it fails exactly when some series of the chart cannot be windowed |
| `Charts.ExtractChartData` | PPTprocess.py:214-224 | labels are collected per chart and raw values and windows per series, in discovery order; it fails exactly when some series cannot be windowed |
| `Charts.ChartFrame` | PPTprocess.py:226-227 | the frames exist exactly when there are no more series than labels and the windows and the raw series each have one length; the windowed frame holds the windows under the labels taken by position |
| `Charts.AddColumn` | PPTprocess.py:275 | a reference column is appended, under its name, exactly when it matches the frame's row count |
| `Charts.JointTable` | PPTprocess.py:269-275 | a joint table has all columns of one length and two more columns than there are windows |
| `Charts.ChartsFitWindowable` | PPTprocess.py:189-193 | series holding at least `n >= 1` numbers can always be windowed |
| `Charts.ChartFrameOfFittingCharts` | PPTprocess.py:226-227 | charts that fit the sample count give the frame of their windows under their labels |
| `Charts.JointTableOfValidRun` | PPTprocess.py:269-275 | with every series long enough, the joint table is the windows in chart order followed by the resampled kinetic and steady references |
| `Charts.JointTableShortReference` | PPTprocess.py:178-179 | a non-empty reference with fewer than `n` numbers stops the run with the invalid-sample-count error, the kinetic one checked first |
| `Charts.JointTableNonPositiveCount` | PPTprocess.py:178-179 | `n <= 0` leaves every window empty, and a non-empty kinetic reference then raises the invalid-sample-count error |
| `Charts.ShortChartFails` | PPTprocess.py:203-275 | a chart series holding between one and `n - 1` numbers makes the joint table fail: ragged windows, a short kinetic reference, or else a length mismatch at the column assignment |
| `Charts.LabelsBySeriesPosition` | PPTprocess.py:218-226 | when a two-series chart is followed by a chart without series, the frame names the second series' window after the second chart |
| `Charts.TwoSeriesOneLabel` | PPTprocess.py:218-226 | a lone chart with two series has one label for two windows, and building the frame raises an index error |
| `Charts.ProcessCharts` | PPTprocess.py:259-293 | an all-blank series raises the empty-sequence error; `n <= 0` with a non-empty kinetic reference, or a non-empty reference with fewer than `n` numbers, raises the invalid-sample-count error; a chart series with some numbers but fewer than `n` always fails; a valid run gives one record per chart with its label, endpoint and both scores |

## Left out

- The tkinter window, its widgets, dialogs and status bar, and `validate_number`: user
  interface only.
- `AsyncRedirectText`, the `sys.stdout` redirection, `print`, the background thread, the
  `running` flag and the completion event: concurrency and display, no numeric content.
- `read_column_to_list` and `pd.read_excel`: the reference columns are parameters of
  `Charts.ProcessCharts`. A missing column name is not modelled.
- The python-pptx traversal of slides and shapes: charts arrive as `Chart` values (title
  and raw series).
- `to_csv` and the construction of the result frame from `data_dict`: file output.
- `float(x)` on entries that are not numbers, and NaN: entries are either the `' '`
  placeholder or a real number.
- `Series.SampleIndex`: the step `(m-1)/(n-1)` is exact, so a floating-point error in
  `i * step` that moves a value across a rounding boundary is not modelled.
- `Rounding.Round2`: rounds the exact value half-to-even; CPython rounds the nearest binary
  double, whose decimal ties differ from exact ones.
- `Charts.AddColumn`: reports a length mismatch when a non-empty column is added to a frame
  that has columns but no rows. pandas accepts that column and pads the existing columns with
  NaN, so the program goes on to score NaN records. This happens only when every chart
  series is empty. NaN is not modelled.
- Exact arithmetic: the float differences, squares, sum and mean of `calculate_mse`
  (PPTprocess.py:243-244) and the distance subtractions (PPTprocess.py:288, 290) are computed
  over exact reals. `Scoring.MseZeroIff`, `Scoring.MseShiftInvariant` and
  `Scoring.ScoreShiftInvariant` therefore hold exactly in the model, but only up to
  floating-point rounding in the program.
- `Charts.ChartFrame`, `Charts.AddColumn`, `Scoring.ScoreColumns`: labels are kept
  as a sequence, so a repeated chart title, or a chart title equal to a reference column
  name, does not collapse columns or records as the Python dicts would.
- The empty-index guard after `max` (PPTprocess.py:196-197) cannot be reached with real
  numbers and has no counterpart in the model.
