/**
 * From the charts of a presentation to the result table: labels from chart titles,
 * the extraction loop that windows every series, the joint table with the two
 * reference curves appended, and the scoring of every chart column.
 */
module Charts {
  import opened Common
  import opened Series
  import opened Scoring

  /** `title.split(';')[0]`: the text before the first `;`, or the whole title. */
  function Label(title: string): (r: string)
    ensures r <= title
    ensures ';' !in r
    ensures ';' in title ==> |r| < |title| && title[|r|] == ';'
    ensures ';' !in title ==> r == title
  {
    if title == [] || title[0] == ';' then []
    else [title[0]] + Label(title[1..])
  }

  /** A chart as the presentation reader yields it: its title and its series' raw values. */
  datatype Chart = Chart(title: string, series: seq<seq<Entry>>)

  /** What `extract_chart_data` collects: one label per chart, one window and one raw
      series per series. */
  datatype Extracted = Extracted(columns: seq<string>, data: seq<seq<real>>, original: seq<seq<Entry>>)

  /** Every series of every chart, in discovery order. */
  function AllSeries(charts: seq<Chart>): seq<seq<Entry>>
  {
    if charts == [] then []
    else AllSeries(charts[..|charts| - 1]) + Last(charts).series
  }

  /** The label of every chart, in discovery order. */
  function Labels(charts: seq<Chart>): (r: seq<string>)
    ensures |r| == |charts|
    ensures forall i :: 0 <= i < |charts| ==> r[i] == Label(charts[i].title)
  {
    seq(|charts|, i requires 0 <= i < |charts| => Label(charts[i].title))
  }

  /** Every series can be windowed: none of them is non-empty and all blank. */
  predicate AllWindowable(charts: seq<Chart>, n: int) {
    forall i :: 0 <= i < |AllSeries(charts)| ==> Window(AllSeries(charts)[i], n).Ok?
  }

  /** The series of the first `k` charts come first among all the series. */
  lemma {:induction false} AllSeriesPrefix(charts: seq<Chart>, k: nat)
    requires k <= |charts|
    ensures AllSeries(charts[..k]) <= AllSeries(charts)
    decreases |charts|
  {
    if k < |charts| {
      var init := charts[..|charts| - 1];
      assert init[..k] == charts[..k];
      AllSeriesPrefix(init, k);
    } else {
      assert charts[..k] == charts;
    }
  }

  lemma AllSeriesStep(charts: seq<Chart>, c: nat)
    requires c < |charts|
    ensures AllSeries(charts[..c + 1]) == AllSeries(charts[..c]) + charts[c].series
  {
    assert charts[..c + 1][..c] == charts[..c];
  }

  lemma LabelsStep(charts: seq<Chart>, c: nat)
    requires c < |charts|
    ensures Labels(charts[..c + 1]) == Labels(charts[..c]) + [Label(charts[c].title)]
  {
  }

  /** A series that cannot be windowed, in any chart, makes the whole collection fail. */
  lemma NotWindowable(charts: seq<Chart>, c: nat, j: nat, n: int)
    requires c < |charts| && j < |charts[c].series|
    requires Window(charts[c].series[j], n).Err?
    ensures !AllWindowable(charts, n)
  {
    AllSeriesStep(charts, c);
    AllSeriesPrefix(charts, c + 1);
    var at := |AllSeries(charts[..c])| + j;
    assert AllSeries(charts)[at] == charts[c].series[j];
  }

  /** With one series per chart, series `i` is chart `i`'s, so labels and windows line up. */
  lemma {:induction false} AllSeriesOnePerChart(charts: seq<Chart>)
    requires forall c :: 0 <= c < |charts| ==> |charts[c].series| == 1
    ensures |AllSeries(charts)| == |charts|
    ensures forall i :: 0 <= i < |charts| ==> AllSeries(charts)[i] == charts[i].series[0]
  {
    if charts != [] {
      AllSeriesOnePerChart(charts[..|charts| - 1]);
    }
  }

  /** Each window is the window of the raw series at the same position. */
  predicate Windowed(original: seq<seq<Entry>>, data: seq<seq<real>>, n: int) {
    |data| == |original| && forall i :: 0 <= i < |data| ==> Window(original[i], n) == Ok(data[i])
  }

  /** Windows for all the series mean every series can be windowed. */
  lemma WindowedAll(charts: seq<Chart>, data: seq<seq<real>>, n: int)
    requires Windowed(AllSeries(charts), data, n)
    ensures AllWindowable(charts, n)
  {
  }

  lemma WindowedAppend(original: seq<seq<Entry>>, data: seq<seq<real>>, n: int, s: seq<Entry>, w: seq<real>)
    requires Windowed(original, data, n) && Window(s, n) == Ok(w)
    ensures Windowed(original + [s], data + [w], n)
  {
  }

  lemma WindowedConcat(original: seq<seq<Entry>>, data: seq<seq<real>>, series: seq<seq<Entry>>, windows: seq<seq<real>>, n: int)
    requires Windowed(original, data, n) && Windowed(series, windows, n)
    ensures Windowed(original + series, data + windows, n)
  {
    forall i | 0 <= i < |data| + |windows|
      ensures Window((original + series)[i], n) == Ok((data + windows)[i])
    {
      if i < |data| {
        assert (original + series)[i] == original[i] && (data + windows)[i] == data[i];
      } else {
        var j := i - |data|;
        assert (original + series)[i] == series[j] && (data + windows)[i] == windows[j];
      }
    }
  }

  /**
   * The inner loop of `extract_chart_data`: the window of every series of one chart, in
   * order. A series that cannot be windowed aborts the loop.
   */
  method ExtractSeries(series: seq<seq<Entry>>, n: int) returns (res: Result<seq<seq<real>>>)
    ensures res.Ok? <==> forall j :: 0 <= j < |series| ==> Window(series[j], n).Ok?
    ensures res.Err? ==> res.error == EmptySequence
    ensures res.Ok? ==> Windowed(series, res.value, n)
  {
    var data: seq<seq<real>> := [];
    var j := 0;
    while j < |series|
      invariant 0 <= j <= |series|
      invariant Windowed(series[..j], data, n)
    {
      var w := Window(series[j], n);
      if w.Err? {
        return Err(w.error);
      }
      WindowedAppend(series[..j], data, n, series[j], w.value);
      assert series[..j + 1] == series[..j] + [series[j]];
      data := data + [w.value];
      j := j + 1;
    }
    assert series[..j] == series;
    return Ok(data);
  }

  /**
   * The outer loop of `extract_chart_data`: a label for every chart, and for every series of
   * it the raw values and their window. A series that cannot be windowed aborts the loop.
   */
  method ExtractChartData(charts: seq<Chart>, n: int) returns (res: Result<Extracted>)
    ensures res.Ok? <==> AllWindowable(charts, n)
    ensures res.Err? ==> res.error == EmptySequence
    ensures res.Ok? ==>
      && res.value.columns == Labels(charts)
      && res.value.original == AllSeries(charts)
      && Windowed(res.value.original, res.value.data, n)
  {
    var columns: seq<string> := [];
    var data: seq<seq<real>> := [];
    var original: seq<seq<Entry>> := [];
    var c := 0;
    while c < |charts|
      invariant 0 <= c <= |charts|
      invariant columns == Labels(charts[..c])
      invariant original == AllSeries(charts[..c])
      invariant Windowed(original, data, n)
    {
      var chart := charts[c];
      columns := columns + [Label(chart.title)];
      var windows := ExtractSeries(chart.series, n);
      if windows.Err? {
        ghost var j :| 0 <= j < |chart.series| && Window(chart.series[j], n).Err?;
        NotWindowable(charts, c, j, n);
        return Err(windows.error);
      }
      WindowedConcat(original, data, chart.series, windows.value, n);
      original := original + chart.series;
      data := data + windows.value;
      AllSeriesStep(charts, c);
      LabelsStep(charts, c);
      c := c + 1;
    }
    assert charts[..c] == charts;
    WindowedAll(charts, data, n);
    return Ok(Extracted(columns, data, original));
  }

  /** All columns of one length. */
  predicate SameLengths(columns: seq<seq<real>>) {
    forall i, j :: 0 <= i < |columns| && 0 <= j < |columns| ==> |columns[i]| == |columns[j]|
  }

  /** All raw series of one length, placeholders included. */
  predicate SameRawLengths(series: seq<seq<Entry>>) {
    forall i, j :: 0 <= i < |series| && 0 <= j < |series| ==> |series[i]| == |series[j]|
  }

  /**
   * The two frames built at the end of `extract_chart_data`:
   * `{columns[i]: data[i] for i in range(len(data))}` takes labels by series position, so
   * more series than labels raise; and pandas refuses columns of different lengths, for
   * the windows and for the raw series alike. Only the windowed frame is returned.
   */
  function ChartFrame(ex: Extracted): (r: Result<Table>)
    ensures r.Ok? <==> |ex.data| <= |ex.columns| && SameLengths(ex.data) && SameRawLengths(ex.original)
    ensures r.Err? && |ex.data| > |ex.columns| ==> r.error == IndexOutOfRange
    ensures r.Ok? ==> WellFormed(r.value) && r.value.columns == ex.data
    ensures r.Ok? ==> r.value.labels == ex.columns[..|ex.data|]
  {
    if |ex.data| > |ex.columns| then Err(IndexOutOfRange)
    else if !SameLengths(ex.data) || !SameRawLengths(ex.original) then Err(RaggedColumns)
    else Ok(Table(ex.columns[..|ex.data|], ex.data))
  }

  /** `data_frame[label] = values`: a column must match the row count of a non-empty frame. */
  function AddColumn(t: Table, name: string, values: seq<real>): (r: Result<Table>)
    requires WellFormed(t)
    ensures r.Ok? <==> |t.columns| == 0 || |values| == |t.columns[0]|
    ensures r.Ok? ==> WellFormed(r.value) && r.value.columns == t.columns + [values]
    ensures r.Ok? ==> r.value.labels == t.labels + [name]
  {
    if |t.columns| > 0 && |values| != |t.columns[0]| then Err(LengthMismatch)
    else Ok(Table(t.labels + [name], t.columns + [values]))
  }

  /** The column names `file.split()[0]` of the two reference workbooks. */
  const KineticLabel: string := "KineticStandard.xlsx"
  const SteadyLabel: string := "SteadyStandard.xlsx"

  /** Each chart carries exactly one series, so the label of chart `i` names window `i`,
      and all those series have the same raw length, as the frame of raw values demands. */
  predicate OneSeriesEach(charts: seq<Chart>) {
    && (forall c :: 0 <= c < |charts| ==> |charts[c].series| == 1)
    && (forall c, d :: 0 <= c < |charts| && 0 <= d < |charts| ==>
          |charts[c].series[0]| == |charts[d].series[0]|)
  }

  /** A positive sample count that every chart's series can supply. */
  predicate ChartsFit(charts: seq<Chart>, n: int) {
    && 1 <= n
    && OneSeriesEach(charts)
    && (forall c :: 0 <= c < |charts| ==> |Filter(charts[c].series[0])| >= n)
  }

  /** What a successful extraction returns, as ExtractChartData promises it. */
  predicate ExtractedFrom(ex: Extracted, charts: seq<Chart>, n: int) {
    && ex.columns == Labels(charts)
    && ex.original == AllSeries(charts)
    && Windowed(ex.original, ex.data, n)
  }

  /** The window of every chart's one series. */
  function ChartWindows(charts: seq<Chart>, n: int): (r: seq<seq<real>>)
    requires ChartsFit(charts, n)
    ensures |r| == |charts|
    ensures forall i :: 0 <= i < |charts| ==> |r[i]| == n
  {
    seq(|charts|, i requires 0 <= i < |charts| =>
      WindowSize(Filter(charts[i].series[0]), n);
      WindowOf(Filter(charts[i].series[0]), n))
  }

  lemma ExtractedRawLengths(ex: Extracted, charts: seq<Chart>, n: int)
    requires OneSeriesEach(charts) && ExtractedFrom(ex, charts, n)
    ensures SameRawLengths(ex.original) && |ex.data| == |ex.columns|
  {
    AllSeriesOnePerChart(charts);
  }

  lemma ExtractedWindows(ex: Extracted, charts: seq<Chart>, n: int)
    requires ChartsFit(charts, n) && ExtractedFrom(ex, charts, n)
    ensures ex.data == ChartWindows(charts, n)
  {
    AllSeriesOnePerChart(charts);
  }

  /**
   * The joint table of `process_pptx`: the chart frame, then the resampled kinetic and
   * steady-state references appended as its last two columns.
   */
  function JointTable(ex: Extracted, kinetic: seq<Entry>, steady: seq<Entry>, n: int): (r: Result<Table>)
    ensures r.Ok? ==> WellFormed(r.value) && |r.value.columns| == |ex.data| + 2
  {
    match ChartFrame(ex)
    case Err(e) => Err(e)
    case Ok(frame) =>
      match Resample(kinetic, n)
      case Err(e) => Err(e)
      case Ok(k) =>
        match AddColumn(frame, KineticLabel, k)
        case Err(e) => Err(e)
        case Ok(withKinetic) =>
          match Resample(steady, n)
          case Err(e) => Err(e)
          case Ok(s) => AddColumn(withKinetic, SteadyLabel, s)
  }

  /** Charts that fit the sample count give the frame of their windows, labelled in order. */
  lemma ChartFrameOfFittingCharts(ex: Extracted, charts: seq<Chart>, n: int)
    requires ChartsFit(charts, n) && ExtractedFrom(ex, charts, n)
    ensures ChartFrame(ex) == Ok(Table(Labels(charts), ChartWindows(charts, n)))
  {
    ExtractedWindows(ex, charts, n);
    ExtractedRawLengths(ex, charts, n);
    assert ex.columns[..|ex.data|] == Labels(charts);
    assert SameLengths(ex.data);
  }

  /** Labels are taken by series position: when a two-series chart is followed by a chart
      without series, the second window is named after the second chart. */
  lemma LabelsBySeriesPosition(ex: Extracted, charts: seq<Chart>, n: int)
    requires ExtractedFrom(ex, charts, n)
    requires |charts| == 2 && |charts[0].series| == 2 && charts[1].series == []
    ensures ex.original == charts[0].series && |ex.data| == 2
    ensures ChartFrame(ex).Ok? ==>
      ChartFrame(ex).value == Table([Label(charts[0].title), Label(charts[1].title)], ex.data)
  {
    AllSeriesStep(charts, 0);
    AllSeriesStep(charts, 1);
    assert charts[..0] == [] && charts[..2] == charts;
  }

  /** A lone chart with two series has one label for two windows, so the frame raises. */
  lemma TwoSeriesOneLabel(ex: Extracted, charts: seq<Chart>, n: int)
    requires ExtractedFrom(ex, charts, n)
    requires |charts| == 1 && |charts[0].series| == 2
    ensures ChartFrame(ex) == Err(IndexOutOfRange)
  {
    assert charts[..0] == [];
  }

  /** A column of the frame's row count is appended under its name. */
  lemma AddColumnFits(t: Table, name: string, values: seq<real>)
    requires WellFormed(t) && (|t.columns| == 0 || |values| == |t.columns[0]|)
    ensures AddColumn(t, name, values) == Ok(Table(t.labels + [name], t.columns + [values]))
  {
  }

  /** The joint table is built step by step: frame, kinetic column, steady column. */
  lemma JointTableSteps(ex: Extracted, kinetic: seq<Entry>, steady: seq<Entry>, n: int,
                        frame: Table, k: seq<real>, withKinetic: Table, s: seq<real>)
    requires ChartFrame(ex) == Ok(frame) && Resample(kinetic, n) == Ok(k)
    requires AddColumn(frame, KineticLabel, k) == Ok(withKinetic) && Resample(steady, n) == Ok(s)
    ensures JointTable(ex, kinetic, steady, n) == AddColumn(withKinetic, SteadyLabel, s)
  {
  }

  /** With every series long enough, the joint table is the windows in chart order followed
      by the two resampled references, all of `n` rows. */
  lemma JointTableOfValidRun(ex: Extracted, charts: seq<Chart>, kinetic: seq<Entry>, steady: seq<Entry>, n: int)
    requires ChartsFit(charts, n) && ExtractedFrom(ex, charts, n)
    requires |Filter(kinetic)| >= n && |Filter(steady)| >= n
    ensures JointTable(ex, kinetic, steady, n) == Ok(Table(
      Labels(charts) + [KineticLabel, SteadyLabel],
      ChartWindows(charts, n) + [ResampleOf(Filter(kinetic), n), ResampleOf(Filter(steady), n)]))
  {
    var windows := ChartWindows(charts, n);
    var frame := Table(Labels(charts), windows);
    ChartFrameOfFittingCharts(ex, charts, n);
    var k, s := ResampleOf(Filter(kinetic), n), ResampleOf(Filter(steady), n);
    assert Resample(kinetic, n) == Ok(k) && Resample(steady, n) == Ok(s);
    var withKinetic := Table(Labels(charts) + [KineticLabel], windows + [k]);
    AddColumnFits(frame, KineticLabel, k);
    AddColumnFits(withKinetic, SteadyLabel, s);
    JointTableSteps(ex, kinetic, steady, n, frame, k, withKinetic, s);
    assert withKinetic.labels + [SteadyLabel] == Labels(charts) + [KineticLabel, SteadyLabel];
    assert withKinetic.columns + [s] == windows + [k, s];
  }

  /** Every series of charts that fit the sample count can be windowed. */
  lemma ChartsFitWindowable(charts: seq<Chart>, n: int)
    requires ChartsFit(charts, n)
    ensures AllWindowable(charts, n)
  {
    AllSeriesOnePerChart(charts);
  }

  /** A reference with fewer numbers than the sample count stops the run with
      InvalidSampleCount, the kinetic one checked first. */
  lemma JointTableShortReference(ex: Extracted, charts: seq<Chart>, kinetic: seq<Entry>, steady: seq<Entry>, n: int)
    requires ChartsFit(charts, n) && ExtractedFrom(ex, charts, n)
    requires (kinetic != [] && |Filter(kinetic)| < n) ||
             (|Filter(kinetic)| >= n && steady != [] && |Filter(steady)| < n)
    ensures JointTable(ex, kinetic, steady, n) == Err(InvalidSampleCount)
  {
    ExtractedWindows(ex, charts, n);
    ExtractedRawLengths(ex, charts, n);
  }

  /** A sample count that is not positive leaves every window empty, and then the first
      non-empty reference rejects it. */
  lemma JointTableNonPositiveCount(ex: Extracted, charts: seq<Chart>, kinetic: seq<Entry>, steady: seq<Entry>, n: int)
    requires OneSeriesEach(charts) && ExtractedFrom(ex, charts, n)
    requires n <= 0 && kinetic != []
    ensures JointTable(ex, kinetic, steady, n) == Err(InvalidSampleCount)
  {
    ExtractedRawLengths(ex, charts, n);
    forall i | 0 <= i < |ex.data| ensures ex.data[i] == [] {
      var s := ex.original[i];
      if s != [] {
        WindowSize(Filter(s), n);
      }
    }
  }

  /**
   * A chart series with some numbers but fewer than the sample count keeps all of them as
   * its window, so its column is shorter than either resampled reference, which has `n`
   * rows or none: windows of different lengths make the frame ragged, a short kinetic
   * reference is rejected by its resampling, and otherwise the column assignment finds
   * the wrong row count.
   */
  lemma ShortChartFails(ex: Extracted, charts: seq<Chart>, kinetic: seq<Entry>, steady: seq<Entry>, n: int, c: int)
    requires OneSeriesEach(charts) && ExtractedFrom(ex, charts, n) && 1 <= n
    requires 0 <= c < |charts| && 1 <= |Filter(charts[c].series[0])| < n
    ensures JointTable(ex, kinetic, steady, n).Err?
    ensures JointTable(ex, kinetic, steady, n).error in {RaggedColumns, InvalidSampleCount, LengthMismatch}
    ensures SameLengths(ex.data) && (kinetic == [] || |Filter(kinetic)| >= n) ==>
      JointTable(ex, kinetic, steady, n) == Err(LengthMismatch)
  {
    AllSeriesOnePerChart(charts);
    var f := Filter(charts[c].series[0]);
    WindowSize(f, n);
    assert ex.data[c] == f;
    match ChartFrame(ex)
    case Err(_) =>
    case Ok(frame) =>
      assert |frame.columns[0]| == |f|;
      match Resample(kinetic, n)
      case Err(_) =>
      case Ok(k) =>
        assert |k| == 0 || |k| == n;
        assert AddColumn(frame, KineticLabel, k).Err?;
  }

  /** Every way the joint table of an extraction can end, by the charts, references and
      sample count it came from. */
  lemma JointTableOutcomes(ex: Extracted, charts: seq<Chart>, kinetic: seq<Entry>, steady: seq<Entry>, n: int)
    requires ExtractedFrom(ex, charts, n)
    ensures ChartsFit(charts, n) && |Filter(kinetic)| >= n && |Filter(steady)| >= n ==>
      JointTable(ex, kinetic, steady, n) == Ok(Table(
        Labels(charts) + [KineticLabel, SteadyLabel],
        ChartWindows(charts, n) + [ResampleOf(Filter(kinetic), n), ResampleOf(Filter(steady), n)]))
    ensures (ChartsFit(charts, n) &&
      ((kinetic != [] && |Filter(kinetic)| < n) ||
       (|Filter(kinetic)| >= n && steady != [] && |Filter(steady)| < n))) ==>
      JointTable(ex, kinetic, steady, n) == Err(InvalidSampleCount)
    ensures OneSeriesEach(charts) && n <= 0 && kinetic != [] ==>
      JointTable(ex, kinetic, steady, n) == Err(InvalidSampleCount)
    ensures (OneSeriesEach(charts) && 1 <= n &&
             exists c :: 0 <= c < |charts| && 1 <= |Filter(charts[c].series[0])| < n) ==>
      JointTable(ex, kinetic, steady, n).Err?
  {
    if ChartsFit(charts, n) && |Filter(kinetic)| >= n && |Filter(steady)| >= n {
      JointTableOfValidRun(ex, charts, kinetic, steady, n);
    }
    if ChartsFit(charts, n) && ((kinetic != [] && |Filter(kinetic)| < n) ||
        (|Filter(kinetic)| >= n && steady != [] && |Filter(steady)| < n)) {
      JointTableShortReference(ex, charts, kinetic, steady, n);
    }
    if OneSeriesEach(charts) && n <= 0 && kinetic != [] {
      JointTableNonPositiveCount(ex, charts, kinetic, steady, n);
    }
    if OneSeriesEach(charts) && 1 <= n &&
        exists c :: 0 <= c < |charts| && 1 <= |Filter(charts[c].series[0])| < n {
      var c :| 0 <= c < |charts| && 1 <= |Filter(charts[c].series[0])| < n;
      ShortChartFails(ex, charts, kinetic, steady, n, c);
    }
  }

  /** The records scored from the joint table of a valid run, chart by chart. */
  lemma RecordsOfValidRun(t: Table, charts: seq<Chart>, kinetic: seq<Entry>, steady: seq<Entry>, n: int)
    requires ChartsFit(charts, n) && |Filter(kinetic)| >= n && |Filter(steady)| >= n
    requires t == Table(Labels(charts) + [KineticLabel, SteadyLabel],
      ChartWindows(charts, n) + [ResampleOf(Filter(kinetic), n), ResampleOf(Filter(steady), n)])
    ensures WellFormed(t) && CandidateCount(t) == |charts|
    ensures forall i :: 0 <= i < |charts| ==>
      var w := ChartWindows(charts, n)[i];
      && |t.columns[i]| > 0
      && RecordOf(t, i) == ScoreRecord(Label(charts[i].title), Last(w),
           Score(ResampleOf(Filter(kinetic), n), w), Score(ResampleOf(Filter(steady), n), w))
  {
    var windows := ChartWindows(charts, n);
    var k, s := ResampleOf(Filter(kinetic), n), ResampleOf(Filter(steady), n);
    assert t.columns == windows + [k, s];
    assert forall i :: 0 <= i < |t.columns| ==> |t.columns[i]| == n;
    assert t.columns[|t.columns| - 2] == k && t.columns[|t.columns| - 1] == s;
    forall i | 0 <= i < |charts|
      ensures RecordOf(t, i) == ScoreRecord(Label(charts[i].title), Last(windows[i]),
        Score(k, windows[i]), Score(s, windows[i]))
    {
      assert t.columns[i] == windows[i];
      assert t.labels[i] == Labels(charts)[i];
    }
  }

  /**
   * The computation of `process_pptx`: window the chart series, resample the two
   * references, build the joint table and score every chart column against both.
   */
  method ProcessCharts(charts: seq<Chart>, kinetic: seq<Entry>, steady: seq<Entry>, n: int)
    returns (res: Result<seq<ScoreRecord>>)
    ensures !AllWindowable(charts, n) ==> res == Err(EmptySequence)
    ensures OneSeriesEach(charts) && AllWindowable(charts, n) && n <= 0 && kinetic != [] ==>
      res == Err(InvalidSampleCount)
    ensures (ChartsFit(charts, n) &&
      ((kinetic != [] && |Filter(kinetic)| < n) ||
       (|Filter(kinetic)| >= n && steady != [] && |Filter(steady)| < n))) ==>
      res == Err(InvalidSampleCount)
    ensures (OneSeriesEach(charts) && 1 <= n &&
             exists c :: 0 <= c < |charts| && 1 <= |Filter(charts[c].series[0])| < n) ==>
      res.Err?
    ensures ChartsFit(charts, n) && |Filter(kinetic)| >= n && |Filter(steady)| >= n ==>
      && res.Ok?
      && |res.value| == |charts|
      && forall i :: 0 <= i < |charts| ==>
           var w := ChartWindows(charts, n)[i];
           && res.value[i].name == Label(charts[i].title)
           && res.value[i].bindingMax == Last(w)
           && res.value[i].kineticScore == Score(ResampleOf(Filter(kinetic), n), w)
           && res.value[i].steadyScore == Score(ResampleOf(Filter(steady), n), w)
  {
    if ChartsFit(charts, n) {
      ChartsFitWindowable(charts, n);
    }
    var extracted := ExtractChartData(charts, n);
    if extracted.Err? {
      return Err(extracted.error);
    }
    var ex := extracted.value;
    JointTableOutcomes(ex, charts, kinetic, steady, n);
    var joint := JointTable(ex, kinetic, steady, n);
    if joint.Err? {
      return Err(joint.error);
    }
    if ChartsFit(charts, n) && |Filter(kinetic)| >= n && |Filter(steady)| >= n {
      RecordsOfValidRun(joint.value, charts, kinetic, steady, n);
    }
    res := ScoreColumns(joint.value);
  }
}
