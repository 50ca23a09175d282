/**
 * The line chart of one metric: the same window filter and sort as the
 * readings hook, one label and one data point per kept reading, and the
 * fixed label, colour and unit tables.
 */
module DataChart {
  import opened Wrappers
  import opened Types
  import opened ReadingWindow

  /** The range the chart uses when none is passed. */
  const DefaultRange: TimeRange := Last24h

  /** The colour used for a data type the tables do not know. */
  const FallbackColor: string := "#6366f1"

  /** An x-axis label: the date-fns pattern and the instant it formats. */
  datatype Label = Label(pattern: string, at: int)

  datatype Dataset = Dataset(caption: string, data: seq<real>, borderColor: string, backgroundColor: string)

  datatype Chart = Chart(
    labels: seq<Label>,
    dataset: Dataset,
    beginAtZero: bool,
    axisTitle: string,
    showTitle: bool,
    title: string)

  /** What the component renders: the chart, or the no-data placeholder. */
  datatype View = Drawn(chart: Chart) | NoData

  /** The `dataType` string a metric is passed as. */
  function MetricName(m: Metric): string {
    match m
    case Moisture => "moisture"
    case Temperature => "temperature"
    case Light => "light"
    case Weight => "weight"
  }

  /** The metric a `dataType` string names, if any. */
  function ParseMetric(name: string): (r: Option<Metric>)
    ensures r.Some? ==> MetricName(r.value) == name
  {
    if name == "moisture" then Some(Moisture)
    else if name == "temperature" then Some(Temperature)
    else if name == "light" then Some(Light)
    else if name == "weight" then Some(Weight)
    else None
  }

  /** Parsing a metric's own name gives the metric back. */
  lemma ParseMetricName(m: Metric)
    ensures ParseMetric(MetricName(m)) == Some(m)
  {
  }

  /** `getDataTypeLabel`: a fixed caption per known metric, the input itself otherwise. */
  function DataTypeLabel(dataType: string): (r: string)
    ensures r == dataType <==> ParseMetric(dataType).None?
  {
    match ParseMetric(dataType)
    case Some(Moisture) => "Soil Moisture"
    case Some(Temperature) => "Temperature"
    case Some(Light) => "Light Intensity"
    case Some(Weight) => "Plant Weight"
    case None => dataType
  }

  /** `getDataTypeColor`: a fixed colour per known metric, indigo otherwise. */
  function DataTypeColor(dataType: string): (r: string)
    ensures r == FallbackColor <==> ParseMetric(dataType).None?
  {
    match ParseMetric(dataType)
    case Some(Moisture) => "#3b82f6"
    case Some(Temperature) => "#ef4444"
    case Some(Light) => "#f59e0b"
    case Some(Weight) => "#10b981"
    case None => FallbackColor
  }

  /** Different metrics are drawn in different colours. */
  lemma ColorsDistinguishMetrics(m1: Metric, m2: Metric)
    ensures DataTypeColor(MetricName(m1)) == DataTypeColor(MetricName(m2)) <==> m1 == m2
  {
  }

  /**
   * `getDataTypeUnit`: the axis title, empty exactly for an unknown data type.
   * The temperature title keeps the characters `Â°` that the source file holds
   * where a degree sign was evidently meant.
   */
  function DataTypeUnit(dataType: string): (r: string)
    ensures r == "" <==> ParseMetric(dataType).None?
  {
    match ParseMetric(dataType)
    case Some(Moisture) => "Moisture (%)"
    case Some(Temperature) => "Temperature (Â°C)"
    case Some(Light) => "Light (lux)"
    case Some(Weight) => "Weight (g)"
    case None => ""
  }

  /** The label pattern: clock time for the one-day range, month and day otherwise. */
  function LabelPattern(range: TimeRange): (r: string)
    ensures r == "HH:mm" <==> range == Last24h
  {
    if range == Last24h then "HH:mm" else "MMM dd"
  }

  /** The labels, one per reading, in the readings' order. */
  function Labels(s: seq<Reading>, range: TimeRange): (r: seq<Label>)
    ensures |r| == |s|
    ensures forall i :: 0 <= i < |s| ==> r[i].at == TimeKey(s[i]) && r[i].pattern == LabelPattern(range)
  {
    if |s| == 0 then [] else [Label(LabelPattern(range), TimeKey(s[0]))] + Labels(s[1..], range)
  }

  /** The data points, one per reading, in the readings' order. */
  function Points(s: seq<Reading>, m: Metric): (r: seq<real>)
    ensures |r| == |s|
    ensures forall i :: 0 <= i < |s| ==> r[i] == MetricOf(s[i], m)
  {
    if |s| == 0 then [] else [MetricOf(s[0], m)] + Points(s[1..], m)
  }

  /** `chartData` and `options` for a non-empty window: one label and one point per reading. */
  function ChartOf(kept: seq<Reading>, m: Metric, title: string, range: TimeRange): (c: Chart)
    ensures |c.labels| == |kept| && |c.dataset.data| == |kept|
    ensures forall i :: 0 <= i < |kept| ==> c.dataset.data[i] == MetricOf(kept[i], m)
    ensures forall i :: 0 <= i < |kept| ==> c.labels[i].at == TimeKey(kept[i])
    ensures forall i :: 0 <= i < |kept| ==> c.labels[i].pattern == LabelPattern(range)
    ensures c.beginAtZero <==> m == Moisture || m == Light
    ensures c.showTitle <==> title != ""
    ensures c.title == title && c.axisTitle == DataTypeUnit(MetricName(m))
    ensures c.dataset.caption == DataTypeLabel(MetricName(m))
    ensures c.dataset.borderColor == DataTypeColor(MetricName(m))
    ensures c.dataset.backgroundColor == DataTypeColor(MetricName(m)) + "33"
  {
    var color := DataTypeColor(MetricName(m));
    Chart(
      Labels(kept, range),
      Dataset(DataTypeLabel(MetricName(m)), Points(kept, m), color, color + "33"),
      m == Moisture || m == Light,
      DataTypeUnit(MetricName(m)),
      title != "",
      title)
  }

  /** The `timeRange` prop: one day when the parent passes none. */
  function ChartRange(range: Option<TimeRange>): (r: TimeRange)
    ensures range.None? ==> r == DefaultRange
    ensures range.Some? ==> r == range.value
  {
    range.GetOr(DefaultRange)
  }

  /** The `title` prop: empty, and so hidden, when the parent passes none. */
  function ChartTitle(title: Option<string>): (t: string)
    ensures title.None? ==> t == ""
    ensures title.Some? ==> t == title.value
  {
    title.GetOr("")
  }

  /** The component: resolve the optional props, filter and sort, then draw the chart or the placeholder. */
  function Render(readings: seq<Reading>, m: Metric, title: Option<string>, range: Option<TimeRange>, now: int): (v: View)
    ensures v.Drawn? <==> |FilterReadings(readings, now, ChartRange(range))| > 0
    ensures v.Drawn? ==>
      var kept := FilterReadings(readings, now, ChartRange(range));
      && |v.chart.labels| == |kept|
      && |v.chart.dataset.data| == |kept|
      && (forall i :: 0 <= i < |kept| ==> v.chart.dataset.data[i] == MetricOf(kept[i], m))
      && (forall i :: 0 <= i < |kept| ==> Some(v.chart.labels[i].at) == kept[i].timestamp)
      && (forall i, j :: 0 <= i < j < |kept| ==> v.chart.labels[i].at <= v.chart.labels[j].at)
      && (forall i :: 0 <= i < |kept| ==> v.chart.labels[i].pattern == LabelPattern(ChartRange(range)))
      && (v.chart.beginAtZero <==> m == Moisture || m == Light)
      && (v.chart.showTitle <==> title.Some? && title.value != "")
  {
    var kept := FilterReadings(readings, now, ChartRange(range));
    if |kept| == 0 then NoData
    else
      var c := ChartOf(kept, m, ChartTitle(title), ChartRange(range));
      assert forall i :: 0 <= i < |kept| ==> Some(c.labels[i].at) == kept[i].timestamp by {
        forall i | 0 <= i < |kept| ensures Some(c.labels[i].at) == kept[i].timestamp {
          assert kept[i] in kept;
        }
      }
      Drawn(c)
  }
}
