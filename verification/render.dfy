/**
 * What a widget card shows under its title: one of two hard-wired charts,
 * the widget's own doughnut chart, or its text. Colours, labels' styling and
 * chart options other than the widget's own are presentation and not kept.
 */
module Render {
  import opened Wrappers
  import opened Model
  import opened Dashboard

  /** The abstract outcome of drawing a widget body. */
  datatype Rendering =
    | FixedChart(labels: seq<string>, values: seq<int>)
    | WidgetChart(data: Option<Json>, options: Option<Json>)
    | Text(content: string)

  const CloudAccountsId: string := "cloud-accounts"
  const CloudRiskId: string := "cloud-risk-assessment"

  const CloudAccountsChart: Rendering :=
    FixedChart(["Connected", "Not Connected"], [2, 2])
  const CloudRiskChart: Rendering :=
    FixedChart(["Failed", "Warning", "Not Available", "Passed"], [1689, 681, 36, 7253])

  /** The two hard-wired charts as a lookup table keyed by widget id. */
  const FixedCharts: map<string, Rendering> :=
    map[CloudAccountsId := CloudAccountsChart, CloudRiskId := CloudRiskChart]

  /**
   * First match wins: the two special ids, then a widget of type "donut",
   * then the text content.
   */
  function RenderWidget(w: Widget): (r: Rendering)
    ensures w.id in FixedCharts ==> r == FixedCharts[w.id]
    ensures w.id !in FixedCharts && w.kind == Some("donut") ==> r == WidgetChart(w.data, w.options)
    ensures w.id !in FixedCharts && w.kind != Some("donut") ==> r == Text(w.content)
  {
    if w.id == CloudAccountsId then CloudAccountsChart
    else if w.id == CloudRiskId then CloudRiskChart
    else if w.kind == Some("donut") then WidgetChart(w.data, w.options)
    else Text(w.content)
  }

  /** A hard-wired chart depends on the id alone: name, content, type and data are ignored. */
  lemma FixedChartIgnoresFields(v: Widget, w: Widget)
    requires v.id == w.id && v.id in FixedCharts
    ensures RenderWidget(v) == RenderWidget(w)
    ensures RenderWidget(v).FixedChart? && |RenderWidget(v).labels| == |RenderWidget(v).values|
  {
  }

  /** The text fallback shows the content verbatim, empty content included, and nothing else of the widget. */
  lemma TextShowsContent(w: Widget)
    requires RenderWidget(w).Text?
    ensures RenderWidget(w).content == w.content
    ensures w.id !in FixedCharts && w.kind != Some("donut")
  {
  }

  /**
   * A widget added through the drawer renders as empty text unless its
   * derived id is one of the hard-wired ones, in which case it shows that
   * chart.
   */
  lemma AddedWidgetRendering(text: string)
    ensures var w := NewWidget(text);
            (RenderWidget(w) == Text("") <==> w.id !in FixedCharts)
            && (w.id in FixedCharts ==> RenderWidget(w) == FixedCharts[w.id])
  {
  }
}
