/** The entities of the dashboard: widgets grouped into categories. */
module Model {
  import opened Wrappers

  /** A JSON value, the shape of the chart payload a seed widget may carry. */
  datatype Json =
    | JNull
    | JBool(b: bool)
    | JNumber(n: int)
    | JString(s: string)
    | JArray(items: seq<Json>)
    | JObject(fields: seq<(string, Json)>)

  /**
   * A widget card. `kind` is the optional `type` property; `data` and
   * `options` are the optional chart payload handed to the doughnut chart.
   */
  datatype Widget = Widget(
    id: string,
    name: string,
    content: string,
    kind: Option<string>,
    data: Option<Json>,
    options: Option<Json>)

  /** A named, ordered group of widgets. Nothing makes `id` unique. */
  datatype Category = Category(id: string, name: string, widgets: seq<Widget>)
}
