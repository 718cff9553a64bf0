/**
 * Http: the response envelope every branch of the handler returns. The
 * headers are the same four on every response; a dict or list body is
 * serialised as JSON, and a body that is None or empty becomes "".
 */
module Http {
  import opened Values

  /**
   * What a branch hands to `response`: nothing, a text, a dict or list to
   * serialise as JSON, or the CSV table the export writes (its columns and
   * its rows, each row a map from column to cell).
   */
  datatype Payload =
    | NoBody
    | Text(s: string)
    | Doc(doc: Value)
    | Csv(columns: seq<string>, rows: seq<map<string, Value>>)

  /**
   * The body of a response: a text, the JSON serialisation of a document,
   * or the CSV text of a table. Serialisation itself is not modelled: Json
   * and CsvText stand for the texts `json.dumps` and the CSV writer produce.
   */
  datatype Body =
    | Raw(text: string)
    | Json(doc: Value)
    | CsvText(columns: seq<string>, rows: seq<map<string, Value>>)

  datatype Response = Response(status: int, headers: map<string, string>, body: Body)

  const JsonType := "application/json"
  const CsvType := "text/csv"

  /** The headers of every response: its content type and the cross-origin permissions. */
  function Headers(contentType: string): (h: map<string, string>)
    ensures h.Keys == {"Content-Type", "Access-Control-Allow-Origin",
                       "Access-Control-Allow-Methods", "Access-Control-Allow-Headers"}
    ensures h["Content-Type"] == contentType
    ensures h["Access-Control-Allow-Origin"] == "*"
    ensures h["Access-Control-Allow-Methods"] == "GET,POST,PATCH,DELETE,OPTIONS"
    ensures h["Access-Control-Allow-Headers"] == "Content-Type"
  {
    map["Content-Type" := contentType,
        "Access-Control-Allow-Origin" := "*",
        "Access-Control-Allow-Methods" := "GET,POST,PATCH,DELETE,OPTIONS",
        "Access-Control-Allow-Headers" := "Content-Type"]
  }

  /**
   * `response(status, body, content_type)`: a dict or list is serialised
   * (its text is never empty), a non-empty text is kept, and None or ""
   * becomes "". The CSV text always holds at least the header line.
   */
  function Respond(status: int, payload: Payload, contentType: string): (r: Response)
    ensures r.status == status && r.headers == Headers(contentType)
    ensures r.body == Raw("") <==> payload == NoBody || payload == Text("")
    ensures payload.Text? ==> r.body == Raw(payload.s)
    ensures payload.Doc? ==> r.body == Json(payload.doc)
    ensures payload.Csv? ==> r.body == CsvText(payload.columns, payload.rows)
  {
    var body :=
      match payload
      case NoBody => Raw("")
      case Text(s) => Raw(s)
      case Doc(v) => Json(v)
      case Csv(cols, rows) => CsvText(cols, rows);
    Response(status, Headers(contentType), body)
  }

  /** The JSON error document `{"error": message}`. */
  function ErrorDoc(message: string): (v: Value)
    ensures v.Object? && v.fields.Keys == {"error"} && v.fields["error"] == Str(message)
  {
    Object(map["error" := Str(message)])
  }
}
