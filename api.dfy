/**
 * Api: what `lambda_handler` does for each route, as functions from the
 * table before the request to the outcome and the table after it. The
 * methods of module Handler perform the same steps against a Table object
 * and are proved to agree with these functions.
 */
module Api {
  import opened Wrappers
  import opened Values
  import opened UpdateExpression
  import opened Store
  import opened Ordering
  import opened Http

  /** The request body as `json.loads(event.get("body") or "{}")` sees it: absent or empty, a JSON value, or text that is not JSON. */
  datatype JsonBody = NoText | Parsed(v: Value) | NotJson

  /** One CSV row as the reader yields it: a cell per header column, None where the row is short. */
  type Row = map<string, Option<string>>

  /**
   * The parts of the event the handler reads. `rows` is what the CSV
   * reader makes of the (possibly base64-encoded) body, or None when the
   * body is missing or cannot be decoded.
   */
  datatype Event = Event(httpMethod: string, rawPath: string, pathParameters: map<string, string>,
                         body: JsonBody, rows: Option<seq<Row>>)

  /** A request ends with a response or with an exception that escapes the handler. */
  datatype Outcome = Reply(response: Response) | Raised(fault: Fault)

  /** The outcome of a request and the table it leaves. */
  datatype Step = Step(out: Outcome, items: map<string, Item>)

  datatype Route = Preflight | ListItems | CreateItem | PatchItem | RemoveItem | ImportItems | ExportItems | NotFound

  predicate StartsWith(s: string, prefix: string) {
    |prefix| <= |s| && s[..|prefix|] == prefix
  }

  /** The branch of the handler a method and path reach; the branches are tried in order. */
  function RouteOf(verb: string, path: string): (r: Route)
    ensures r == Preflight <==> verb == "OPTIONS"
    ensures r == ListItems <==> verb == "GET" && path == "/items"
    ensures r == CreateItem <==> verb == "POST" && path == "/items"
    ensures r == PatchItem <==> verb == "PATCH" && StartsWith(path, "/items/")
    ensures r == RemoveItem <==> verb == "DELETE" && StartsWith(path, "/items/")
    ensures r == ImportItems <==> verb == "POST" && path == "/import"
    ensures r == ExportItems <==> verb == "GET" && path == "/export"
    ensures r == NotFound <==>
      verb != "OPTIONS" && !(verb == "GET" && path == "/items") && !(verb == "POST" && path == "/items") &&
      !(verb == "PATCH" && StartsWith(path, "/items/")) && !(verb == "DELETE" && StartsWith(path, "/items/")) &&
      !(verb == "POST" && path == "/import") && !(verb == "GET" && path == "/export")
  {
    if verb == "OPTIONS" then Preflight
    else if path == "/items" && verb == "GET" then ListItems
    else if path == "/items" && verb == "POST" then CreateItem
    else if StartsWith(path, "/items/") && verb == "PATCH" then PatchItem
    else if StartsWith(path, "/items/") && verb == "DELETE" then RemoveItem
    else if path == "/import" && verb == "POST" then ImportItems
    else if path == "/export" && verb == "GET" then ExportItems
    else NotFound
  }

  /** `path.split("/")[-1]`: the text after the last slash, or the whole path when it has none. */
  function LastSegment(path: string): (r: string)
    ensures |r| <= |path| && r == path[|path| - |r|..]
    ensures forall i | 0 <= i < |r| :: r[i] != '/'
    ensures |r| < |path| ==> path[|path| - |r| - 1] == '/'
    decreases |path|
  {
    if path == [] || path[|path| - 1] == '/' then []
    else LastSegment(path[..|path| - 1]) + [path[|path| - 1]]
  }

  /** `path_params.get("id") or path.split("/")[-1]`. */
  function ItemId(params: map<string, string>, path: string): (r: string)
    ensures "id" in params && params["id"] != "" ==> r == params["id"]
    ensures !("id" in params && params["id"] != "") ==>
              |r| <= |path| && r == path[|path| - |r|..] && (forall i | 0 <= i < |r| :: r[i] != '/') &&
              (|r| < |path| ==> path[|path| - |r| - 1] == '/')
  {
    if "id" in params && params["id"] != "" then params["id"] else LastSegment(path)
  }

  /** `json.loads(event.get("body") or "{}")`: an absent or empty body reads as an empty dict. */
  function ParseBody(body: JsonBody): (r: Result<Value, Fault>)
    ensures r.Err? <==> body == NotJson
    ensures body == NoText ==> r == Ok(Object(map[]))
  {
    match body
    case NoText => Ok(Object(map[]))
    case Parsed(v) => Ok(v)
    case NotJson => Err(MalformedBody)
  }

  /** `d.get(key, default)` on a dict. */
  function Get(m: map<string, Value>, key: string, default: Value): Value {
    if key in m then m[key] else default
  }

  /**
   * The item the create and import branches write: the name as given, and
   * quantity and price through `Decimal(str(...))`, quantity first.
   */
  function MakeItem(id: string, name: Value, quantity: Value, price: Value): (r: Result<Item, Fault>)
    ensures r.Ok? <==> ToDecimal(quantity).Ok? && ToDecimal(price).Ok?
    ensures r.Err? ==> r.error == InvalidOperation
    ensures r.Ok? ==> r.value.id == id && WellFormedItem(r.value) && r.value.attrs.Keys == ItemAttributes &&
                      r.value.attrs["name"] == name &&
                      r.value.attrs["quantity"] == ToDecimal(quantity).value &&
                      r.value.attrs["price"] == ToDecimal(price).value
  {
    match ToDecimal(quantity)
    case Err(e) => Err(e)
    case Ok(q) =>
      match ToDecimal(price)
      case Err(e) => Err(e)
      case Ok(p) => Ok(Item(id, map["name" := name, "quantity" := q, "price" := p]))
  }

  /** A reply carries the fixed headers with the given content type; an exception carries none. */
  predicate Carries(out: Outcome, contentType: string) {
    out.Reply? ==> out.response.headers == Headers(contentType)
  }

  function JsonReply(status: int, doc: Value): Outcome {
    Reply(Respond(status, Doc(doc), JsonType))
  }

  /** POST /items with a parsed body: 400 without a name, otherwise one new item under `id`. */
  function CreateStep(items: map<string, Item>, data: Value, id: string): (st: Step)
    ensures Carries(st.out, JsonType)
  {
    match Contains(data, "name")
    case Err(e) => Step(Raised(e), items)
    case Ok(present) =>
      if !present then Step(JsonReply(400, ErrorDoc("Name required")), items)
      else match Subscript(data, "name")
        case Err(e) => Step(Raised(e), items)
        case Ok(name) =>
          match MakeItem(id, name, Get(data.fields, "quantity", Num(Zero)), Get(data.fields, "price", Num(Zero)))
          case Err(e) => Step(Raised(e), items)
          case Ok(item) => Step(JsonReply(201, ItemValue(item)), items[id := item])
  }

  /**
   * PATCH /items/{id}: resolve the id, build the update from the body,
   * send it, and answer with the item read back.
   */
  function PatchStep(items: map<string, Item>, params: map<string, string>, path: string, body: JsonBody): (st: Step)
    ensures Carries(st.out, JsonType)
  {
    var id := ItemId(params, path);
    if id == "" then Step(JsonReply(400, ErrorDoc("Missing item id")), items)
    else match ParseBody(body)
      case Err(e) => Step(Raised(e), items)
      case Ok(data) =>
        match UpdatePlanOf(data)
        case Err(e) => Step(Raised(e), items)
        case Ok(plan) =>
          if plan.clauses == [] then Step(JsonReply(400, ErrorDoc("No fields to update")), items)
          else SendUpdate(items, RequestFor(id, plan))
  }

  /** `update_item` with the request, then `get_item` on its key to answer 200 with the item. */
  function SendUpdate(items: map<string, Item>, req: UpdateRequest): (st: Step)
    ensures Carries(st.out, JsonType)
  {
    match CheckUpdate(req)
    case Err(e) => Step(Raised(e), items)
    case Ok(_) =>
      var after := Updated(items, req);
      Step(Reply(Respond(200, if req.key in after then Doc(ItemValue(after[req.key])) else NoBody, JsonType)), after)
  }

  /** DELETE /items/{id}: remove the id, whether or not it is stored. */
  function DeleteStep(items: map<string, Item>, params: map<string, string>, path: string): (st: Step)
    ensures Carries(st.out, JsonType)
    ensures st.items.Keys <= items.Keys && forall k | k in st.items :: st.items[k] == items[k]
    ensures ItemId(params, path) != "" ==> ItemId(params, path) !in st.items
  {
    var id := ItemId(params, path);
    if id == "" then Step(JsonReply(400, ErrorDoc("Missing item id")), items)
    else Step(Reply(Respond(204, Text(""), JsonType)), items - {id})
  }

  /** `row.get(column, default)`: a short row's missing cell is None. */
  function CellValue(row: Row, column: string, default: Value): (v: Value)
    ensures column !in row ==> v == default
    ensures column in row ==> (v.Null? <==> row[column].None?) && (v.Str? <==> row[column].Some?)
    ensures column in row && row[column].Some? ==> v.s == row[column].value
  {
    if column !in row then default
    else match row[column]
      case None => Null
      case Some(text) => Str(text)
  }

  /** The item one CSV row becomes. */
  function ImportItem(row: Row, id: string): (r: Result<Item, Fault>)
    ensures r.Err? ==> r.error == InvalidOperation
    ensures r.Ok? ==> r.value.id == id && WellFormedItem(r.value) && r.value.attrs.Keys == ItemAttributes
  {
    MakeItem(id, CellValue(row, "name", Str("")), CellValue(row, "quantity", Num(Zero)), CellValue(row, "price", Num(Zero)))
  }

  /** The count so far (or the exception that stopped the import) and the table. */
  datatype Imported = Imported(count: Result<nat, Fault>, items: map<string, Item>)

  /**
   * The import loop over `rows`, row i stored under `ids[i]`. A row that
   * raises ends the loop; the rows before it stay written, since the batch
   * writer flushes on leaving its block whatever the reason.
   */
  function ImportRows(items: map<string, Item>, rows: seq<Row>, ids: seq<string>): (r: Imported)
    requires |ids| >= |rows|
    ensures r.count.Ok? ==> r.count.value == |rows|
    ensures r.count.Err? ==> r.count.error == InvalidOperation
    ensures items.Keys <= r.items.Keys
    decreases |rows|
  {
    if rows == [] then Imported(Ok(0), items)
    else
      var n := |rows| - 1;
      var before := ImportRows(items, rows[..n], ids);
      if before.count.Err? then before
      else match ImportItem(rows[n], ids[n])
        case Err(e) => Imported(Err(e), before.items)
        case Ok(item) => Imported(Ok(before.count.value + 1), before.items[item.id := item])
  }

  function Digit(d: nat): char
    requires d < 10
  {
    "0123456789"[d]
  }

  /** The decimal text of a count. */
  function NatText(n: nat): string
    decreases n
  {
    if n < 10 then [Digit(n)] else NatText(n / 10) + [Digit(n % 10)]
  }

  /** The reply document `{"imported": count}`. */
  function ImportedDoc(count: nat): Value {
    Object(map["imported" := Num(Number(NatText(count)))])
  }

  function ImportStep(items: map<string, Item>, rows: seq<Row>, ids: seq<string>): (st: Step)
    requires |ids| >= |rows|
    ensures Carries(st.out, JsonType)
  {
    var r := ImportRows(items, rows, ids);
    match r.count
    case Err(e) => Step(Raised(e), r.items)
    case Ok(n) => Step(JsonReply(200, ImportedDoc(n)), r.items)
  }

  /** The CSV columns of the export, in order. */
  const ExportColumns: seq<string> := ["id", "name", "quantity", "price"]

  /** The row the CSV writer is given for an item: its fields, "" for a missing column. */
  function ExportRow(item: Item): (row: map<string, Value>)
    ensures row.Keys == {"id", "name", "quantity", "price"}
    ensures row["id"] == Str(item.id)
    ensures forall c | c in row && c != "id" :: row[c] == if c in item.attrs then item.attrs[c] else Str("")
  {
    var v := ItemValue(item).fields;
    map c | c in ExportColumns :: if c in v then v[c] else Str("")
  }

  /** The writer accepts an item whose fields are all among the columns. */
  predicate Writable(item: Item) {
    forall a | a in item.attrs :: a in ExportColumns
  }

  function ExportRows(listing: seq<Item>): seq<map<string, Value>> {
    seq(|listing|, i requires 0 <= i < |listing| => ExportRow(listing[i]))
  }

  /** GET /export: the scanned items as CSV, in scan order; an item with another field makes the writer raise. */
  function ExportOutcome(listing: seq<Item>): (out: Outcome)
    ensures out.Raised? <==> exists i | 0 <= i < |listing| :: !Writable(listing[i])
    ensures out.Raised? ==> out.fault == ValueError
    ensures out.Reply? ==> out.response.status == 200 && Carries(out, CsvType) &&
                           out.response.body.CsvText? && |out.response.body.rows| == |listing|
  {
    if exists i | 0 <= i < |listing| :: !Writable(listing[i]) then Raised(ValueError)
    else Reply(Respond(200, Csv(ExportColumns, ExportRows(listing)), CsvType))
  }

  function ItemValues(s: seq<Item>): (r: seq<Value>)
    ensures |r| == |s| && forall i | 0 <= i < |s| :: r[i] == ItemValue(s[i])
  {
    seq(|s|, i requires 0 <= i < |s| => ItemValue(s[i]))
  }

  /** GET /items: the scanned items sorted by id. */
  function ListOutcome(listing: seq<Item>): (out: Outcome)
    ensures out.Reply? && out.response.status == 200 && Carries(out, JsonType)
    ensures out.response.body.Json? && out.response.body.doc.List? &&
            |out.response.body.doc.elems| == |listing|
  {
    var sorted := SortById(listing);
    assert |sorted| == |multiset(sorted)| == |multiset(listing)| == |listing|;
    JsonReply(200, List(ItemValues(sorted)))
  }

  /** How many fresh ids a request may consume. */
  function IdsNeeded(event: Event): nat {
    if event.rows.Some? then |event.rows.value| + 1 else 1
  }

  /**
   * `lambda_handler`: dispatch on method and path. `ids` supplies the fresh
   * ids `uuid4` would draw, and `listing` is what a scan of the table
   * returns, in the store's order.
   */
  function Handle(items: map<string, Item>, event: Event, ids: seq<string>, listing: seq<Item>): (st: Step)
    requires |ids| >= IdsNeeded(event)
    ensures RouteOf(event.httpMethod, event.rawPath) in {Preflight, ListItems, ExportItems, NotFound} ==>
              st.items == items
    ensures st.out.Raised? && RouteOf(event.httpMethod, event.rawPath) !in {CreateItem, PatchItem, ImportItems} ==>
              RouteOf(event.httpMethod, event.rawPath) == ExportItems
  {
    match RouteOf(event.httpMethod, event.rawPath)
    case Preflight => Step(Reply(Respond(200, Text(""), JsonType)), items)
    case ListItems => Step(ListOutcome(listing), items)
    case CreateItem =>
      (match ParseBody(event.body)
       case Err(e) => Step(Raised(e), items)
       case Ok(data) => CreateStep(items, data, ids[0]))
    case PatchItem => PatchStep(items, event.pathParameters, event.rawPath, event.body)
    case RemoveItem => DeleteStep(items, event.pathParameters, event.rawPath)
    case ImportItems =>
      (match event.rows
       case None => Step(Raised(MalformedBody), items)
       case Some(rows) => ImportStep(items, rows, ids))
    case ExportItems => Step(ExportOutcome(listing), items)
    case NotFound => Step(JsonReply(404, ErrorDoc("Not found")), items)
  }
}
