/**
 * Handler: `lambda_handler` as it runs, one method per branch, each working
 * on the Table object through its put, get, update, delete and scan calls.
 * Every method is proved to end in the outcome and the table that module
 * Api specifies.
 */
module Handler {
  import opened Wrappers
  import opened Values
  import opened UpdateExpression
  import opened Store
  import opened Ordering
  import opened Http
  import opened Api
  import opened ApiProperties

  /** POST /items with a parsed body; `id` is the fresh id drawn for the item. */
  method HandleCreate(table: Table, data: Value, id: string) returns (out: Outcome)
    modifies table
    ensures Step(out, table.items) == CreateStep(old(table.items), data, id)
  {
    var present := Contains(data, "name");
    if present.Err? {
      return Raised(present.error);
    }
    if !present.value {
      return JsonReply(400, ErrorDoc("Name required"));
    }
    var name := Subscript(data, "name");
    if name.Err? {
      return Raised(name.error);
    }
    var item := MakeItem(id, name.value, Get(data.fields, "quantity", Num(Zero)), Get(data.fields, "price", Num(Zero)));
    if item.Err? {
      return Raised(item.error);
    }
    table.PutItem(item.value);
    out := JsonReply(201, ItemValue(item.value));
  }

  /** PATCH /items/{id}: build the update with the builder loop, send it, read the item back. */
  method HandlePatch(table: Table, params: map<string, string>, path: string, body: JsonBody) returns (out: Outcome)
    modifies table
    ensures Step(out, table.items) == PatchStep(old(table.items), params, path, body)
  {
    var id := ItemId(params, path);
    if id == "" {
      return JsonReply(400, ErrorDoc("Missing item id"));
    }
    var data := ParseBody(body);
    if data.Err? {
      return Raised(data.error);
    }
    var plan := BuildUpdate(data.value);
    if plan.Err? {
      return Raised(plan.error);
    }
    if plan.value.clauses == [] {
      return JsonReply(400, ErrorDoc("No fields to update"));
    }
    var sent := table.UpdateItem(RequestFor(id, plan.value));
    if sent.Err? {
      return Raised(sent.error);
    }
    var item := table.GetItem(id);
    var payload := if item.Some? then Doc(ItemValue(item.value)) else NoBody;
    out := Reply(Respond(200, payload, JsonType));
  }

  /** DELETE /items/{id}. */
  method HandleDelete(table: Table, params: map<string, string>, path: string) returns (out: Outcome)
    modifies table
    ensures Step(out, table.items) == DeleteStep(old(table.items), params, path)
  {
    var id := ItemId(params, path);
    if id == "" {
      return JsonReply(400, ErrorDoc("Missing item id"));
    }
    table.DeleteItem(id);
    out := Reply(Respond(204, Text(""), JsonType));
  }

  /** A row after one that raised is not looked at. */
  lemma ImportAfterError(items: map<string, Item>, rows: seq<Row>, ids: seq<string>)
    requires 0 < |rows| <= |ids|
    requires ImportRows(items, rows[..|rows| - 1], ids).count.Err?
    ensures ImportRows(items, rows, ids) == ImportRows(items, rows[..|rows| - 1], ids)
  {
  }

  /** Once a row has raised, the rows after it change nothing. */
  lemma {:induction false} ImportStopsAtError(items: map<string, Item>, rows: seq<Row>, ids: seq<string>, k: nat)
    requires k <= |rows| <= |ids|
    requires ImportRows(items, rows[..k], ids).count.Err?
    ensures ImportRows(items, rows, ids) == ImportRows(items, rows[..k], ids)
    decreases |rows|
  {
    if |rows| == k {
      assert rows[..k] == rows;
    } else {
      var n := |rows| - 1;
      assert rows[..n][..k] == rows[..k];
      ImportStopsAtError(items, rows[..n], ids, k);
      ImportAfterError(items, rows, ids);
    }
  }

  /** POST /import over the parsed rows: one put per row, counting them. */
  method HandleImport(table: Table, rows: seq<Row>, ids: seq<string>) returns (out: Outcome)
    requires |ids| >= |rows|
    modifies table
    ensures Step(out, table.items) == ImportStep(old(table.items), rows, ids)
  {
    var count := 0;
    for i := 0 to |rows|
      invariant ImportRows(old(table.items), rows[..i], ids) == Imported(Ok(count), table.items)
    {
      assert rows[..i + 1][..i] == rows[..i];
      var item := ImportItem(rows[i], ids[i]);
      if item.Err? {
        ImportStopsAtError(old(table.items), rows, ids, i + 1);
        return Raised(item.error);
      }
      table.PutItem(item.value);
      count := count + 1;
    }
    assert rows[..|rows|] == rows;
    out := JsonReply(200, ImportedDoc(count));
  }

  /** GET /items: scan, then sort by id. */
  method HandleList(table: Table) returns (out: Outcome, ghost listing: seq<Item>)
    requires KeyedById(table.items)
    ensures Lists(listing, table.items)
    ensures out == ListOutcome(listing)
  {
    var s := table.Scan();
    listing := s;
    var sorted := SortById(s);
    out := JsonReply(200, List(ItemValues(sorted)));
  }

  /** GET /export: scan, then write the CSV table. */
  method HandleExport(table: Table) returns (out: Outcome, ghost listing: seq<Item>)
    requires KeyedById(table.items)
    ensures Lists(listing, table.items)
    ensures out == ExportOutcome(listing)
  {
    var s := table.Scan();
    listing := s;
    out := ExportOutcome(s);
  }

  /**
   * `lambda_handler`. `ids` stands for the ids `uuid4` draws, `listing` is
   * the scan the store returned when the branch scans. The table may hold
   * items with other attributes of JSON-like types, written by other
   * clients; the handler
   * keeps every item under its own id, and keeps a well-formed table well
   * formed.
   */
  method LambdaHandler(table: Table, event: Event, ids: seq<string>) returns (out: Outcome, ghost listing: seq<Item>)
    requires KeyedById(table.items) && |ids| >= IdsNeeded(event)
    modifies table
    ensures KeyedById(table.items)
    ensures old(table.Valid()) ==> table.Valid()
    ensures RouteOf(event.httpMethod, event.rawPath) in {ListItems, ExportItems} ==> Lists(listing, old(table.items))
    ensures Step(out, table.items) == Handle(old(table.items), event, ids, listing)
  {
    listing := [];
    var route := RouteOf(event.httpMethod, event.rawPath);
    match route {
      case Preflight =>
        out := Reply(Respond(200, Text(""), JsonType));
      case ListItems =>
        out, listing := HandleList(table);
      case CreateItem =>
        var data := ParseBody(event.body);
        if data.Err? {
          out := Raised(data.error);
        } else {
          out := HandleCreate(table, data.value, ids[0]);
        }
      case PatchItem =>
        out := HandlePatch(table, event.pathParameters, event.rawPath, event.body);
      case RemoveItem =>
        out := HandleDelete(table, event.pathParameters, event.rawPath);
      case ImportItems =>
        if event.rows.None? {
          out := Raised(MalformedBody);
        } else {
          out := HandleImport(table, event.rows.value, ids);
        }
      case ExportItems =>
        out, listing := HandleExport(table);
      case NotFound =>
        out := JsonReply(404, ErrorDoc("Not found"));
    }
    HandleKeepsKeyedById(old(table.items), event, ids, listing);
    if old(table.Valid()) {
      HandleKeepsTableWellFormed(old(table.items), event, ids, listing);
    }
  }
}
