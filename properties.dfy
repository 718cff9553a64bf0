/**
 * ApiProperties: what each branch of `lambda_handler` promises, proved of
 * the step functions of module Api for all inputs.
 */
module ApiProperties {
  import opened Wrappers
  import opened Values
  import opened UpdateExpression
  import opened Store
  import opened Ordering
  import opened Http
  import opened Api

  /** Every reply carries the four fixed headers, with the JSON type except for the CSV export. */
  lemma RepliesCarryCorsHeaders(items: map<string, Item>, event: Event, ids: seq<string>, listing: seq<Item>)
    requires |ids| >= IdsNeeded(event)
    ensures Carries(Handle(items, event, ids, listing).out,
                    if RouteOf(event.httpMethod, event.rawPath) == ExportItems then CsvType else JsonType)
  {
  }

  /** OPTIONS gets 200 with an empty body on any path, and nothing is stored or removed. */
  lemma PreflightAnswered(items: map<string, Item>, event: Event, ids: seq<string>, listing: seq<Item>)
    requires |ids| >= IdsNeeded(event) && event.httpMethod == "OPTIONS"
    ensures var st := Handle(items, event, ids, listing);
      st.items == items && st.out.Reply? &&
      st.out.response.status == 200 && st.out.response.body == Raw("")
  {
  }

  /** A method and path no branch matches gets 404 `{"error": "Not found"}` and changes nothing. */
  lemma UnmatchedNotFound(items: map<string, Item>, event: Event, ids: seq<string>, listing: seq<Item>)
    requires |ids| >= IdsNeeded(event)
    requires RouteOf(event.httpMethod, event.rawPath) == NotFound
    ensures var st := Handle(items, event, ids, listing);
      st.items == items && st.out == Reply(Respond(404, Doc(ErrorDoc("Not found")), JsonType))
  {
  }

  /** The id is empty exactly when no non-empty `id` parameter is given and the path ends in a slash or is empty. */
  lemma ItemIdEmpty(params: map<string, string>, path: string)
    ensures ItemId(params, path) == "" <==>
              !("id" in params && params["id"] != "") && (path == "" || path[|path| - 1] == '/')
  {
    if !("id" in params && params["id"] != "") && path != "" && path[|path| - 1] != '/' {
      assert LastSegment(path) == LastSegment(path[..|path| - 1]) + [path[|path| - 1]];
    }
  }

  /** PATCH and DELETE without a usable id answer 400 `{"error": "Missing item id"}` before touching the table. */
  lemma MissingIdRefused(items: map<string, Item>, params: map<string, string>, path: string, body: JsonBody)
    requires ItemId(params, path) == ""
    ensures PatchStep(items, params, path, body) == Step(JsonReply(400, ErrorDoc("Missing item id")), items)
    ensures DeleteStep(items, params, path) == Step(JsonReply(400, ErrorDoc("Missing item id")), items)
  {
  }

  /** DELETE answers 204 with an empty body whether or not the id was stored, and the id is gone afterwards. */
  lemma DeleteRemoves(items: map<string, Item>, params: map<string, string>, path: string)
    requires ItemId(params, path) != ""
    ensures var st := DeleteStep(items, params, path);
      var id := ItemId(params, path);
      st.out.Reply? && st.out.response.status == 204 && st.out.response.body == Raw("") &&
      id !in st.items && (forall k | k in items && k != id :: k in st.items && st.items[k] == items[k]) &&
      st.items.Keys <= items.Keys
  {
    var id := ItemId(params, path);
    assert DeleteStep(items, params, path) == Step(Reply(Respond(204, Text(""), JsonType)), items - {id});
  }

  /** POST /items with a dict body lacking `name` answers 400 `{"error": "Name required"}` and stores nothing. */
  lemma CreateNeedsName(items: map<string, Item>, m: map<string, Value>, id: string)
    requires "name" !in m
    ensures CreateStep(items, Object(m), id) == Step(JsonReply(400, ErrorDoc("Name required")), items)
  {
  }

  /**
   * POST /items with a name and valid numbers answers 201 with the new
   * item and adds exactly that item under the fresh id; quantity and price
   * default to 0.
   */
  lemma CreateAddsOneItem(items: map<string, Item>, m: map<string, Value>, id: string)
    requires "name" in m && id !in items
    requires "quantity" in m ==> ToDecimal(m["quantity"]).Ok?
    requires "price" in m ==> ToDecimal(m["price"]).Ok?
    ensures var st := CreateStep(items, Object(m), id);
      id in st.items && st.items == items[id := st.items[id]] && |st.items| == |items| + 1 &&
      var item := st.items[id];
      item.id == id && st.out == JsonReply(201, ItemValue(item)) &&
      item.attrs.Keys == ItemAttributes &&
      item.attrs["name"] == m["name"] &&
      item.attrs["quantity"] == (if "quantity" in m then ToDecimal(m["quantity"]).value else Dec(Zero)) &&
      item.attrs["price"] == (if "price" in m then ToDecimal(m["price"]).value else Dec(Zero))
  {
    var st := CreateStep(items, Object(m), id);
    assert st.items == items[id := st.items[id]];
    assert |st.items| == |items| + 1 by {
      assert st.items.Keys == items.Keys + {id};
    }
  }

  /** POST /items whose quantity or price is not a number raises and stores nothing. */
  lemma CreateRefusesBadNumber(items: map<string, Item>, m: map<string, Value>, id: string)
    requires "name" in m
    requires ("quantity" in m && ToDecimal(m["quantity"]).Err?) || ("price" in m && ToDecimal(m["price"]).Err?)
    ensures CreateStep(items, Object(m), id) == Step(Raised(InvalidOperation), items)
  {
  }

  /** PATCH with a dict body holding none of name, quantity and price answers 400 `{"error": "No fields to update"}` and changes nothing. */
  lemma PatchNeedsAField(items: map<string, Item>, params: map<string, string>, path: string, m: map<string, Value>)
    requires ItemId(params, path) != ""
    requires "name" !in m && "quantity" !in m && "price" !in m
    ensures PatchStep(items, params, path, Parsed(Object(m))) ==
              Step(JsonReply(400, ErrorDoc("No fields to update")), items)
  {
    EditsOfDict(m, Fields);
    NoClausesIffNoField(m);
  }

  /** A dict body with at least one field and valid numbers gives a non-empty plan. */
  lemma DictBodyPlan(m: map<string, Value>)
    requires "name" in m || "quantity" in m || "price" in m
    requires forall k | k in NumericFields && k in m :: ToDecimal(m[k]).Ok?
    ensures EditsOf(Object(m), Fields).Ok?
    ensures UpdatePlanOf(Object(m)).Ok? && UpdatePlanOf(Object(m)).value.clauses != []
  {
    EditsOfDict(m, Fields);
    forall k | k in Fields && k in m && k in NumericFields ensures ToDecimal(m[k]).Ok? { }
    NoClausesIffNoField(m);
  }

  /**
   * A PATCH with a dict body holding at least one of the fields, with
   * valid numbers, sets the body's edits on the item under the id
   * (creating it when absent), leaves every other item as it was, and
   * answers 200 with the item read back.
   */
  lemma PatchSetsSuppliedFields(items: map<string, Item>, params: map<string, string>, path: string, m: map<string, Value>)
    requires ItemId(params, path) != ""
    requires "name" in m || "quantity" in m || "price" in m
    requires forall k | k in NumericFields && k in m :: ToDecimal(m[k]).Ok?
    ensures EditsOf(Object(m), Fields).Ok?
    ensures var st := PatchStep(items, params, path, Parsed(Object(m)));
      var id := ItemId(params, path);
      st.items == items[id := Item(id, AttrsOf(items, id) + EditMap(EditsOf(Object(m), Fields).value))] &&
      st.out == Reply(Respond(200, Doc(ItemValue(st.items[id])), JsonType))
  {
    var id := ItemId(params, path);
    var data := Object(m);
    DictBodyPlan(m);
    var plan := UpdatePlanOf(data).value;
    var req := RequestFor(id, plan);
    BuiltRequestAccepted(id, data);
    BuiltRequestApplies(AttrsOf(items, id), id, data);
    assert ParseBody(Parsed(data)) == Ok(data);
    var after := items[id := Item(id, ApplyClauses(AttrsOf(items, id), req.clauses, req.values, NamesOf(req.names)))];
    assert PatchStep(items, params, path, Parsed(data)) ==
      Step(Reply(Respond(200, if id in after then Doc(ItemValue(after[id])) else NoBody, JsonType)), after);
  }

  /** One more key adds the edit that key yields, if any, after the earlier edits. */
  lemma EditsOfStep(data: Value, keys: seq<string>)
    requires keys != [] && EditsOf(data, keys).Ok?
    ensures var init := keys[..|keys| - 1];
      var k := keys[|keys| - 1];
      EditsOf(data, init).Ok? && FieldEdit(data, k).Ok? &&
      EditsOf(data, keys).value ==
        EditsOf(data, init).value + (if FieldEdit(data, k).value.Some? then [Edit(k, FieldEdit(data, k).value.value)] else [])
  {
  }

  /** On a dict body a key yields its value, converted for the numeric fields, exactly when the body holds it. */
  lemma FieldEditOfDict(m: map<string, Value>, k: string)
    requires FieldEdit(Object(m), k).Ok?
    ensures k !in m ==> FieldEdit(Object(m), k).value.None?
    ensures k in m ==>
      (k in NumericFields ==> ToDecimal(m[k]).Ok?) &&
      FieldEdit(Object(m), k).value == Some(if k in NumericFields then ToDecimal(m[k]).value else m[k])
  {
  }

  /** One step of the builder on a dict body: a held field adds its edit, another adds nothing. */
  lemma DictEditStep(m: map<string, Value>, keys: seq<string>)
    requires keys != [] && EditsOf(Object(m), keys).Ok?
    ensures var init := keys[..|keys| - 1];
      var k := keys[|keys| - 1];
      EditsOf(Object(m), init).Ok? &&
      var em := EditMap(EditsOf(Object(m), init).value);
      EditMap(EditsOf(Object(m), keys).value) ==
        if k !in m then em
        else em[k := if k in NumericFields then ToDecimal(m[k]).value else m[k]]
  {
    var k := keys[|keys| - 1];
    EditsOfStep(Object(m), keys);
    FieldEditOfDict(m, k);
    var es := EditsOf(Object(m), keys[..|keys| - 1]).value;
    if k in m {
      var e := Edit(k, FieldEdit(Object(m), k).value.value);
      assert (es + [e])[..|es|] == es;
    } else {
      assert es + [] == es;
    }
  }

  /**
   * The edits of a dict body, as a map: exactly the fields the body holds,
   * each with the body's value, converted to a decimal for the numeric ones.
   */
  lemma {:induction false} DictEditMap(m: map<string, Value>, keys: seq<string>)
    requires EditsOf(Object(m), keys).Ok?
    ensures forall a | a in keys && a in m && a in NumericFields :: ToDecimal(m[a]).Ok?
    ensures var em := EditMap(EditsOf(Object(m), keys).value);
      (forall a :: a in em <==> a in keys && a in m) &&
      (forall a | a in em :: em[a] == (if a in NumericFields then ToDecimal(m[a]).value else m[a]))
    decreases |keys|
  {
    EditsOfDict(m, keys);
    if keys != [] {
      var init := keys[..|keys| - 1];
      assert keys == init + [keys[|keys| - 1]];
      DictEditStep(m, keys);
      DictEditMap(m, init);
    }
  }

  /** The attributes a PATCH leaves: supplied fields take the body's values, all others keep theirs. */
  lemma PatchLeavesOtherAttributes(attrs: map<string, Value>, m: map<string, Value>)
    requires EditsOf(Object(m), Fields).Ok?
    ensures var after := attrs + EditMap(EditsOf(Object(m), Fields).value);
      (forall a | a in attrs && !(a in Fields && a in m) :: a in after && after[a] == attrs[a]) &&
      (forall a | a in Fields && a in m :: a in after &&
         after[a] == (if a in NumericFields then ToDecimal(m[a]).value else m[a])) &&
      (forall a :: a in after <==> a in attrs || (a in Fields && a in m))
  {
    DictEditMap(m, Fields);
  }

  /** A number cell is accepted when it is absent or a numeric text. */
  predicate NumberCell(row: Row, column: string) {
    column !in row || (row[column].Some? && IsDecimalLiteral(row[column].value))
  }

  /**
   * A row is imported exactly when its quantity and price cells are absent
   * or numeric: an empty cell or a row too short to reach the column raises.
   */
  lemma ImportRowAccepted(row: Row, id: string)
    ensures ImportItem(row, id).Ok? <==> NumberCell(row, "quantity") && NumberCell(row, "price")
    ensures ImportItem(row, id).Ok? ==>
      var item := ImportItem(row, id).value;
      item.id == id && WellFormedItem(item) &&
      item.attrs["name"] == CellValue(row, "name", Str("")) &&
      ("quantity" !in row ==> item.attrs["quantity"] == Dec(Zero)) &&
      ("price" !in row ==> item.attrs["price"] == Dec(Zero))
  {
  }

  predicate AllRowsAccepted(rows: seq<Row>) {
    forall i | 0 <= i < |rows| :: NumberCell(rows[i], "quantity") && NumberCell(rows[i], "price")
  }

  /** The first `n` fresh ids. */
  function Drawn(ids: seq<string>, n: nat): set<string>
    requires n <= |ids|
  {
    set i | 0 <= i < n :: ids[i]
  }

  lemma DrawnStep(ids: seq<string>, n: nat)
    requires n < |ids|
    ensures Drawn(ids, n + 1) == Drawn(ids, n) + {ids[n]}
  {
  }

  /** One more valid row adds its item under its id. */
  lemma ImportOneMore(items: map<string, Item>, rows: seq<Row>, ids: seq<string>)
    requires |ids| >= |rows| > 0 && AllRowsAccepted(rows)
    requires ImportRows(items, rows[..|rows| - 1], ids).count.Ok?
    ensures var n := |rows| - 1;
      var before := ImportRows(items, rows[..n], ids);
      ImportItem(rows[n], ids[n]).Ok? &&
      ImportRows(items, rows, ids) ==
        Imported(Ok(before.count.value + 1), before.items[ids[n] := ImportItem(rows[n], ids[n]).value])
  {
    var n := |rows| - 1;
    assert NumberCell(rows[n], "quantity") && NumberCell(rows[n], "price");
    ImportRowAccepted(rows[n], ids[n]);
    ImportUnfold(items, rows, ids);
  }

  /** The import of a non-empty sequence of rows is the import of all but the last, then the last. */
  lemma ImportUnfold(items: map<string, Item>, rows: seq<Row>, ids: seq<string>)
    requires |ids| >= |rows| > 0
    requires ImportRows(items, rows[..|rows| - 1], ids).count.Ok?
    requires ImportItem(rows[|rows| - 1], ids[|rows| - 1]).Ok?
    ensures var n := |rows| - 1;
      var before := ImportRows(items, rows[..n], ids);
      ImportRows(items, rows, ids) ==
        Imported(Ok(before.count.value + 1), before.items[ids[n] := ImportItem(rows[n], ids[n]).value])
  {
  }

  /**
   * An import of valid rows counts every row, adds the row ids to the
   * table and keeps every item stored under another id.
   */
  lemma {:induction false} ImportStoresEveryRow(items: map<string, Item>, rows: seq<Row>, ids: seq<string>)
    requires |ids| >= |rows| && AllRowsAccepted(rows)
    ensures var r := ImportRows(items, rows, ids);
      r.count == Ok(|rows|) &&
      r.items.Keys == items.Keys + Drawn(ids, |rows|) &&
      (forall k | k in items && k !in Drawn(ids, |rows|) :: r.items[k] == items[k])
    decreases |rows|
  {
    if rows != [] {
      var n := |rows| - 1;
      assert AllRowsAccepted(rows[..n]);
      ImportStoresEveryRow(items, rows[..n], ids);
      ImportOneMore(items, rows, ids);
      DrawnStep(ids, n);
    }
  }

  /** Each valid row is stored, under its own fresh id, as the item that row becomes. */
  lemma {:induction false} ImportedRowStored(items: map<string, Item>, rows: seq<Row>, ids: seq<string>, i: nat)
    requires |ids| >= |rows| && AllRowsAccepted(rows) && i < |rows|
    requires forall a, b | 0 <= a < b < |rows| :: ids[a] != ids[b]
    ensures var r := ImportRows(items, rows, ids);
      ids[i] in r.items && Ok(r.items[ids[i]]) == ImportItem(rows[i], ids[i])
    decreases |rows|
  {
    var n := |rows| - 1;
    var before := ImportRows(items, rows[..n], ids);
    assert AllRowsAccepted(rows[..n]);
    ImportStoresEveryRow(items, rows[..n], ids);
    ImportOneMore(items, rows, ids);
    var item := ImportItem(rows[n], ids[n]).value;
    assert ImportRows(items, rows, ids).items == before.items[ids[n] := item];
    if i < n {
      assert rows[..n][i] == rows[i];
      ImportedRowStored(items, rows[..n], ids, i);
      assert ids[i] != ids[n];
    }
  }

  /** Distinct fresh ids make the table grow by exactly the number of rows. */
  lemma ImportGrowsTable(items: map<string, Item>, rows: seq<Row>, ids: seq<string>)
    requires |ids| >= |rows| && AllRowsAccepted(rows)
    requires forall a, b | 0 <= a < b < |rows| :: ids[a] != ids[b]
    requires forall a | 0 <= a < |rows| :: ids[a] !in items
    ensures |ImportRows(items, rows, ids).items| == |items| + |rows|
  {
    ImportStoresEveryRow(items, rows, ids);
    DistinctCount(ids, |rows|);
    assert items.Keys !! Drawn(ids, |rows|);
  }

  /** Distinct ids draw as many ids as were asked for. */
  lemma {:induction false} DistinctCount(ids: seq<string>, n: nat)
    requires n <= |ids| && forall a, b | 0 <= a < b < n :: ids[a] != ids[b]
    ensures |Drawn(ids, n)| == n
    decreases n
  {
    if n > 0 {
      DistinctCount(ids, n - 1);
      DrawnStep(ids, n - 1);
    }
  }

  /** The first row that fails ends the import with its exception; the rows before it are stored. */
  lemma ImportStopsAtBadRow(items: map<string, Item>, rows: seq<Row>, ids: seq<string>, k: nat)
    requires |ids| >= |rows| && k < |rows|
    requires AllRowsAccepted(rows[..k])
    requires !(NumberCell(rows[k], "quantity") && NumberCell(rows[k], "price"))
    ensures ImportRows(items, rows[..k + 1], ids) ==
              Imported(Err(InvalidOperation), ImportRows(items, rows[..k], ids).items)
  {
    ImportStoresEveryRow(items, rows[..k], ids);
    ImportRowAccepted(rows[k], ids[k]);
    assert rows[..k + 1][..k] == rows[..k];
  }

  /** How the CSV writer renders a cell; Python's rendering of a list or dict is not modelled. */
  function CellText(v: Value): Option<string> {
    match v
    case Str(s) => Some(s)
    case Num(n) => Some(n.text)
    case Dec(n) => Some(n.text)
    case Null => Some("")
    case Bool(b) => Some(if b then "True" else "False")
    case _ => None
  }

  /** The row the CSV reader reads back from an exported row. */
  function ReadBack(row: map<string, Value>): Option<Row> {
    if forall c | c in row :: CellText(row[c]).Some?
    then Some(map c | c in row :: Some(CellText(row[c]).value))
    else None
  }

  /** An item the export renders as plain text cells: a text name and two decimals whose text is numeric. */
  predicate PlainItem(item: Item) {
    item.attrs.Keys == ItemAttributes &&
    item.attrs["name"].Str? &&
    item.attrs["quantity"].Dec? && IsDecimalLiteral(item.attrs["quantity"].d.text) &&
    item.attrs["price"].Dec? && IsDecimalLiteral(item.attrs["price"].d.text)
  }

  /** The exported row reads back with the item's name and the texts of its two decimals. */
  lemma ReadBackCells(item: Item)
    requires PlainItem(item)
    ensures ReadBack(ExportRow(item)).Some?
    ensures var back := ReadBack(ExportRow(item)).value;
            CellValue(back, "name", Str("")) == item.attrs["name"] &&
            CellValue(back, "quantity", Num(Zero)) == Str(item.attrs["quantity"].d.text) &&
            CellValue(back, "price", Num(Zero)) == Str(item.attrs["price"].d.text)
  {
    var row := ExportRow(item);
    assert row.Keys == {"id", "name", "quantity", "price"};
    assert row["name"] == item.attrs["name"] && row["quantity"] == item.attrs["quantity"] && row["price"] == item.attrs["price"];
    var back := ReadBack(row).value;
    assert back["quantity"] == Some(item.attrs["quantity"].d.text);
    assert back["price"] == Some(item.attrs["price"].d.text);
  }

  /**
   * Importing an exported row gives back the item's name, quantity and
   * price, under the new id drawn for it: the exported id is not read.
   */
  lemma ExportImportRoundTrip(item: Item, id: string)
    requires PlainItem(item)
    ensures ReadBack(ExportRow(item)).Some?
    ensures ImportItem(ReadBack(ExportRow(item)).value, id) == Ok(Item(id, item.attrs))
  {
    ReadBackCells(item);
    var back := ReadBack(ExportRow(item)).value;
    var made := ImportItem(back, id);
    assert made.Ok?;
    assert made.value.attrs.Keys == item.attrs.Keys;
    assert forall a | a in item.attrs :: made.value.attrs[a] == item.attrs[a];
    assert made.value.attrs == item.attrs;
  }

  /** The export of a well-formed table never raises, and writes one row per stored item. */
  lemma ExportWritesEveryItem(items: map<string, Item>, listing: seq<Item>)
    requires WellFormedTable(items) && Lists(listing, items)
    ensures ExportOutcome(listing) == Reply(Respond(200, Csv(ExportColumns, ExportRows(listing)), CsvType))
    ensures |ExportRows(listing)| == |items|
  {
    forall i | 0 <= i < |listing| ensures Writable(listing[i]) {
      assert WellFormedItem(items[listing[i].id]);
    }
    DistinctIdsCount(listing);
  }

  /**
   * GET /items answers with every stored item once, ascending by id, and
   * the answer is the same whatever order the scan returned.
   */
  lemma ListSortedById(items: map<string, Item>, listing: seq<Item>)
    requires Lists(listing, items)
    ensures var s := SortById(listing);
      Ascending(s) && Lists(s, items) && ListOutcome(listing) == JsonReply(200, List(ItemValues(s)))
  {
    var s := SortById(listing);
    SortKeepsDistinct(listing);
    SortedDistinctAscending(s);
    IdsOfPermutation(s, listing);
    forall i | 0 <= i < |s| ensures s[i].id in items && items[s[i].id] == s[i] {
      assert s[i] in multiset(listing);
    }
  }

  lemma ListIndependentOfScanOrder(items: map<string, Item>, l1: seq<Item>, l2: seq<Item>)
    requires Lists(l1, items) && Lists(l2, items)
    ensures ListOutcome(l1) == ListOutcome(l2)
  {
    ListingIndependentOfScanOrder(l1, l2, items);
  }

  /** Every request leaves a well-formed table well formed. */
  lemma HandleKeepsTableWellFormed(items: map<string, Item>, event: Event, ids: seq<string>, listing: seq<Item>)
    requires WellFormedTable(items) && |ids| >= IdsNeeded(event)
    ensures WellFormedTable(Handle(items, event, ids, listing).items)
  {
    match RouteOf(event.httpMethod, event.rawPath)
    case CreateItem =>
      if ParseBody(event.body).Ok? { CreateKeepsWellFormed(items, ParseBody(event.body).value, ids[0]); }
    case PatchItem => PatchKeepsWellFormed(items, event.pathParameters, event.rawPath, event.body);
    case ImportItems =>
      if event.rows.Some? { ImportKeepsWellFormed(items, event.rows.value, ids); }
    case _ =>
  }

  /** Running a body's edits on a well-formed item keeps it well formed. */
  lemma EditedItemWellFormed(id: string, attrs: map<string, Value>, data: Value)
    requires WellFormedItem(Item(id, attrs)) && EditsOf(data, Fields).Ok?
    ensures WellFormedItem(Item(id, attrs + EditMap(EditsOf(data, Fields).value)))
  {
    var es := EditsOf(data, Fields).value;
    EditMapFrom(es);
    NumericEditsDecimal(data, Fields);
    var after := attrs + EditMap(es);
    forall a | a in EditMap(es) ensures a in ItemAttributes && (a in NumericFields ==> after[a].Dec?) {
      var i :| 0 <= i < |es| && es[i].key == a && EditMap(es)[a] == es[i].value;
    }
  }

  /** Storing a well-formed item under its own id keeps the table well formed. */
  lemma StoreKeepsWellFormed(items: map<string, Item>, item: Item)
    requires WellFormedTable(items) && WellFormedItem(item)
    ensures WellFormedTable(items[item.id := item])
  {
  }

  lemma CreateKeepsWellFormed(items: map<string, Item>, data: Value, id: string)
    requires WellFormedTable(items)
    ensures WellFormedTable(CreateStep(items, data, id).items)
  {
    var st := CreateStep(items, data, id);
    if st.items != items {
      var item := MakeItem(id, Subscript(data, "name").value, Get(data.fields, "quantity", Num(Zero)), Get(data.fields, "price", Num(Zero))).value;
      assert st.items == items[id := item];
      StoreKeepsWellFormed(items, item);
    }
  }

  lemma PatchKeepsWellFormed(items: map<string, Item>, params: map<string, string>, path: string, body: JsonBody)
    requires WellFormedTable(items)
    ensures WellFormedTable(PatchStep(items, params, path, body).items)
  {
    var id := ItemId(params, path);
    if id != "" && ParseBody(body).Ok? {
      var data := ParseBody(body).value;
      if UpdatePlanOf(data).Ok? {
        var req := RequestFor(id, UpdatePlanOf(data).value);
        if req.clauses != [] && CheckUpdate(req).Ok? {
          UpdateKeepsWellFormed(items, id, data);
        }
      }
    }
  }

  /** The update the handler sends for a body leaves a well-formed table well formed. */
  lemma UpdateKeepsWellFormed(items: map<string, Item>, id: string, data: Value)
    requires WellFormedTable(items) && UpdatePlanOf(data).Ok?
    requires CheckUpdate(RequestFor(id, UpdatePlanOf(data).value)).Ok?
    ensures WellFormedTable(Updated(items, RequestFor(id, UpdatePlanOf(data).value)))
  {
    var req := RequestFor(id, UpdatePlanOf(data).value);
    var attrs := AttrsOf(items, id);
    BuiltRequestApplies(attrs, id, data);
    var applied := ApplyClauses(attrs, req.clauses, req.values, NamesOf(req.names));
    EditedItemWellFormed(id, attrs, data);
    StoreKeepsWellFormed(items, Item(id, applied));
  }

  lemma {:induction false} ImportKeepsWellFormed(items: map<string, Item>, rows: seq<Row>, ids: seq<string>)
    requires WellFormedTable(items) && |ids| >= |rows|
    ensures WellFormedTable(ImportRows(items, rows, ids).items)
    decreases |rows|
  {
    if rows != [] {
      ImportKeepsWellFormed(items, rows[..|rows| - 1], ids);
    }
  }

  /**
   * Every request keeps each item under its own id, whatever attributes
   * the items carry: the handler only ever stores an item under its id.
   */
  lemma HandleKeepsKeyedById(items: map<string, Item>, event: Event, ids: seq<string>, listing: seq<Item>)
    requires KeyedById(items) && |ids| >= IdsNeeded(event)
    ensures KeyedById(Handle(items, event, ids, listing).items)
  {
    match RouteOf(event.httpMethod, event.rawPath)
    case CreateItem =>
      if ParseBody(event.body).Ok? { CreateKeepsKeyedById(items, ParseBody(event.body).value, ids[0]); }
    case PatchItem => PatchKeepsKeyedById(items, event.pathParameters, event.rawPath, event.body);
    case ImportItems =>
      if event.rows.Some? { ImportKeepsKeyedById(items, event.rows.value, ids); }
    case _ =>
  }

  lemma CreateKeepsKeyedById(items: map<string, Item>, data: Value, id: string)
    requires KeyedById(items)
    ensures KeyedById(CreateStep(items, data, id).items)
  {
    var st := CreateStep(items, data, id);
    if st.items != items {
      var item := MakeItem(id, Subscript(data, "name").value, Get(data.fields, "quantity", Num(Zero)), Get(data.fields, "price", Num(Zero))).value;
      assert st.items == items[id := item];
    }
  }

  lemma PatchKeepsKeyedById(items: map<string, Item>, params: map<string, string>, path: string, body: JsonBody)
    requires KeyedById(items)
    ensures KeyedById(PatchStep(items, params, path, body).items)
  {
    var id := ItemId(params, path);
    if id != "" && ParseBody(body).Ok? {
      var data := ParseBody(body).value;
      if UpdatePlanOf(data).Ok? {
        var req := RequestFor(id, UpdatePlanOf(data).value);
        if req.clauses != [] && CheckUpdate(req).Ok? {
          UpdatedKeepsKeyedById(items, req);
        }
      }
    }
  }

  /** An accepted update stores the item under the request's key. */
  lemma UpdatedKeepsKeyedById(items: map<string, Item>, req: UpdateRequest)
    requires KeyedById(items) && CheckUpdate(req).Ok?
    ensures KeyedById(Updated(items, req))
  {
  }

  lemma {:induction false} ImportKeepsKeyedById(items: map<string, Item>, rows: seq<Row>, ids: seq<string>)
    requires KeyedById(items) && |ids| >= |rows|
    ensures KeyedById(ImportRows(items, rows, ids).items)
    decreases |rows|
  {
    if rows != [] {
      ImportKeepsKeyedById(items, rows[..|rows| - 1], ids);
    }
  }
}
