# Inventory handler model

A Dafny model of `lambda.py`, the request handler of a small inventory service. The handler sits behind an HTTP gateway and keeps items in a key-value table (`InventoryDB`, keyed by `id`). It answers:

- `OPTIONS` on any path (cross-origin preflight);
- `GET /items`, the items sorted by id;
- `POST /items`, to create an item with a fresh id;
- `PATCH /items/{id}`, to set name, quantity and price through a `SET` update expression;
- `DELETE /items/{id}`;
- `POST /import`, CSV rows become new items;
- `GET /export`, the items as CSV;
- anything else gets 404.

Every response goes through `response`. That function fixes the four cross-origin and content headers, and turns a missing or empty body into `""`.

The project has eight files:

- `values.dfy` (modules `Wrappers`, `Values`):
  - the JSON-like values the handler reads and stores; numbers are kept abstract, as the text Python prints for them;
  - the exceptions a request can end with;
  - `Decimal(str(x))` and the recursive `convert_to_decimal`;
  - Python's `key in data` and `data[key]` on a parsed body.
- `update.dfy` (module `UpdateExpression`): the PATCH branch's builder loop. It makes the `SET` clauses, the value slots `:k` and the aliases `#k` for reserved words. It is a `method` with loop invariants, proved equal to a specification function, with lemmas about that function.
- `store.dfy` (module `Store`):
  - the table as a `class` whose one field is the map from id to item, with the five calls the handler makes (`put_item`, `get_item`, `update_item`, `delete_item`, `scan`);
  - the checks an `update_item` request must pass before the store applies it.
- `ordering.dfy` (module `Ordering`): Python's string order and the stable sort by id used by `GET /items`.
- `response.dfy` (module `Http`): the response envelope.
- `api.dfy` (module `Api`): each branch of `lambda_handler` as a function from the table before the request to the outcome and the table after it. The outcome is either a response or an exception that escapes the handler.
- `handler.dfy` (module `Handler`): the handler as it runs, one method per branch, each calling the `Table` methods. Every method is proved to produce exactly the outcome and table that `Api` specifies. `LambdaHandler` also keeps the table well formed: every item is under its own id, has only name, quantity and price, and holds quantity and price as exact decimals.
- `properties.dfy` (module `ApiProperties`): what each branch promises, proved for all inputs.

Fresh ids from `uuid.uuid4()` are a parameter `ids`: create uses `ids[0]`, and import gives row i the id `ids[i]`. The order in which a scan returns items is a ghost out-parameter (`listing`); the proofs hold for every order.

The import follows the code as written. A CSV row too short to reach the quantity or price column yields None there. `Decimal(str(None))` then raises, and so does `Decimal("")` for an empty cell. So such rows end the import with an exception; they are not stored with a default of 0. The default 0 applies only when the column is missing from the header (`ApiProperties.ImportRowAccepted`).

## Model

| member | source | states |
|---|---|---|
| Values.ToDecimal | lambda.py:70-71 | `Decimal(str(v))` succeeds exactly for an int, a float, a decimal or a numeric text; it yields the decimal of the same number or text, and otherwise raises InvalidOperation |
| Values.ConvertToDecimal | lambda.py:34-42 | `convert_to_decimal` raises only InvalidOperation, raises on a bool, and on success keeps the shape of the value |
| Values.ConvertFailsIffBool | lambda.py:34-42 | `convert_to_decimal` raises exactly when a bool occurs somewhere in the value (a bool is an int, and `Decimal("True")` raises) |
| Values.ConvertPreservesShape | lambda.py:34-42 | a successful conversion keeps every dict's keys and every list's length, turns each int and float into the decimal of the same text, keeps other leaves, and leaves no int or float |
| Values.ConvertIdempotent | lambda.py:34-42 | converting an already converted value gives it back unchanged |
| Values.Contains | lambda.py:88 | `key in data` tests a dict's keys, a list's elements or a string's substrings, and raises TypeError on any other value |
| Values.Subscript | lambda.py:89 | after `key in data` held, `data[key]` succeeds exactly on a dict and gives the value under the key; on a list or string it raises TypeError |
| UpdateExpression.BuildUpdate | lambda.py:83-101 | the builder loop over name, quantity, price yields exactly the plan `UpdatePlanOf` specifies, or the exception the first failing membership test, subscript or conversion raises |
| UpdateExpression.FieldEdit | lambda.py:88-91 | a key adds no edit exactly when the membership test says it is absent; a membership test that raises, or a subscript of a list or string, raises TypeError; InvalidOperation comes only from converting a held quantity or price; an edit holds the dict's value, and for quantity and price exactly the decimal `Decimal(str(v))` gives |
| UpdateExpression.EditsOf | lambda.py:87-91 | the loop yields no more edits than it visits keys, or the TypeError or InvalidOperation that stopped it |
| UpdateExpression.PlanLength | lambda.py:100 | the plan has one clause per edit |
| UpdateExpression.UpdatePlanOf | lambda.py:83-101 | the builder yields at most three clauses, or raises TypeError or InvalidOperation |
| UpdateExpression.ErrorPersists | lambda.py:87-91 | once the builder raised on some key, visiting further keys keeps that exception |
| UpdateExpression.EditsOfDict | lambda.py:87-91 | for a dict body the builder fails exactly when a present quantity or price is not numeric; otherwise it yields one edit per present field, in the order name, quantity, price, carrying the body's value (converted for the numeric fields) |
| UpdateExpression.OtherKeysIgnored | lambda.py:87-88 | keys of the body other than name, quantity and price do not change what the builder yields |
| UpdateExpression.PlanClauses | lambda.py:94-100 | clause i is `<ref> = :k` for the i-th edited key k, where ref is `#k` for a reserved k and k itself otherwise |
| UpdateExpression.PlanValuesAt | lambda.py:100-101 | the slot `:k` of each edited key holds that key's value |
| UpdateExpression.PlanSlotsUsed | lambda.py:100-101 | every value slot the builder fills is used by one of its clauses |
| UpdateExpression.PlanAliasesUsed | lambda.py:94-100 | every alias is `#` before the name it stands for, and is the target of one of the clauses |
| UpdateExpression.PlanAliasesAt | lambda.py:94-96 | each edited reserved key k has the alias `#k` standing for k |
| UpdateExpression.PlanNames | lambda.py:94-98 | over the three fields the only alias is `#name`, present exactly when name is edited |
| UpdateExpression.AliasOnlyForName | lambda.py:94-98 | for any body, name is aliased as `#name` when present and quantity and price never are; the alias map is empty exactly when name is absent |
| UpdateExpression.NoClausesIffNoField | lambda.py:103 | for a dict body the plan has no clause exactly when the body holds none of name, quantity and price |
| UpdateExpression.EditsAreFields | lambda.py:87 | the edited keys are distinct and among the visited keys |
| UpdateExpression.NumericEditsDecimal | lambda.py:90-91 | quantity and price are only ever stored as exact decimals |
| UpdateExpression.EditMapFrom | lambda.py:100-101 | every attribute the edits assign comes from an edit of that key with that value |
| UpdateExpression.FullBodyPlan | lambda.py:87-101 | a body with all three fields yields the clauses `#name = :name`, `quantity = :quantity`, `price = :price`, in that order, and the one alias `#name` |
| UpdateExpression.FullBodyEdits | lambda.py:87-91 | a body with all three fields yields three edits in the fixed order, the two numbers converted to decimals |
| UpdateExpression.FullEditsClauses | lambda.py:94-100 | three edits in the fixed order give the three expected clauses |
| Store.ItemValue | lambda.py:113-114 | the JSON object of an item holds its attributes together with `id` |
| Store.CheckUpdate | lambda.py:106-111 | an update is accepted exactly when the names argument is not None and the store accepts the expression; a None names argument is refused with a parameter validation error. The store (`StoreAccepts`) accepts when there is a clause; every clause's slot and alias are defined; no reserved word is used bare and the key is not set; no attribute is set twice; every slot and alias supplied is used; and an alias map that is given is not empty |
| Store.ApplyClauses | lambda.py:108-109 | running the `SET` clauses keeps every old attribute present, and the last clause's attribute holds its slot's value |
| Store.ApplyClausesFrame | lambda.py:108-109 | an attribute no clause sets keeps its old value, and every attribute added is the target of some clause |
| Store.RequestFor | lambda.py:106-111 | the corrected request carries the key, clauses and slots of the plan, and passes the aliases, or leaves them out when there are none, never as None |
| Store.AsWrittenRequest | lambda.py:106-111 | the request as written carries the key, clauses and slots of the plan, and passes the names argument as None exactly when there is no alias |
| Store.Updated | lambda.py:106-111 | an accepted update creates or replaces the item under the key and leaves every other item as it was |
| Store.FieldResolves | lambda.py:94-98 | a field's clause target is an alias exactly for a reserved field, and it denotes that field |
| Store.PlanClausesAccepted | lambda.py:106-110 | every clause of a plan from distinct field edits is accepted, sets the attribute of its edit, and its slot holds the edit's value |
| Store.ChecksPass | lambda.py:106-111 | a request whose clauses are accepted, set distinct attributes and use every slot and alias passes the store's checks |
| Store.PlanAccepted | lambda.py:106-111 | the request for a non-empty plan of distinct field edits passes the store's checks |
| Store.BuiltRequestAccepted | lambda.py:106-111 | the request for every non-empty plan the builder makes is accepted, once the names argument is left out when empty |
| Store.UnionUpdate | lambda.py:108-109 | setting one key after a union equals the union with that key set on the right-hand side |
| Store.ApplyEdits | lambda.py:108-109 | running clauses that each set their edit's attribute to its value gives the old attributes overridden by the edits |
| Store.BuiltRequestApplies | lambda.py:106-111 | the update for a body leaves the old attributes overridden by the body's edits, and nothing else |
| Store.AsWrittenRefusesUpdateWithoutName | lambda.py:110 | as written, every update that does not set name is refused, because the names argument is passed as None |
| Store.PriceOnlyPatchRefusedAsWritten | lambda.py:110 | the body `{"price": p}` gives a non-empty plan that the request as written gets refused and the corrected request gets accepted |
| Store.Table.constructor | lambda.py:10 | the table starts empty and well formed |
| Store.Table.PutItem | lambda.py:73 | `put_item` stores the item under its id, replacing any item there, and changes nothing else |
| Store.Table.GetItem | lambda.py:113 | `get_item` returns the item under the id exactly when there is one |
| Store.Table.DeleteItem | lambda.py:121 | `delete_item` removes the id and nothing else, whether or not it was stored |
| Store.Table.UpdateItem | lambda.py:106-111 | `update_item` either passes the checks and upserts the item under the key, or raises and changes nothing |
| Store.Table.Scan | lambda.py:58 | the scan returns every stored item exactly once, each under its own id |
| Ordering.BelowIrreflexive | lambda.py:59 | no id sorts before itself |
| Ordering.BelowAsymmetric | lambda.py:59 | two ids never sort before each other |
| Ordering.BelowTransitive | lambda.py:59 | string order is transitive |
| Ordering.BelowTotal | lambda.py:59 | two different ids are always ordered one way or the other |
| Ordering.InsertPermutes | lambda.py:59 | inserting an item adds exactly that item |
| Ordering.InsertSorted | lambda.py:59 | inserting into a sorted sequence keeps it sorted |
| Ordering.IdsOfPermutation | lambda.py:59 | a rearrangement has the same ids |
| Ordering.SortById | lambda.py:59 | the sort returns a permutation of its input, ascending by id |
| Ordering.SortedDistinctAscending | lambda.py:59 | sorted items with distinct ids are strictly ascending |
| Ordering.SortKeepsDistinct | lambda.py:59 | sorting keeps distinct ids distinct |
| Ordering.AscendingUnique | lambda.py:59 | two strictly ascending sequences of the same items are equal |
| Ordering.ListingIndependentOfScanOrder | lambda.py:57-60 | the sorted listing is the same whatever order the scan returned |
| Http.Headers | lambda.py:24-29 | the four headers: the content type, origin `*`, the five methods, and `Content-Type` as the allowed header |
| Http.Respond | lambda.py:19-31 | a response carries the status and the fixed headers; its body is "" exactly when the given body is None or ""; a text is kept, and a dict, list or CSV table is serialised |
| Http.ErrorDoc | lambda.py:66 | the error document has the one key `error` holding the message |
| Api.RouteOf | lambda.py:53-150 | the branch taken, for each branch exactly the method and path condition of the source, tried in the source's order |
| Api.LastSegment | lambda.py:78 | `path.split("/")[-1]` is the longest suffix of the path without a slash |
| Api.ParseBody | lambda.py:64 | an absent or empty body reads as an empty dict, and a body that is not JSON raises |
| Api.ItemId | lambda.py:78 | the id is the non-empty `id` parameter when there is one, and otherwise the last segment of the path: the longest suffix without a slash, preceded by a slash unless it is the whole path |
| Api.DeleteStep | lambda.py:117-122 | every reply of the delete branch carries the JSON headers; the branch only removes items, and the id is absent afterwards when it is not empty |
| Api.MakeItem | lambda.py:67-72 | an item is made exactly when quantity and price convert; it holds the name as given and the two decimals under the given id, and otherwise raises InvalidOperation |
| Api.CreateStep | lambda.py:63-74 | every reply of the create branch carries the JSON headers |
| Api.PatchStep | lambda.py:77-114 | every reply of the patch branch carries the JSON headers |
| Api.SendUpdate | lambda.py:106-114 | every reply after an update carries the JSON headers |
| Api.ImportStep | lambda.py:125-141 | every reply of the import branch carries the JSON headers |
| Api.CellValue | lambda.py:136-138 | `row.get(column, default)` gives the default for a missing column, None for a short row's missing cell, and the cell's text otherwise |
| Api.ImportItem | lambda.py:134-139 | a row becomes an item under the given id holding exactly name, quantity and price, with decimal numbers, or raises InvalidOperation |
| Api.ImportRows | lambda.py:131-140 | the import counts every row when none raises, raises only InvalidOperation, and never removes an item |
| Api.ItemValues | lambda.py:60 | the listing answer holds one JSON object per item, in order |
| Api.ListOutcome | lambda.py:57-60 | GET /items answers 200 with the JSON headers and a list of as many objects as the scan returned |
| Api.ExportRow | lambda.py:147-149 | the row written for an item has the four columns: the id, and each attribute the item holds, or "" when it has none |
| Api.ExportOutcome | lambda.py:144-150 | the export raises exactly when some item cannot be written, and then raises ValueError; otherwise it answers 200 with the CSV headers and one row per item |
| Api.Handle | lambda.py:47-153 | preflight, listing, export and 404 leave the table unchanged, and outside create, patch and import only the export can raise |
| Handler.HandleCreate | lambda.py:63-74 | the create branch run against the table ends in exactly the outcome and table `CreateStep` gives |
| Handler.HandlePatch | lambda.py:77-114 | the builder loop, `update_item` and `get_item` end in exactly the outcome and table `PatchStep` gives |
| Handler.HandleDelete | lambda.py:117-122 | the delete branch ends in exactly the outcome and table `DeleteStep` gives |
| Handler.ImportAfterError | lambda.py:133-139 | a row after one that raised is not read |
| Handler.ImportStopsAtError | lambda.py:133-139 | once a row has raised, the rows after it change nothing |
| Handler.HandleImport | lambda.py:131-141 | the counting loop of puts ends in exactly the outcome and table `ImportStep` gives |
| Handler.HandleList | lambda.py:57-60 | the listing lists the table, and the answer is the sorted listing |
| Handler.HandleExport | lambda.py:144-150 | the listing lists the table, and the answer is the CSV of the listing, or the writer's ValueError |
| Handler.LambdaHandler | lambda.py:47-153 | on any table whose items sit under their own ids, including items with attributes other clients wrote, the handler ends in exactly the outcome and table `Handle` specifies; it keeps every item under its own id, keeps a well-formed table well formed, and lists the table when it scans |
| ApiProperties.RepliesCarryCorsHeaders | lambda.py:22-29 | every reply carries the four fixed headers, with the CSV type for the export and the JSON type otherwise |
| ApiProperties.PreflightAnswered | lambda.py:53-54 | OPTIONS on any path answers 200 with an empty body and changes nothing |
| ApiProperties.UnmatchedNotFound | lambda.py:53-153 | every request that matches no branch (an unknown method, or a known method on a path its branches do not take, such as GET /other or DELETE /items) answers 404 `{"error": "Not found"}` and changes nothing |
| ApiProperties.ItemIdEmpty | lambda.py:78 | the item id is empty exactly when there is no non-empty `id` parameter and the path is empty or ends in a slash |
| ApiProperties.MissingIdRefused | lambda.py:78-80 | PATCH and DELETE with an empty id answer 400 `{"error": "Missing item id"}` and leave the table unchanged |
| ApiProperties.DeleteRemoves | lambda.py:117-122 | DELETE answers 204 with an empty body, the id is absent afterwards, and every other item is kept |
| ApiProperties.CreateNeedsName | lambda.py:65-66 | POST /items without name answers 400 `{"error": "Name required"}` and stores nothing |
| ApiProperties.CreateAddsOneItem | lambda.py:63-74 | POST /items with a name and valid numbers answers 201 with the new item, whose id is the fresh id; the table gains exactly that item under that id; the item holds exactly name, quantity and price: the name as given, and quantity and price defaulting to 0 |
| ApiProperties.CreateRefusesBadNumber | lambda.py:70-71 | a non-numeric quantity or price raises and stores nothing |
| ApiProperties.PatchNeedsAField | lambda.py:103-104 | PATCH with none of the fields answers 400 `{"error": "No fields to update"}` and changes nothing |
| ApiProperties.DictBodyPlan | lambda.py:87-103 | a dict body with a field and valid numbers gives a non-empty plan |
| ApiProperties.PatchSetsSuppliedFields | lambda.py:106-114 | a valid PATCH sets the body's edits on the item under the id (creating it when absent), leaves every other item, and answers 200 with the item read back |
| ApiProperties.FieldEditOfDict | lambda.py:88-91 | on a dict body a key yields an edit exactly when the body holds it, with the body's value, converted for quantity and price |
| ApiProperties.DictEditStep | lambda.py:87-101 | one more key adds its value to the edits exactly when the body holds it |
| ApiProperties.DictEditMap | lambda.py:87-101 | the edits of a dict body assign exactly the fields the body holds, each the body's value, converted for the numeric fields |
| ApiProperties.PatchLeavesOtherAttributes | lambda.py:87-111 | after a PATCH the supplied fields hold the body's values, converted for quantity and price; every other attribute keeps its value, including one the body names outside the three fields; no other attribute appears |
| ApiProperties.ImportRowAccepted | lambda.py:134-139 | a row is imported exactly when its quantity and price cells are absent or numeric; the item holds the row's name (or "" when the column is missing) and 0 for a missing number column |
| ApiProperties.DrawnStep | lambda.py:135 | the first n+1 drawn ids are the first n plus the next |
| ApiProperties.ImportUnfold | lambda.py:133-140 | storing one more row after a successful prefix increments the count and puts that row's item |
| ApiProperties.ImportOneMore | lambda.py:133-140 | a valid row after a successful prefix is stored under its id and counted |
| ApiProperties.ImportStoresEveryRow | lambda.py:131-141 | importing valid rows counts every row, adds the drawn ids and keeps every other item |
| ApiProperties.ImportedRowStored | lambda.py:134-139 | with distinct fresh ids, each valid row is stored under its id as the item it becomes |
| ApiProperties.ImportGrowsTable | lambda.py:133-139 | with distinct, unused fresh ids, the table grows by exactly the number of rows |
| ApiProperties.DistinctCount | lambda.py:135 | distinct ids draw as many ids as rows |
| ApiProperties.ImportStopsAtBadRow | lambda.py:133-139 | the first row with a bad number cell ends the import with InvalidOperation, the rows before it stored |
| ApiProperties.ReadBackCells | lambda.py:147-149 | an exported row reads back with the item's name and the texts of its two decimals |
| ApiProperties.ExportImportRoundTrip | lambda.py:134-149 | importing an exported row gives back the item's attributes under the new id |
| ApiProperties.ExportWritesEveryItem | lambda.py:144-150 | the export of a well-formed table never raises and writes one row per stored item |
| ApiProperties.ListSortedById | lambda.py:57-60 | GET /items answers with every stored item once, strictly ascending by id |
| ApiProperties.ListIndependentOfScanOrder | lambda.py:57-60 | the GET /items answer does not depend on the scan order |
| ApiProperties.HandleKeepsTableWellFormed | lambda.py:47-153 | every request leaves a well-formed table well formed |
| ApiProperties.HandleKeepsKeyedById | lambda.py:47-153 | every request keeps each item under its own id, whatever attributes the items carry |
| ApiProperties.CreateKeepsKeyedById | lambda.py:67-73 | the create branch stores the new item under its own id |
| ApiProperties.PatchKeepsKeyedById | lambda.py:106-111 | the update upserts the item under the key it names |
| ApiProperties.ImportKeepsKeyedById | lambda.py:133-139 | the import stores each row's item under its own id |
| ApiProperties.EditedItemWellFormed | lambda.py:87-101 | a body's edits keep an item well formed |
| ApiProperties.StoreKeepsWellFormed | lambda.py:73 | storing a well-formed item under its own id keeps the table well formed |
| ApiProperties.CreateKeepsWellFormed | lambda.py:63-74 | the create branch keeps the table well formed |
| ApiProperties.PatchKeepsWellFormed | lambda.py:77-114 | the patch branch keeps the table well formed |
| ApiProperties.UpdateKeepsWellFormed | lambda.py:106-111 | an accepted update from a body keeps the table well formed |
| ApiProperties.ImportKeepsWellFormed | lambda.py:131-141 | the import keeps the table well formed |

## Left out

- The store client and the network (lambda.py:9-10) are replaced by the `Table` class over a map. Throttling, network errors and the store's own limits (item size, 38-digit numbers, NaN and Infinity refused) are not modelled.
- Store.Table.Scan: the source reads only the first page of a scan. The model returns the whole table, as if it fits in one page.
- `batch_writer` batching (lambda.py:132) is modelled as one put per row. Items put before a failing row stay stored, as the writer flushes on leaving the `with` block.
- JSON text: `json.loads` is given as a parsed body or "not JSON", and `json.dumps` with `decimal_default` (lambda.py:13-16, 21) as the document itself (`Body.Json`). The float conversion of decimals in replies is not modelled.
- Base64 and UTF-8 decoding and the CSV reader (lambda.py:126-130) are replaced by the parsed rows in `Event.rows`; a body that cannot be decoded is `rows == None`. Extra cells the reader files under a None key are not modelled, as the handler never reads them. The reader reads lazily. A reader error on a later line raises inside the loop, after the earlier rows were put, and those rows are flushed when the `with` block is left. Examples are a field over 131072 characters, or a lone carriage return in an unquoted field. The model decides the rows before the loop, so a reader error (`rows == None`) raises before any put.
- The CSV writer's text (lambda.py:146-150) is modelled as its columns and rows (`Body.CsvText`). `ApiProperties.CellText` renders a cell as the writer does only for text, numbers, None and bools; the rendering of a list or dict cell is not modelled.
- Values.ToDecimal: numbers are abstract texts, so `Decimal` arithmetic, normalisation and float-to-text conversion are not modelled. Python's int and float are one kind of number. `Decimal` accepts some texts that are treated as invalid here: texts with surrounding whitespace or digit-grouping underscores, and digits from other Unicode scripts such as Arabic-Indic "١٢". `Values.IsDecimalLiteral` accepts ASCII digits only.
- The store's number types are not modelled. The store client refuses Python floats in an item, and a float name stored by POST or PATCH is kept as is in the model. The client also reads every stored number back as a `Decimal`. A numeric name (`{"name": 5}`) is therefore stored as `Num` in the model and comes back from `Store.Table.GetItem` and `Store.Table.Scan` as `Num`. The real `get_item` and `scan` return `Decimal("5")`, which the GET and PATCH replies render as `5.0`. Quantity and price are always decimals, so this concerns only a non-text name and other attributes.
- `uuid.uuid4()` is the `ids` parameter. Where a property needs fresh, distinct ids, it says so in its `requires`.
- An event without `requestContext` or `rawPath` raises KeyError before any branch. The model's `Event` always has a method and a path.
- The `context` argument is unused by the source and is not modelled.
- The text of the `SET` expression (lambda.py:100, 108) is not modelled. The model keeps the clauses the text is joined from, and the store reads those clauses.
- Concurrency between requests is not modelled; each request runs alone.
- Read consistency is not modelled. `get_item` (lambda.py:113) and `scan` (lambda.py:58, 145) use the store's default, eventually consistent reads. So the PATCH reply may show the item as it was before the update, or no item for an id that did not exist before. A listing or an export may also miss a recent write. The map model reads strongly consistently, and `ApiProperties.PatchSetsSuppliedFields` (the reply holds the item read back), `ApiProperties.ListSortedById` and `ApiProperties.ExportWritesEveryItem` rely on that.
- Attribute types outside `Values.Value` are not modelled. Other clients may store set or binary attributes. `json.dumps` with `decimal_default` (lambda.py:13-16) raises TypeError on those in GET /items and in the PATCH reply, and the CSV writer renders them as text. Items with other attributes (`Handler.LambdaHandler`) are covered only when those attributes are of JSON-like types: null, bool, number, string, list or map.

## Findings

| source | as written | input that shows it | evidently intended | confidence | as-written member | corrected member |
|---|---|---|---|---|---|---|
| lambda.py:110 | passes `ExpressionAttributeNames=None` when no alias was needed, and the store client refuses None for that parameter | `PATCH /items/abc` with body `{"price": 5}` (any update that does not set name) | leave the parameter out when there is no alias, so updates of quantity or price alone succeed | not executed; the client refuses a None where a map is expected | Store.PriceOnlyPatchRefusedAsWritten | Store.BuiltRequestAccepted |

`Store.AsWrittenRequest` is the request as written, and `Store.AsWrittenRefusesUpdateWithoutName` proves it is refused for every body without name. `Store.RequestFor` is the corrected request; the handler model (`Api.PatchStep`, `Handler.HandlePatch`) sends that one. The model labels the refusal `ParamValidation`. The client's resource layer may already fail on the None with a different exception (an AttributeError) before its parameter validation runs. Either way the request raises and nothing is stored; the model does not tell these exceptions apart.
