/**
 * Store: the key-value table the handler works on, reduced to what the
 * handler relies on. Items are attribute maps keyed by `id`; `put_item`
 * replaces, `delete_item` removes whether or not the key exists,
 * `update_item` creates the item when the key is absent, and an update
 * request is first checked the way the client and the store check it.
 */
module Store {
  import opened Wrappers
  import opened Values
  import opened UpdateExpression

  /** A stored item: its key and its other attributes. */
  datatype Item = Item(id: string, attrs: map<string, Value>)

  /** The item as the JSON object the handler returns: its attributes together with `id`. */
  function ItemValue(item: Item): (v: Value)
    ensures v.Object? && "id" in v.fields && v.fields["id"] == Str(item.id)
    ensures forall a | a in item.attrs && a != "id" :: a in v.fields && v.fields[a] == item.attrs[a]
    ensures v.fields.Keys == item.attrs.Keys + {"id"}
  {
    Object(item.attrs["id" := Str(item.id)])
  }

  /** The ids of a sequence of items. */
  function Ids(s: seq<Item>): set<string> {
    set i | 0 <= i < |s| :: s[i].id
  }

  predicate DistinctIds(s: seq<Item>) {
    forall i, j | 0 <= i < j < |s| :: s[i].id != s[j].id
  }

  /** Every item is stored under its own id. */
  predicate KeyedById(items: map<string, Item>) {
    forall id | id in items :: items[id].id == id
  }

  /** The attributes the handler ever writes. */
  const ItemAttributes: set<string> := {"name", "quantity", "price"}

  /**
   * The table as the handler keeps it: each item under its own id, with
   * no attributes but name, quantity and price, and quantity and price
   * always exact decimals.
   */
  predicate WellFormedItem(item: Item) {
    item.attrs.Keys <= ItemAttributes &&
    ("quantity" in item.attrs ==> item.attrs["quantity"].Dec?) &&
    ("price" in item.attrs ==> item.attrs["price"].Dec?)
  }

  predicate WellFormedTable(items: map<string, Item>) {
    KeyedById(items) && forall id | id in items :: WellFormedItem(items[id])
  }

  /** How the caller passes ExpressionAttributeNames: left out, as None, or as a dict. */
  datatype NamesArg = Omitted | NoneArg | Given(aliases: map<string, string>)

  /** An `update_item` call: the key, the SET clauses, the value slots and the names argument. */
  datatype UpdateRequest = UpdateRequest(key: string, clauses: seq<Clause>, values: map<string, Value>, names: NamesArg)

  function NamesOf(arg: NamesArg): map<string, string> {
    if arg.Given? then arg.aliases else map[]
  }

  predicate IsAlias(target: string) { |target| > 0 && target[0] == '#' }

  /** The attribute a clause target denotes: an alias stands for its name, any other token for itself. */
  function Resolve(target: string, names: map<string, string>): string
    requires IsAlias(target) ==> target in names
  {
    if IsAlias(target) then names[target] else target
  }

  /** The store takes a clause whose slot is defined, whose alias is defined, which does not use a reserved word bare, and which does not set the key. */
  predicate ClauseAccepted(c: Clause, values: map<string, Value>, names: map<string, string>) {
    c.slot in values &&
    (if IsAlias(c.target) then c.target in names else c.target !in ReservedKeywords) &&
    Resolve(c.target, names) != "id"
  }

  predicate AllAccepted(cs: seq<Clause>, values: map<string, Value>, names: map<string, string>) {
    forall i | 0 <= i < |cs| :: ClauseAccepted(cs[i], values, names)
  }

  /** No attribute is the target of two clauses. */
  predicate DistinctTargets(cs: seq<Clause>, names: map<string, string>)
    requires forall i | 0 <= i < |cs| :: IsAlias(cs[i].target) ==> cs[i].target in names
  {
    forall i, j | 0 <= i < j < |cs| :: Resolve(cs[i].target, names) != Resolve(cs[j].target, names)
  }

  /** Every value slot and every alias supplied is used by some clause. */
  predicate NoneUnused(cs: seq<Clause>, values: map<string, Value>, names: map<string, string>) {
    (forall s | s in values :: exists i | 0 <= i < |cs| :: cs[i].slot == s) &&
    (forall a | a in names :: exists i | 0 <= i < |cs| :: cs[i].target == a)
  }

  /** The store's checks of an update request, once the client has passed it on. */
  predicate StoreAccepts(req: UpdateRequest) {
    var names := NamesOf(req.names);
    (req.names.Given? ==> |names| > 0) &&
    |req.clauses| > 0 &&
    AllAccepted(req.clauses, req.values, names) &&
    DistinctTargets(req.clauses, names) &&
    NoneUnused(req.clauses, req.values, names)
  }

  /**
   * The outcome of sending an update request: the client refuses a names
   * argument of None (it must be a dict), then the store refuses requests
   * that fail its checks.
   */
  function CheckUpdate(req: UpdateRequest): (r: Result<(), Fault>)
    ensures r.Ok? <==> req.names != NoneArg && StoreAccepts(req)
    ensures req.names == NoneArg ==> r == Err(ParamValidation)
  {
    if req.names == NoneArg then Err(ParamValidation)
    else if !StoreAccepts(req) then Err(ValidationException)
    else Ok(())
  }

  /** The attributes after running the clauses in order. */
  function ApplyClauses(attrs: map<string, Value>, cs: seq<Clause>, values: map<string, Value>, names: map<string, string>): (r: map<string, Value>)
    requires AllAccepted(cs, values, names)
    ensures attrs.Keys <= r.Keys
    ensures cs != [] ==> var c := cs[|cs| - 1]; Resolve(c.target, names) in r && r[Resolve(c.target, names)] == values[c.slot]
    decreases |cs|
  {
    if cs == [] then attrs
    else
      var c := cs[|cs| - 1];
      assert ClauseAccepted(c, values, names);
      ApplyClauses(attrs, cs[..|cs| - 1], values, names)[Resolve(c.target, names) := values[c.slot]]
  }

  /**
   * An attribute no clause sets keeps its old value, and every attribute
   * the clauses add is the target of one of them.
   */
  lemma {:induction false} ApplyClausesFrame(attrs: map<string, Value>, cs: seq<Clause>, values: map<string, Value>, names: map<string, string>)
    requires AllAccepted(cs, values, names)
    ensures var r := ApplyClauses(attrs, cs, values, names);
      (forall a | a in r && a !in attrs :: exists i | 0 <= i < |cs| :: Resolve(cs[i].target, names) == a) &&
      (forall a | a in attrs && (forall i | 0 <= i < |cs| :: Resolve(cs[i].target, names) != a) :: a in r && r[a] == attrs[a])
    decreases |cs|
  {
    if cs != [] {
      var n := |cs| - 1;
      var rest := cs[..n];
      assert AllAccepted(rest, values, names);
      ApplyClausesFrame(attrs, rest, values, names);
      var before := ApplyClauses(attrs, rest, values, names);
      var r := ApplyClauses(attrs, cs, values, names);
      var t := Resolve(cs[n].target, names);
      assert r == before[t := values[cs[n].slot]];
      forall a | a in r && a !in attrs
        ensures exists i | 0 <= i < |cs| :: Resolve(cs[i].target, names) == a
      {
        if a != t {
          var i :| 0 <= i < |rest| && Resolve(rest[i].target, names) == a;
          assert rest[i] == cs[i];
        }
      }
      forall a | a in attrs && (forall i | 0 <= i < |cs| :: Resolve(cs[i].target, names) != a)
        ensures a in r && r[a] == attrs[a]
      {
        assert forall i | 0 <= i < |rest| :: rest[i] == cs[i];
      }
    }
  }

  /** The attributes an item has before an update: none when the key is absent. */
  function AttrsOf(items: map<string, Item>, id: string): map<string, Value> {
    if id in items then items[id].attrs else map[]
  }

  /**
   * The table after an accepted update: the item under the key holds the
   * attributes the clauses produce from its old ones (none when absent).
   */
  function Updated(items: map<string, Item>, req: UpdateRequest): (r: map<string, Item>)
    requires CheckUpdate(req).Ok?
    ensures r.Keys == items.Keys + {req.key}
    ensures forall k | k in items && k != req.key :: r[k] == items[k]
    ensures r[req.key].id == req.key
  {
    items[req.key := Item(req.key, ApplyClauses(AttrsOf(items, req.key), req.clauses, req.values, NamesOf(req.names)))]
  }

  /** The request the handler sends for a plan: the aliases are left out when there are none. */
  function RequestFor(id: string, p: Plan): (r: UpdateRequest)
    ensures r.key == id && r.clauses == p.clauses && r.values == p.values
    ensures r.names == Omitted || r.names == Given(p.names)
    ensures r.names.Given? <==> |p.names| > 0
  {
    UpdateRequest(id, p.clauses, p.values, if |p.names| > 0 then Given(p.names) else Omitted)
  }

  /** The request lambda.py:106-111 sends: the aliases are passed as None when there are none. */
  function AsWrittenRequest(id: string, p: Plan): (r: UpdateRequest)
    ensures r.key == id && r.clauses == p.clauses && r.values == p.values
    ensures r.names == NoneArg <==> |p.names| == 0
    ensures NamesOf(r.names) == p.names
  {
    UpdateRequest(id, p.clauses, p.values, if |p.names| > 0 then Given(p.names) else NoneArg)
  }

  /** The target of a field's clause denotes that field, given its alias where it needs one. */
  lemma FieldResolves(k: string, names: map<string, string>)
    requires k in Fields
    requires k in ReservedKeywords ==> "#" + k in names && names["#" + k] == k
    ensures IsAlias(Placeholder(k)) <==> k in ReservedKeywords
    ensures IsAlias(Placeholder(k)) ==> Placeholder(k) in names
    ensures !IsAlias(Placeholder(k)) ==> Placeholder(k) !in ReservedKeywords
    ensures Resolve(Placeholder(k), names) == k
  {
    assert k == "name" || k == "quantity" || k == "price";
  }

  /**
   * The clauses of a plan made from distinct field edits are all accepted,
   * clause i sets the attribute of edit i, and its slot holds that edit's value.
   */
  lemma PlanClausesAccepted(es: seq<Edit>)
    requires DistinctKeys(es) && forall i | 0 <= i < |es| :: es[i].key in Fields
    ensures var p := PlanOf(es);
      |p.clauses| == |es| && AllAccepted(p.clauses, p.values, p.names) &&
      forall i | 0 <= i < |es| ::
        Resolve(p.clauses[i].target, p.names) == es[i].key && p.values[p.clauses[i].slot] == es[i].value
  {
    var p := PlanOf(es);
    PlanClauses(es);
    PlanValuesAt(es);
    PlanAliasesAt(es);
    forall i | 0 <= i < |es|
      ensures ClauseAccepted(p.clauses[i], p.values, p.names) && Resolve(p.clauses[i].target, p.names) == es[i].key
    {
      FieldResolves(es[i].key, p.names);
    }
  }

  /**
   * A request passes the store's checks when its clauses are accepted,
   * set distinct attributes, and use every slot and alias it supplies.
   */
  lemma ChecksPass(id: string, p: Plan, es: seq<Edit>)
    requires |p.clauses| == |es| > 0 && DistinctKeys(es)
    requires AllAccepted(p.clauses, p.values, p.names)
    requires forall i | 0 <= i < |es| :: Resolve(p.clauses[i].target, p.names) == es[i].key
    requires SlotsUsed(p) && AliasesUsed(p)
    ensures StoreAccepts(RequestFor(id, p))
  {
    var req := RequestFor(id, p);
    assert NamesOf(req.names) == p.names;
    assert DistinctTargets(p.clauses, p.names);
    assert NoneUnused(p.clauses, p.values, p.names);
  }

  /** The request for a non-empty plan of distinct field edits passes every check of the store. */
  lemma PlanAccepted(id: string, es: seq<Edit>)
    requires es != [] && DistinctKeys(es) && forall i | 0 <= i < |es| :: es[i].key in Fields
    ensures StoreAccepts(RequestFor(id, PlanOf(es)))
  {
    PlanClausesAccepted(es);
    PlanSlotsUsed(es);
    PlanAliasesUsed(es);
    ChecksPass(id, PlanOf(es), es);
  }

  /** Every non-empty plan the builder makes passes the client's and the store's checks. */
  lemma BuiltRequestAccepted(id: string, data: Value)
    requires UpdatePlanOf(data).Ok? && UpdatePlanOf(data).value.clauses != []
    ensures CheckUpdate(RequestFor(id, UpdatePlanOf(data).value)) == Ok(())
  {
    var es := EditsOf(data, Fields).value;
    var p := UpdatePlanOf(data).value;
    assert p == PlanOf(es);
    EditsAreFields(data, Fields);
    PlanAccepted(id, es);
    var req := RequestFor(id, p);
    assert StoreAccepts(req) && req.names != NoneArg;
  }

  /** Updating a union at one key is the union with the updated right-hand side. */
  lemma UnionUpdate(attrs: map<string, Value>, m: map<string, Value>, k: string, v: Value)
    ensures (attrs + m)[k := v] == attrs + m[k := v]
  {
  }

  /**
   * Running clauses that each set the attribute of the matching edit to that
   * edit's value yields the old attributes overridden by the edits.
   */
  lemma {:induction false} ApplyEdits(attrs: map<string, Value>, es: seq<Edit>, cs: seq<Clause>,
                                      values: map<string, Value>, names: map<string, string>)
    requires |cs| == |es| && AllAccepted(cs, values, names)
    requires forall i | 0 <= i < |es| ::
               Resolve(cs[i].target, names) == es[i].key && values[cs[i].slot] == es[i].value
    ensures ApplyClauses(attrs, cs, values, names) == attrs + EditMap(es)
    decreases |es|
  {
    if es != [] {
      var n := |es| - 1;
      var init, rest := es[..n], cs[..n];
      assert AllAccepted(rest, values, names);
      assert forall i | 0 <= i < n ::
               Resolve(rest[i].target, names) == init[i].key && values[rest[i].slot] == init[i].value;
      ApplyEdits(attrs, init, rest, values, names);
      var m := EditMap(init);
      var k, v := es[n].key, es[n].value;
      assert ApplyClauses(attrs, cs, values, names) == (attrs + m)[k := v];
      assert EditMap(es) == m[k := v];
      UnionUpdate(attrs, m, k, v);
    }
  }

  /** The attributes an accepted update from a body leaves: the old ones overridden by the body's edits. */
  lemma BuiltRequestApplies(attrs: map<string, Value>, id: string, data: Value)
    requires UpdatePlanOf(data).Ok?
    ensures var p := UpdatePlanOf(data).value;
      var req := RequestFor(id, p);
      AllAccepted(req.clauses, req.values, NamesOf(req.names)) &&
      ApplyClauses(attrs, req.clauses, req.values, NamesOf(req.names)) == attrs + EditMap(EditsOf(data, Fields).value)
  {
    var es := EditsOf(data, Fields).value;
    var p := PlanOf(es);
    EditsAreFields(data, Fields);
    PlanClausesAccepted(es);
    assert NamesOf(RequestFor(id, p).names) == p.names;
    ApplyEdits(attrs, es, p.clauses, p.values, p.names);
  }

  /** As written, any update that does not touch `name` is refused by the client. */
  lemma AsWrittenRefusesUpdateWithoutName(id: string, data: Value)
    requires UpdatePlanOf(data).Ok?
    requires "name" !in KeysOf(EditsOf(data, Fields).value)
    ensures CheckUpdate(AsWrittenRequest(id, UpdatePlanOf(data).value)) == Err(ParamValidation)
  {
    AliasOnlyForName(data);
  }

  /** The request for a body holding only a price: a plan with no alias, refused as written. */
  lemma PriceOnlyPatchRefusedAsWritten(id: string, price: Number)
    ensures var data := Object(map["price" := Num(price)]);
      UpdatePlanOf(data).Ok? && UpdatePlanOf(data).value.clauses != [] &&
      CheckUpdate(AsWrittenRequest(id, UpdatePlanOf(data).value)) == Err(ParamValidation) &&
      CheckUpdate(RequestFor(id, UpdatePlanOf(data).value)) == Ok(())
  {
    var m := map["price" := Num(price)];
    EditsOfDict(m, Fields);
    NoClausesIffNoField(m);
    var es := EditsOf(Object(m), Fields).value;
    assert "name" !in PresentFields(m, Fields);
    AsWrittenRefusesUpdateWithoutName(id, Object(m));
    BuiltRequestAccepted(id, Object(m));
  }

  /**
   * The table. Its one field is the stored items by id; the methods are the
   * five calls the handler makes.
   */
  class Table {
    var items: map<string, Item>

    ghost predicate Valid()
      reads this
    {
      WellFormedTable(items)
    }

    constructor ()
      ensures items == map[] && Valid()
    {
      items := map[];
    }

    /** `put_item`: store the item under its id, replacing any item there. */
    method PutItem(item: Item)
      modifies this
      ensures items == old(items)[item.id := item]
    {
      items := items[item.id := item];
    }

    /** `get_item`: the item under `id`, if any. */
    method GetItem(id: string) returns (r: Option<Item>)
      ensures id in items <==> r.Some?
      ensures r.Some? ==> r.value == items[id]
    {
      if id in items {
        r := Some(items[id]);
      } else {
        r := None;
      }
    }

    /** `delete_item`: remove `id`; nothing happens when it is absent. */
    method DeleteItem(id: string)
      modifies this
      ensures items == old(items) - {id}
    {
      items := items - {id};
    }

    /**
     * `update_item`: when the request passes the checks, run its clauses on
     * the item's attributes, creating the item when the key is absent;
     * otherwise raise and change nothing.
     */
    method UpdateItem(req: UpdateRequest) returns (r: Result<(), Fault>)
      modifies this
      ensures r == CheckUpdate(req)
      ensures r.Ok? ==> items == Updated(old(items), req)
      ensures r.Err? ==> items == old(items)
    {
      r := CheckUpdate(req);
      if r.Ok? {
        var attrs := ApplyClauses(AttrsOf(items, req.key), req.clauses, req.values, NamesOf(req.names));
        items := items[req.key := Item(req.key, attrs)];
      }
    }

    /** `scan`: every stored item once, in an order the store chooses. */
    method Scan() returns (s: seq<Item>)
      requires KeyedById(items)
      ensures DistinctIds(s) && Ids(s) == items.Keys
      ensures forall i | 0 <= i < |s| :: s[i].id in items && items[s[i].id] == s[i]
    {
      s := [];
      var rest := items.Keys;
      while rest != {}
        invariant rest <= items.Keys
        invariant DistinctIds(s) && Ids(s) == items.Keys - rest
        invariant forall i | 0 <= i < |s| :: s[i].id in items && items[s[i].id] == s[i]
        decreases rest
      {
        var k :| k in rest;
        assert items[k].id == k;
        assert forall i | 0 <= i < |s| :: s[i].id != k;
        ghost var before := s;
        s := s + [items[k]];
        assert Ids(s) == Ids(before) + {k} by {
          assert forall i | 0 <= i < |before| :: s[i] == before[i];
          assert s[|before|].id == k;
        }
        rest := rest - {k};
      }
    }
  }
}
