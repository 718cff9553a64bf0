/**
 * UpdateExpression: the PATCH branch's construction of a store update from
 * a request body. For each of the fields name, quantity and price that the
 * body holds, it emits one `SET` clause `<ref> = :<key>`, one value slot
 * `:<key>`, and, when the key is a reserved word of the store's expression
 * language, an alias `#<key>` standing for the key.
 */
module UpdateExpression {
  import opened Wrappers
  import opened Values

  /** The words the store's expression language reserves, as the handler lists them. */
  const ReservedKeywords: set<string> := {"name", "status", "size", "type", "date"}

  /** The updatable fields, in the order the builder visits them. */
  const Fields: seq<string> := ["name", "quantity", "price"]

  /** The fields whose value is stored as an exact decimal. */
  const NumericFields: set<string> := {"quantity", "price"}

  /** One field the body supplies, with the value to store (already converted). */
  datatype Edit = Edit(key: string, value: Value)

  /** One assignment `<target> = <slot>` of a `SET` update expression. */
  datatype Clause = Clause(target: string, slot: string)

  /**
   * An update plan: the assignment clauses in order, the value slots
   * (ExpressionAttributeValues) and the aliases (ExpressionAttributeNames).
   */
  datatype Plan = Plan(clauses: seq<Clause>, values: map<string, Value>, names: map<string, string>)

  /** How a clause refers to a field: through `#key` when the key is reserved. */
  function Placeholder(key: string): string {
    if key in ReservedKeywords then "#" + key else key
  }

  /** The value slot of a field. */
  function Slot(key: string): string { ":" + key }

  /**
   * One turn of the builder's loop for `key`: absent gives None, present
   * gives the value to store (a decimal for the numeric fields); the
   * membership test, the subscript and the decimal conversion can each raise.
   */
  function FieldEdit(data: Value, key: string): (r: Result<Option<Value>, Fault>)
    ensures r == Ok(None) <==> Contains(data, key) == Ok(false)
    ensures r.Err? ==> r.error == TypeError || r.error == InvalidOperation
    ensures r.Ok? && r.value.Some? && key in NumericFields ==> r.value.value.Dec?
    ensures Contains(data, key).Err? || (Contains(data, key) == Ok(true) && !data.Object?) ==> r == Err(TypeError)
    ensures r == Err(InvalidOperation) ==> key in NumericFields && data.Object? && key in data.fields
    ensures r.Ok? && r.value.Some? ==>
      data.Object? && key in data.fields &&
      (key in NumericFields ==> ToDecimal(data.fields[key]) == Ok(r.value.value)) &&
      (key !in NumericFields ==> r.value.value == data.fields[key])
  {
    match Contains(data, key)
    case Err(e) => Err(e)
    case Ok(present) =>
      if !present then Ok(None)
      else match Subscript(data, key)
        case Err(e) => Err(e)
        case Ok(v) =>
          if key in NumericFields then
            match ToDecimal(v)
            case Err(e) => Err(e)
            case Ok(d) => Ok(Some(d))
          else Ok(Some(v))
  }

  /** The edits of the body over `keys`, visited in order; the first exception wins. */
  function EditsOf(data: Value, keys: seq<string>): (r: Result<seq<Edit>, Fault>)
    ensures r.Err? ==> r.error == TypeError || r.error == InvalidOperation
    ensures r.Ok? ==> |r.value| <= |keys|
    decreases |keys|
  {
    if keys == [] then Ok([])
    else
      var key := keys[|keys| - 1];
      match EditsOf(data, keys[..|keys| - 1])
      case Err(e) => Err(e)
      case Ok(es) =>
        match FieldEdit(data, key)
        case Err(e) => Err(e)
        case Ok(None) => Ok(es)
        case Ok(Some(v)) => Ok(es + [Edit(key, v)])
  }

  /** The plan after one more edit. */
  function Extend(p: Plan, e: Edit): Plan {
    var ref := Placeholder(e.key);
    Plan(p.clauses + [Clause(ref, Slot(e.key))],
         p.values[Slot(e.key) := e.value],
         if e.key in ReservedKeywords then p.names[ref := e.key] else p.names)
  }

  /** The plan that a sequence of edits produces. */
  function PlanOf(es: seq<Edit>): Plan
    decreases |es|
  {
    if es == [] then Plan([], map[], map[]) else Extend(PlanOf(es[..|es| - 1]), es[|es| - 1])
  }

  /** A plan has one clause per edit. */
  lemma {:induction false} PlanLength(es: seq<Edit>)
    ensures |PlanOf(es).clauses| == |es|
    decreases |es|
  {
    if es != [] {
      PlanLength(es[..|es| - 1]);
    }
  }

  /** What the builder yields for a body: a plan, or the exception it raised. */
  function UpdatePlanOf(data: Value): (r: Result<Plan, Fault>)
    ensures r.Err? ==> r.error == TypeError || r.error == InvalidOperation
    ensures r.Ok? ==> |r.value.clauses| <= |Fields|
  {
    match EditsOf(data, Fields)
    case Err(e) => Err(e)
    case Ok(es) => PlanLength(es); Ok(PlanOf(es))
  }

  /** The fields the body holds, in the builder's order. */
  function PresentFields(m: map<string, Value>, keys: seq<string>): (r: seq<string>)
    ensures forall k :: k in r <==> k in keys && k in m
    decreases |keys|
  {
    if keys == [] then []
    else
      var rest := PresentFields(m, keys[..|keys| - 1]);
      var k := keys[|keys| - 1];
      assert keys == keys[..|keys| - 1] + [k];
      if k in m then rest + [k] else rest
  }

  /** The keys of a sequence of edits. */
  function KeysOf(es: seq<Edit>): (r: seq<string>)
    ensures |r| == |es| && forall i | 0 <= i < |es| :: r[i] == es[i].key
  {
    seq(|es|, i requires 0 <= i < |es| => es[i].key)
  }

  /** The attribute values a sequence of edits assigns; a later edit of a key wins. */
  function EditMap(es: seq<Edit>): map<string, Value>
    decreases |es|
  {
    if es == [] then map[] else EditMap(es[..|es| - 1])[es[|es| - 1].key := es[|es| - 1].value]
  }

  predicate DistinctKeys(es: seq<Edit>) {
    forall i, j | 0 <= i < j < |es| :: es[i].key != es[j].key
  }

  /**
   * The builder of lambda.py: visits name, quantity, price and, for each
   * key the body holds, appends a clause, fills a value slot and, for a
   * reserved key, records its alias.
   */
  method BuildUpdate(data: Value) returns (r: Result<Plan, Fault>)
    ensures r == UpdatePlanOf(data)
  {
    var clauses: seq<Clause> := [];
    var values: map<string, Value> := map[];
    var names: map<string, string> := map[];
    for i := 0 to |Fields|
      invariant EditsOf(data, Fields[..i]).Ok?
      invariant Plan(clauses, values, names) == PlanOf(EditsOf(data, Fields[..i]).value)
    {
      var key := Fields[i];
      assert Fields[..i + 1][..i] == Fields[..i];
      var present := Contains(data, key);
      if present.Err? {
        ErrorPersists(data, Fields[..i + 1], Fields[i + 1..]);
        assert Fields[..i + 1] + Fields[i + 1..] == Fields;
        return Err(present.error);
      }
      if present.value {
        var val := Subscript(data, key);
        if val.Err? {
          ErrorPersists(data, Fields[..i + 1], Fields[i + 1..]);
          assert Fields[..i + 1] + Fields[i + 1..] == Fields;
          return Err(val.error);
        }
        var v := val.value;
        if key in NumericFields {
          var d := ToDecimal(v);
          if d.Err? {
            ErrorPersists(data, Fields[..i + 1], Fields[i + 1..]);
            assert Fields[..i + 1] + Fields[i + 1..] == Fields;
            return Err(d.error);
          }
          v := d.value;
        }
        var placeholder := key;
        if key in ReservedKeywords {
          placeholder := "#" + key;
          names := names[placeholder := key];
        }
        clauses := clauses + [Clause(placeholder, ":" + key)];
        values := values[":" + key := v];
      }
    }
    assert Fields[..|Fields|] == Fields;
    r := Ok(Plan(clauses, values, names));
  }

  /** Once the builder has raised on a prefix of the keys, visiting more keys keeps that exception. */
  lemma {:induction false} ErrorPersists(data: Value, keys: seq<string>, more: seq<string>)
    requires EditsOf(data, keys).Err?
    ensures EditsOf(data, keys + more) == EditsOf(data, keys)
    decreases |more|
  {
    if more != [] {
      var longer := keys + more;
      var shorter := keys + more[..|more| - 1];
      assert longer[..|longer| - 1] == shorter;
      ErrorPersists(data, keys, more[..|more| - 1]);
      assert EditsOf(data, shorter).Err?;
    } else {
      assert keys + more == keys;
    }
  }

  /**
   * For a dict body the builder raises only for a numeric field whose value
   * is not a decimal literal; otherwise it yields one edit per field the
   * body holds, in the order name, quantity, price, each carrying the body's
   * value (converted to a decimal for the numeric fields).
   */
  lemma {:induction false} EditsOfDict(m: map<string, Value>, keys: seq<string>)
    ensures EditsOf(Object(m), keys).Ok? <==>
              forall k | k in keys && k in m && k in NumericFields :: ToDecimal(m[k]).Ok?
    ensures EditsOf(Object(m), keys).Ok? ==>
              var es := EditsOf(Object(m), keys).value;
              KeysOf(es) == PresentFields(m, keys) &&
              forall i | 0 <= i < |es| ::
                es[i].value == (if es[i].key in NumericFields then ToDecimal(m[es[i].key]).value else m[es[i].key])
    decreases |keys|
  {
    if keys != [] {
      var init := keys[..|keys| - 1];
      var k := keys[|keys| - 1];
      assert keys == init + [k];
      EditsOfDict(m, init);
    }
  }

  /** The builder only looks at name, quantity and price: other keys of a dict body change nothing. */
  lemma {:induction false} OtherKeysIgnored(m: map<string, Value>, extra: map<string, Value>, keys: seq<string>)
    requires forall k | k in extra :: k !in keys
    ensures EditsOf(Object(m + extra), keys) == EditsOf(Object(m - extra.Keys), keys)
    decreases |keys|
  {
    if keys != [] {
      var init := keys[..|keys| - 1];
      OtherKeysIgnored(m, extra, init);
      var k := keys[|keys| - 1];
      assert k !in extra;
      assert FieldEdit(Object(m + extra), k) == FieldEdit(Object(m - extra.Keys), k);
    }
  }

  /** Clause i of a plan assigns the slot of the i-th edit through that edit's placeholder. */
  lemma {:induction false} PlanClauses(es: seq<Edit>)
    ensures var p := PlanOf(es);
      |p.clauses| == |es| &&
      forall i | 0 <= i < |es| :: p.clauses[i] == Clause(Placeholder(es[i].key), Slot(es[i].key))
    decreases |es|
  {
    if es != [] { PlanClauses(es[..|es| - 1]); }
  }

  /** For edits of distinct keys, the slot of each edit holds that edit's value. */
  lemma {:induction false} PlanValuesAt(es: seq<Edit>)
    requires DistinctKeys(es)
    ensures var p := PlanOf(es);
      forall i | 0 <= i < |es| :: Slot(es[i].key) in p.values && p.values[Slot(es[i].key)] == es[i].value
    decreases |es|
  {
    if es != [] {
      var init := es[..|es| - 1];
      var e := es[|es| - 1];
      PlanValuesAt(init);
      forall i | 0 <= i < |init| ensures Slot(init[i].key) != Slot(e.key) {
        SlotInjective(init[i].key, e.key);
      }
    }
  }

  /** Every value slot of `p` is the slot of one of its clauses. */
  predicate SlotsUsed(p: Plan) {
    forall s | s in p.values :: exists i | 0 <= i < |p.clauses| :: p.clauses[i].slot == s
  }

  /** Every alias of `p` is `#` before the name it stands for, and the target of one of its clauses. */
  predicate AliasesUsed(p: Plan) {
    forall a | a in p.names :: a == "#" + p.names[a] && exists i | 0 <= i < |p.clauses| :: p.clauses[i].target == a
  }

  lemma {:induction false} PlanSlotsUsed(es: seq<Edit>)
    ensures SlotsUsed(PlanOf(es))
    decreases |es|
  {
    if es != [] {
      var p := PlanOf(es);
      var q := PlanOf(es[..|es| - 1]);
      PlanSlotsUsed(es[..|es| - 1]);
      forall s | s in p.values ensures exists i | 0 <= i < |p.clauses| :: p.clauses[i].slot == s {
        if s in q.values {
          var i :| 0 <= i < |q.clauses| && q.clauses[i].slot == s;
          assert p.clauses[i] == q.clauses[i];
        } else {
          assert p.clauses[|p.clauses| - 1].slot == s;
        }
      }
    }
  }

  lemma {:induction false} PlanAliasesUsed(es: seq<Edit>)
    ensures AliasesUsed(PlanOf(es))
    decreases |es|
  {
    if es != [] {
      var p := PlanOf(es);
      var q := PlanOf(es[..|es| - 1]);
      var e := es[|es| - 1];
      PlanAliasesUsed(es[..|es| - 1]);
      forall a | a in p.names
        ensures a == "#" + p.names[a] && exists i | 0 <= i < |p.clauses| :: p.clauses[i].target == a
      {
        if e.key in ReservedKeywords && a == Placeholder(e.key) {
          assert p.clauses[|p.clauses| - 1].target == a;
        } else {
          assert a in q.names && p.names[a] == q.names[a];
          var i :| 0 <= i < |q.clauses| && q.clauses[i].target == a;
          assert p.clauses[i] == q.clauses[i];
        }
      }
    }
  }

  /** Each reserved edited key has its alias, naming the key. */
  lemma {:induction false} PlanAliasesAt(es: seq<Edit>)
    ensures var p := PlanOf(es);
      forall i | 0 <= i < |es| && es[i].key in ReservedKeywords ::
        "#" + es[i].key in p.names && p.names["#" + es[i].key] == es[i].key
    decreases |es|
  {
    if es != [] {
      var init := es[..|es| - 1];
      var e := es[|es| - 1];
      PlanAliasesAt(init);
      forall i | 0 <= i < |init| && init[i].key in ReservedKeywords && "#" + init[i].key == "#" + e.key
        ensures init[i].key == e.key
      {
        SlotInjective(init[i].key, e.key);
      }
    }
  }

  /** Over the three updatable fields, the only alias is `#name`, present exactly when `name` is edited. */
  lemma {:induction false} PlanNames(es: seq<Edit>)
    requires forall i | 0 <= i < |es| :: es[i].key in Fields
    ensures PlanOf(es).names == (if "name" in KeysOf(es) then map["#name" := "name"] else map[])
    decreases |es|
  {
    if es != [] {
      var init := es[..|es| - 1];
      var k := es[|es| - 1].key;
      PlanNames(init);
      assert KeysOf(es) == KeysOf(init) + [k];
      assert k in ReservedKeywords <==> k == "name" by {
        assert k == "name" || k == "quantity" || k == "price";
      }
      assert Placeholder("name") == "#name";
      assert "name" in KeysOf(es) <==> "name" in KeysOf(init) || k == "name";
    }
  }

  /** The slot and alias texts determine the key they were made from. */
  lemma SlotInjective(a: string, b: string)
    ensures Slot(a) == Slot(b) ==> a == b
    ensures "#" + a == "#" + b ==> a == b
  {
    if Slot(a) == Slot(b) { assert Slot(a)[1..] == a && Slot(b)[1..] == b; }
    if "#" + a == "#" + b { assert ("#" + a)[1..] == a && ("#" + b)[1..] == b; }
  }

  /**
   * For a dict body, the builder yields an empty plan (and the request is
   * refused) exactly when the body holds none of name, quantity and price.
   */
  lemma NoClausesIffNoField(m: map<string, Value>)
    requires UpdatePlanOf(Object(m)).Ok?
    ensures UpdatePlanOf(Object(m)).value.clauses == [] <==>
              ("name" !in m && "quantity" !in m && "price" !in m)
  {
    EditsOfDict(m, Fields);
    var es := EditsOf(Object(m), Fields).value;
    PlanLength(es);
    assert |KeysOf(es)| == |es|;
    if "name" in m { assert "name" in PresentFields(m, Fields); }
    if "quantity" in m { assert "quantity" in PresentFields(m, Fields); }
    if "price" in m { assert "price" in PresentFields(m, Fields); }
  }

  /** The edit keys of any body are distinct fields, in the builder's order. */
  lemma {:induction false} EditsAreFields(data: Value, keys: seq<string>)
    requires forall i, j | 0 <= i < j < |keys| :: keys[i] != keys[j]
    requires EditsOf(data, keys).Ok?
    ensures var es := EditsOf(data, keys).value;
      DistinctKeys(es) && forall i | 0 <= i < |es| :: es[i].key in keys
    decreases |keys|
  {
    if keys != [] {
      var init := keys[..|keys| - 1];
      EditsAreFields(data, init);
    }
  }

  /**
   * `name` is always aliased as `#name` when supplied, `quantity` and
   * `price` never are, and the alias map is empty exactly when `name` was
   * not supplied.
   */
  lemma AliasOnlyForName(data: Value)
    requires UpdatePlanOf(data).Ok?
    ensures var es := EditsOf(data, Fields).value;
      UpdatePlanOf(data).value.names == (if "name" in KeysOf(es) then map["#name" := "name"] else map[])
  {
    EditsAreFields(data, Fields);
    PlanNames(EditsOf(data, Fields).value);
  }

  /**
   * A body with all three fields yields the clauses `#name = :name`,
   * `quantity = :quantity`, `price = :price`, in that order, with the one
   * alias `#name`.
   */
  lemma FullBodyPlan(n: Value, q: Number, pr: Number)
    ensures var data := Object(map["name" := n, "quantity" := Num(q), "price" := Num(pr)]);
      UpdatePlanOf(data).Ok? &&
      UpdatePlanOf(data).value.clauses == [Clause("#name", ":name"), Clause("quantity", ":quantity"), Clause("price", ":price")] &&
      UpdatePlanOf(data).value.names == map["#name" := "name"]
  {
    var data := Object(map["name" := n, "quantity" := Num(q), "price" := Num(pr)]);
    var es := [Edit("name", n), Edit("quantity", Dec(q)), Edit("price", Dec(pr))];
    FullBodyEdits(n, q, pr);
    FullEditsClauses(n, Dec(q), Dec(pr));
    assert UpdatePlanOf(data) == Ok(PlanOf(es));
    PlanNames(es);
    assert KeysOf(es)[0] == "name";
  }

  lemma FullBodyEdits(n: Value, q: Number, pr: Number)
    ensures EditsOf(Object(map["name" := n, "quantity" := Num(q), "price" := Num(pr)]), Fields)
         == Ok([Edit("name", n), Edit("quantity", Dec(q)), Edit("price", Dec(pr))])
  {
    var data := Object(map["name" := n, "quantity" := Num(q), "price" := Num(pr)]);
    assert FieldEdit(data, "name") == Ok(Some(n));
    assert FieldEdit(data, "quantity") == Ok(Some(Dec(q)));
    assert FieldEdit(data, "price") == Ok(Some(Dec(pr)));
    var e1, e2, e3 := Edit("name", n), Edit("quantity", Dec(q)), Edit("price", Dec(pr));
    assert ["name"][..0] == [] && ["name", "quantity"][..1] == ["name"];
    assert [] + [e1] == [e1] && [e1] + [e2] == [e1, e2] && [e1, e2] + [e3] == [e1, e2, e3];
    assert Fields[..2] == ["name", "quantity"];
    assert EditsOf(data, []) == Ok([]);
    assert EditsOf(data, ["name"]) == Ok([e1]);
    assert EditsOf(data, ["name", "quantity"]) == Ok([e1, e2]);
  }

  lemma FullEditsClauses(n: Value, q: Value, pr: Value)
    ensures PlanOf([Edit("name", n), Edit("quantity", q), Edit("price", pr)]).clauses
         == [Clause("#name", ":name"), Clause("quantity", ":quantity"), Clause("price", ":price")]
  {
    PlanClauses([Edit("name", n), Edit("quantity", q), Edit("price", pr)]);
    assert Placeholder("name") == "#name" && Slot("name") == ":name";
    assert Placeholder("quantity") == "quantity" && Slot("quantity") == ":quantity";
    assert Placeholder("price") == "price" && Slot("price") == ":price";
  }

  /** Every entry of the edit map comes from an edit of that key. */
  lemma {:induction false} EditMapFrom(es: seq<Edit>)
    ensures forall k | k in EditMap(es) :: exists i | 0 <= i < |es| :: es[i].key == k && EditMap(es)[k] == es[i].value
    decreases |es|
  {
    if es != [] {
      var init := es[..|es| - 1];
      EditMapFrom(init);
      forall k | k in EditMap(es)
        ensures exists i | 0 <= i < |es| :: es[i].key == k && EditMap(es)[k] == es[i].value
      {
        if k == es[|es| - 1].key {
          assert es[|es| - 1].key == k;
        } else {
          assert EditMap(es) == EditMap(init)[es[|es| - 1].key := es[|es| - 1].value];
          assert k in EditMap(init);
          var i :| 0 <= i < |init| && init[i].key == k && EditMap(init)[k] == init[i].value;
          assert es[i] == init[i];
        }
      }
    }
  }

  /** The builder stores quantity and price only as exact decimals. */
  lemma {:induction false} NumericEditsDecimal(data: Value, keys: seq<string>)
    requires EditsOf(data, keys).Ok?
    ensures var es := EditsOf(data, keys).value;
      forall i | 0 <= i < |es| :: es[i].key in keys && (es[i].key in NumericFields ==> es[i].value.Dec?)
    decreases |keys|
  {
    if keys != [] {
      NumericEditsDecimal(data, keys[..|keys| - 1]);
    }
  }
}
