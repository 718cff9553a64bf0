/**
 * Ordering: the listing of GET /items, which sorts the scanned items by
 * `id` with Python's `list.sort`. Python compares strings code point by
 * code point, a proper prefix coming first; the sort is stable.
 */
module Ordering {
  import opened Store

  /** Python's `a < b` on strings. */
  predicate Below(a: string, b: string)
    decreases |a|
  {
    if |a| == 0 then |b| > 0
    else if |b| == 0 then false
    else if a[0] == b[0] then Below(a[1..], b[1..])
    else a[0] < b[0]
  }

  lemma {:induction false} BelowIrreflexive(a: string)
    ensures !Below(a, a)
    decreases |a|
  {
    if |a| > 0 { BelowIrreflexive(a[1..]); }
  }

  lemma {:induction false} BelowAsymmetric(a: string, b: string)
    ensures Below(a, b) ==> !Below(b, a)
    decreases |a|
  {
    if |a| > 0 && |b| > 0 && a[0] == b[0] { BelowAsymmetric(a[1..], b[1..]); }
  }

  lemma {:induction false} BelowTransitive(a: string, b: string, c: string)
    requires Below(a, b) && Below(b, c)
    ensures Below(a, c)
    decreases |a|
  {
    if |a| > 0 && a[0] == b[0] && b[0] == c[0] { BelowTransitive(a[1..], b[1..], c[1..]); }
  }

  /** Two different strings are always ordered one way or the other. */
  lemma {:induction false} BelowTotal(a: string, b: string)
    ensures a == b || Below(a, b) || Below(b, a)
    decreases |a|
  {
    if |a| > 0 && |b| > 0 && a[0] == b[0] {
      BelowTotal(a[1..], b[1..]);
      if a[1..] == b[1..] { assert a == [a[0]] + a[1..] && b == [b[0]] + b[1..]; }
    }
  }

  /** Ascending by id: no item has a smaller id than one before it. */
  predicate Sorted(s: seq<Item>) {
    forall i, j | 0 <= i < j < |s| :: !Below(s[j].id, s[i].id)
  }

  /** Strictly ascending by id. */
  predicate Ascending(s: seq<Item>) {
    forall i, j | 0 <= i < j < |s| :: Below(s[i].id, s[j].id)
  }

  /** Put `x` before the first item whose id is not smaller than its own. */
  function Insert(x: Item, s: seq<Item>): seq<Item> {
    if s == [] || !Below(s[0].id, x.id) then [x] + s else [s[0]] + Insert(x, s[1..])
  }

  lemma {:induction false} InsertPermutes(x: Item, s: seq<Item>)
    ensures multiset(Insert(x, s)) == multiset(s) + multiset{x}
    decreases |s|
  {
    if s != [] && Below(s[0].id, x.id) {
      InsertPermutes(x, s[1..]);
      assert s == [s[0]] + s[1..];
    }
  }

  lemma {:induction false} InsertSorted(x: Item, s: seq<Item>)
    requires Sorted(s)
    ensures Sorted(Insert(x, s))
    decreases |s|
  {
    var r := Insert(x, s);
    if s == [] || !Below(s[0].id, x.id) {
      forall j | 0 < j < |r| ensures !Below(r[j].id, x.id) {
        assert r[j] == s[j - 1];
        if j > 1 && Below(s[j - 1].id, x.id) {
          BelowTotal(s[0].id, s[j - 1].id);
          if Below(s[0].id, s[j - 1].id) { BelowTransitive(s[0].id, s[j - 1].id, x.id); }
        }
      }
    } else {
      var t := s[1..];
      InsertSorted(x, t);
      InsertPermutes(x, t);
      var u := Insert(x, t);
      forall j | 0 <= j < |u| ensures !Below(u[j].id, s[0].id) {
        var y := u[j];
        assert y in multiset(u);
        if y == x {
          BelowAsymmetric(s[0].id, x.id);
        } else {
          assert y in multiset(t);
          var k :| 0 <= k < |t| && t[k] == y;
          assert s[k + 1] == y;
        }
      }
    }
  }

  /** Two arrangements of the same items have the same ids. */
  lemma IdsOfPermutation(a: seq<Item>, b: seq<Item>)
    requires multiset(a) == multiset(b)
    ensures Ids(a) == Ids(b)
  {
    forall id | id in Ids(a) ensures id in Ids(b) {
      var i :| 0 <= i < |a| && a[i].id == id;
      assert a[i] in multiset(b);
      var j :| 0 <= j < |b| && b[j] == a[i];
    }
    forall id | id in Ids(b) ensures id in Ids(a) {
      var j :| 0 <= j < |b| && b[j].id == id;
      assert b[j] in multiset(a);
      var i :| 0 <= i < |a| && a[i] == b[j];
    }
  }

  /** Python's stable `sort(key=id)`: each item is inserted in front of the sorted rest. */
  function SortById(s: seq<Item>): (r: seq<Item>)
    ensures multiset(r) == multiset(s)
    ensures Sorted(r)
    decreases |s|
  {
    if s == [] then []
    else
      var t := SortById(s[1..]);
      InsertPermutes(s[0], t);
      InsertSorted(s[0], t);
      assert s == [s[0]] + s[1..];
      Insert(s[0], t)
  }

  /** Sorted items with distinct ids are strictly ascending. */
  lemma SortedDistinctAscending(s: seq<Item>)
    requires Sorted(s) && DistinctIds(s)
    ensures Ascending(s)
  {
    forall i, j | 0 <= i < j < |s| ensures Below(s[i].id, s[j].id) {
      BelowTotal(s[i].id, s[j].id);
    }
  }

  /** A sequence with distinct ids has exactly as many items as ids. */
  lemma {:induction false} DistinctIdsCount(s: seq<Item>)
    requires DistinctIds(s)
    ensures |Ids(s)| == |s|
    decreases |s|
  {
    if s != [] {
      var t := s[..|s| - 1];
      DistinctIdsCount(t);
      assert Ids(s) == Ids(t) + {s[|s| - 1].id};
      assert s[|s| - 1].id !in Ids(t);
    }
  }

  /**
   * Sorting keeps distinct ids distinct: the result has as many items as
   * ids, so no id occurs twice.
   */
  lemma SortKeepsDistinct(s: seq<Item>)
    requires DistinctIds(s)
    ensures DistinctIds(SortById(s))
  {
    var r := SortById(s);
    DistinctIdsCount(s);
    IdsOfPermutation(r, s);
    assert |r| == |s| by { assert |multiset(r)| == |multiset(s)|; }
    if !DistinctIds(r) {
      var i, j :| 0 <= i < j < |r| && r[i].id == r[j].id;
      var rest := r[..j] + r[j + 1..];
      assert Ids(rest) == Ids(r) by {
        forall id | id in Ids(r) ensures id in Ids(rest) {
          var k :| 0 <= k < |r| && r[k].id == id;
          if k < j { assert rest[k] == r[k]; }
          else if k == j { assert rest[i] == r[i]; }
          else { assert rest[k - 1] == r[k]; }
        }
      }
      IdsBound(rest);
      assert false;
    }
  }

  /** A sequence has at most as many ids as items. */
  lemma {:induction false} IdsBound(s: seq<Item>)
    ensures |Ids(s)| <= |s|
    decreases |s|
  {
    if s != [] {
      var t := s[..|s| - 1];
      IdsBound(t);
      assert Ids(s) == Ids(t) + {s[|s| - 1].id};
    }
  }

  /** The head of a non-empty sequence is among its elements (kept as a lemma so the empty-side branches below stay free of checked steps). */
  lemma HeadIn(s: seq<Item>)
    ensures s != [] ==> s[0] in s
  {
  }

  /** Two strictly ascending sequences holding the same items are the same sequence. */
  lemma {:induction false} AscendingUnique(a: seq<Item>, b: seq<Item>)
    requires Ascending(a) && Ascending(b)
    requires forall x :: x in a <==> x in b
    ensures a == b
    decreases |a|
  {
    if a != [] && b != [] {
      if a[0] != b[0] {
        assert b[0] in b && a[0] in a;
        var i :| 0 <= i < |a| && a[i] == b[0];
        var j :| 0 <= j < |b| && b[j] == a[0];
        assert i > 0 && j > 0;
        BelowAsymmetric(a[0].id, b[0].id);
      }
      forall x ensures x in a[1..] <==> x in b[1..] {
        if x in a[1..] {
          var i :| 1 <= i < |a| && a[i] == x;
          BelowIrreflexive(a[0].id);
          assert x in a && x in b;
          var j :| 0 <= j < |b| && b[j] == x;
          assert j != 0;
        }
        if x in b[1..] {
          var j :| 1 <= j < |b| && b[j] == x;
          BelowIrreflexive(b[0].id);
          assert x in b && x in a;
          var i :| 0 <= i < |a| && a[i] == x;
          assert i != 0;
        }
      }
      AscendingUnique(a[1..], b[1..]);
      assert a == [a[0]] + a[1..] && b == [b[0]] + b[1..];
    } else if a != [] {
      HeadIn(a);
      assert false;
    } else if b != [] {
      HeadIn(b);
      assert false;
    }
  }

  /** `s` lists the table: every stored item once, each under its own id. */
  predicate Lists(s: seq<Item>, items: map<string, Item>) {
    DistinctIds(s) && Ids(s) == items.Keys &&
    forall i | 0 <= i < |s| :: s[i].id in items && items[s[i].id] == s[i]
  }

  /**
   * The sorted listing does not depend on the order in which the store
   * returned the items.
   */
  lemma ListingIndependentOfScanOrder(s1: seq<Item>, s2: seq<Item>, items: map<string, Item>)
    requires Lists(s1, items) && Lists(s2, items)
    ensures SortById(s1) == SortById(s2)
  {
    var r1, r2 := SortById(s1), SortById(s2);
    SortKeepsDistinct(s1);
    SortKeepsDistinct(s2);
    SortedDistinctAscending(r1);
    SortedDistinctAscending(r2);
    forall x ensures x in r1 <==> x in r2 {
      assert x in r1 <==> x in multiset(s1);
      assert x in r2 <==> x in multiset(s2);
      if x in s1 {
        var i :| 0 <= i < |s1| && s1[i] == x;
        assert x.id in Ids(s2);
        var j :| 0 <= j < |s2| && s2[j].id == x.id;
      }
      if x in s2 {
        var j :| 0 <= j < |s2| && s2[j] == x;
        assert x.id in Ids(s1);
        var i :| 0 <= i < |s1| && s1[i].id == x.id;
      }
    }
    AscendingUnique(r1, r2);
  }
}
