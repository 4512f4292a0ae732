/**
 Rows kept in order by a number: what a query by ascending number may return, how rows are numbered
 afresh from 1, and what the shifts before an insert, a move or a reorder make of the numbers. A query
 may return ties in any order, so every result here holds however ties are broken.
 */
module Orderings {
  import opened Wrappers

  type Id = string

  // The sort order of each row.
  type Table = map<Id, int>

  function Ids(q: seq<Id>): set<Id> {
    set x | x in q
  }

  predicate Distinct(q: seq<Id>) {
    forall i, j :: 0 <= i < j < |q| ==> q[i] != q[j]
  }

  // A possible answer to the query by ascending sort order.
  predicate IsOrdering(t: Table, q: seq<Id>) {
    && Distinct(q) && Ids(q) == t.Keys
    && (forall i, j :: 0 <= i < j < |q| ==> t[q[i]] <= t[q[j]])
  }

  predicate NumberedAt(t: Table, q: seq<Id>, i: int) {
    0 <= i < |q| && q[i] in t && t[q[i]] == i + 1
  }

  // The table numbers the rows of q from 1 in that order.
  predicate Lists(t: Table, q: seq<Id>) {
    Ids(q) == t.Keys && Numbers(t, q)
  }

  predicate Numbers(t: Table, q: seq<Id>) {
    forall i :: 0 <= i < |q| ==> NumberedAt(t, q, i)
  }

  // What resequencing may make of a table.
  ghost predicate Resequenced(before: Table, after: Table) {
    exists q :: IsOrdering(before, q) && Lists(after, q)
  }

  function Clamp(n: int, low: int, high: int): int {
    var m := if n < low then low else n;
    if m > high then high else m
  }

  function ShiftedUp(t: Table, d: int): Table {
    map x | x in t :: if t[x] >= d then t[x] + 1 else t[x]
  }

  // The position a request for `sortOrder` comes to.
  function InsertAt(n: nat, sortOrder: Option<int>): int {
    if sortOrder.Some? then Clamp(sortOrder.value, 1, n + 1) else n + 1
  }

  function Inserted(t: Table, x: Id, sortOrder: Option<int>): Table {
    var d := InsertAt(|t|, sortOrder);
    (if sortOrder.Some? then ShiftedUp(t, d) else t)[x := d]
  }

  // What moving a row from p to d does to one at o.
  function MovedOrder(o: int, p: int, d: int): int {
    if o >= d && p < d then o - 1
    else if o <= d && p > d then o + 1
    else o
  }

  function Moved(t: Table, x: Id, d: int): Table
    requires x in t
  {
    map y | y in t :: if y == x then d else MovedOrder(t[y], t[x], d)
  }

  function Reordered(t: Table, order: seq<Id>): Table {
    if order == [] then t
    else Reordered(t, order[..|order| - 1])[order[|order| - 1] := |order|]
  }

  // ---------------------------------------------------------------- orderings

  /** The query by ascending number, with ties in an order of its own. */
  method Ascending(rows: Table) returns (q: seq<Id>)
    ensures IsOrdering(rows, q)
  {
    q := [];
    var rest := rows.Keys;
    while rest != {}
      invariant rest !! Ids(q) && rest + Ids(q) == rows.Keys
      invariant Distinct(q)
      invariant forall i, j :: 0 <= i < j < |q| ==> rows[q[i]] <= rows[q[j]]
      invariant forall i, y :: 0 <= i < |q| && y in rest ==> rows[q[i]] <= rows[y]
    {
      LeastExists(rows, rest);
      var x :| x in rest && forall y :: y in rest ==> rows[x] <= rows[y];
      assert Ids(q + [x]) == Ids(q) + {x};
      q := q + [x];
      rest := rest - {x};
    }
  }

  lemma {:induction false} LeastExists(t: Table, s: set<Id>)
    requires s != {} && s <= t.Keys
    ensures exists x :: x in s && forall y :: y in s ==> t[x] <= t[y]
    decreases s
  {
    var a :| a in s;
    if s != {a} {
      LeastExists(t, s - {a});
      var x :| x in s - {a} && forall y :: y in s - {a} ==> t[x] <= t[y];
      if t[a] < t[x] {
        assert a in s && forall y :: y in s ==> t[a] <= t[y];
      } else {
        assert x in s && forall y :: y in s ==> t[x] <= t[y];
      }
    }
  }

  lemma {:induction false} SameRows(q: seq<Id>, t: Table, u: Table)
    requires Ids(q) == t.Keys == u.Keys
    requires forall k :: 0 <= k < |q| ==> q[k] in t && q[k] in u && t[q[k]] == u[q[k]]
    ensures t == u
  {
    forall x | x in t ensures t[x] == u[x] {
      assert x in Ids(q);
    }
  }

  lemma {:induction false} DistinctLength(q: seq<Id>)
    requires Distinct(q)
    ensures |Ids(q)| == |q|
    decreases |q|
  {
    if q != [] {
      var n := |q| - 1;
      DistinctLength(q[..n]);
      assert Ids(q) == Ids(q[..n]) + {q[n]};
    }
  }

  lemma {:induction false} OrderingExists(t: Table, s: set<Id>) returns (q: seq<Id>)
    requires s <= t.Keys
    ensures Distinct(q) && Ids(q) == s && forall i, j :: 0 <= i < j < |q| ==> t[q[i]] <= t[q[j]]
    decreases s
  {
    if s == {} {
      q := [];
    } else {
      LeastExists(t, s);
      var x :| x in s && forall y :: y in s ==> t[x] <= t[y];
      var rest := OrderingExists(t, s - {x});
      q := [x] + rest;
      assert forall y :: y in rest ==> y in Ids(rest);
      assert Ids(q) == Ids(rest) + {x};
    }
  }

  function Numbering(q: seq<Id>): Table {
    Reordered(map[], q)
  }

  // Each id is at the index of its last mention; ids not mentioned stay where they were.
  lemma {:induction false} ReorderedAt(t: Table, order: seq<Id>, x: Id)
    ensures x in Reordered(t, order) <==> x in t || x in order
    ensures x !in order && x in t ==> Reordered(t, order)[x] == t[x]
    ensures x in order ==> 1 <= Reordered(t, order)[x] <= |order| && order[Reordered(t, order)[x] - 1] == x
    ensures forall i :: x in order && Reordered(t, order)[x] <= i < |order| ==> order[i] != x
    decreases |order|
  {
    if order != [] {
      ReorderedAt(t, order[..|order| - 1], x);
    }
  }

  /** Reordering by a list of the right length puts each id at its index exactly when no id comes twice. */
  lemma {:induction false} ReorderExactly(t: Table, order: seq<Id>)
    requires |order| == |t| && Ids(order) <= t.Keys
    ensures Lists(Reordered(t, order), order) <==> Distinct(order)
    ensures Distinct(order) <==> Ids(order) == t.Keys
  {
    var u := Reordered(t, order);
    if Distinct(order) {
      DistinctLength(order);
      SubsetOfSameSize(Ids(order), t.Keys);
    }
    if Ids(order) == t.Keys {
      FullListIsDistinct(order);
    }
    forall x ensures x in u <==> x in t {
      ReorderedAt(t, order, x);
      assert x in order ==> x in Ids(order);
    }
    forall i | 0 <= i < |order| && Distinct(order) ensures u[order[i]] == i + 1 {
      ReorderedAt(t, order, order[i]);
    }
  }

  lemma {:induction false} SubsetOfSameSize(a: set<Id>, b: set<Id>)
    requires a <= b && |a| == |b|
    ensures a == b
  {
    assert |b - a| == |b| - |a|;
  }

  lemma {:induction false} IdsNoMoreThanLength(q: seq<Id>)
    ensures |Ids(q)| <= |q|
    decreases |q|
  {
    if q != [] {
      IdsNoMoreThanLength(q[..|q| - 1]);
      assert Ids(q) == Ids(q[..|q| - 1]) + {q[|q| - 1]};
    }
  }

  lemma {:induction false} FullListIsDistinct(q: seq<Id>)
    requires |Ids(q)| == |q|
    ensures Distinct(q)
  {
    forall i, j | 0 <= i < j < |q| ensures q[i] != q[j] {
      if q[i] == q[j] {
        var rest := q[..j] + q[j + 1..];
        forall x | x in Ids(q) ensures x in Ids(rest) {
          var k :| 0 <= k < |q| && q[k] == x;
          assert x == rest[if k < j then k else if k == j then i else k - 1];
        }
        assert Ids(q) <= Ids(rest);
        IdsNoMoreThanLength(rest);
        SubsetSize(Ids(q), Ids(rest));
        assert false;
      }
    }
  }

  lemma {:induction false} SubsetSize(a: set<Id>, b: set<Id>)
    requires a <= b
    ensures |a| <= |b|
  {
    assert |b - a| == |b| - |a|;
  }

  lemma {:induction false} NumberingLists(q: seq<Id>)
    requires Distinct(q)
    ensures Lists(Numbering(q), q)
  {
    forall i | 0 <= i < |q| ensures q[i] in Numbering(q) && Numbering(q)[q[i]] == i + 1 {
      ReorderedAt(map[], q, q[i]);
    }
    forall x ensures x in Numbering(q) <==> x in Ids(q) {
      ReorderedAt(map[], q, x);
    }
  }

  lemma {:induction false} TailOrdering(t: Table, q: seq<Id>)
    requires IsOrdering(t, q) && q != []
    ensures q[0] in t && IsOrdering(t - {q[0]}, q[1..])
  {
    assert q[0] in Ids(q);
    assert Ids(q[1..]) == (t - {q[0]}).Keys;
  }

  predicate Ascends(t: Table, q: seq<Id>) {
    Ids(q) <= t.Keys && forall i, j :: 0 <= i < j < |q| ==> t[q[i]] < t[q[j]]
  }

  lemma {:induction false} SameHead(t: Table, q: seq<Id>, r: seq<Id>)
    requires IsOrdering(t, q) && Ids(r) == t.Keys && Ascends(t, r) && q != []
    ensures r != [] && q[0] == r[0]
  {
    assert q[0] in Ids(r);
    var a := PositionOf(r, q[0]);
    assert r[0] in Ids(q);
    var b := PositionOf(q, r[0]);
    assert t[q[0]] <= t[q[b]];
  }

  // An ordering along which the sort orders ascend strictly is the only one.
  lemma {:induction false} StrictOrderingIsTheOnlyOne(t: Table, q: seq<Id>, r: seq<Id>)
    requires IsOrdering(t, q) && IsOrdering(t, r) && Ascends(t, r)
    ensures q == r
    decreases |q|
  {
    SameLength(t, r, q);
    if q != [] {
      SameHead(t, q, r);
      TailOrdering(t, q);
      TailOrdering(t, r);
      StrictOrderingIsTheOnlyOne(t - {q[0]}, q[1..], r[1..]);
    }
  }

  lemma {:induction false} SameLength(t: Table, list: seq<Id>, q: seq<Id>)
    requires Distinct(list) && Distinct(q) && Ids(list) == t.Keys == Ids(q)
    ensures |q| == |list|
  {
    DistinctLength(q);
    DistinctLength(list);
  }

  lemma {:induction false} ListedIsOrdered(t: Table, list: seq<Id>)
    requires Lists(t, list)
    ensures IsOrdering(t, list) && Ascends(t, list)
  {
    forall i | 0 <= i < |list| ensures list[i] in t && t[list[i]] == i + 1 {
      assert NumberedAt(t, list, i);
    }
  }

  lemma {:induction false} TheOnlyResult(before: Table, list: seq<Id>, after: Table)
    requires IsOrdering(before, list) && Ascends(before, list)
    requires Resequenced(before, after)
    ensures Lists(after, list)
  {
    var q :| IsOrdering(before, q) && Lists(after, q);
    StrictOrderingIsTheOnlyOne(before, q, list);
  }

  lemma {:induction false} TheOnlyListedResult(before: Table, list: seq<Id>, after: Table)
    requires Lists(before, list) && Resequenced(before, after)
    ensures Lists(after, list)
  {
    ListedIsOrdered(before, list);
    TheOnlyResult(before, list, after);
  }

  lemma {:induction false} ResultOf(before: Table, q: seq<Id>) returns (after: Table)
    requires IsOrdering(before, q)
    ensures Resequenced(before, after) && Lists(after, q)
  {
    after := Numbering(q);
    NumberingLists(q);
  }

  // ---------------------------------------------------------------- writing row after row

  // The first i rows of q have their new numbers, the others their old ones.
  predicate HalfWay(q: seq<Id>, i: int, t: Table, before: Table, after: Table) {
    && t.Keys == before.Keys == after.Keys == Ids(q) && Distinct(q)
    && forall k :: 0 <= k < |q| ==> t[q[k]] == if k < i then after[q[k]] else before[q[k]]
  }

  lemma {:induction false} NothingWritten(q: seq<Id>, before: Table, after: Table)
    requires IsOrdering(before, q) && after.Keys == before.Keys
    ensures HalfWay(q, 0, before, before, after)
  {
    forall k | 0 <= k < |q| ensures q[k] in before && q[k] in after {
      assert q[k] in Ids(q);
    }
  }

  lemma {:induction false} OneMoreWritten(q: seq<Id>, i: nat, t: Table, before: Table, after: Table)
    requires HalfWay(q, i, t, before, after) && i < |q|
    ensures q[i] in t && q[i] in before && q[i] in after && t[q[i]] == before[q[i]]
    ensures HalfWay(q, i + 1, t[q[i] := after[q[i]]], before, after)
    ensures after[q[i]] == before[q[i]] ==> t[q[i] := after[q[i]]] == t
  {
    assert q[i] in Ids(q);
    assert t[q[i] := after[q[i]]].Keys == t.Keys;
  }

  lemma {:induction false} AllWritten(q: seq<Id>, t: Table, before: Table, after: Table)
    requires HalfWay(q, |q|, t, before, after)
    ensures t == after
  {
    SameRows(q, t, after);
  }

  // ---------------------------------------------------------------- resequencing

  ghost predicate GapFree(t: Table) {
    exists q :: Lists(t, q)
  }

  lemma {:induction false} ListsOneTable(t: Table, u: Table, q: seq<Id>)
    requires Lists(t, q) && Lists(u, q)
    ensures t == u
  {
    forall i | 0 <= i < |q| ensures q[i] in t && q[i] in u && t[q[i]] == u[q[i]] {
      assert NumberedAt(t, q, i) && NumberedAt(u, q, i);
    }
    SameRows(q, t, u);
  }

  lemma {:induction false} PositionOf(q: seq<Id>, x: Id) returns (i: nat)
    requires x in Ids(q)
    ensures i < |q| && q[i] == x
  {
    i :| 0 <= i < |q| && q[i] == x;
  }

  lemma {:induction false} PositionsInRange(t: Table, list: seq<Id>, y: Id)
    requires Lists(t, list) && y in t
    ensures 1 <= t[y] <= |list| && list[t[y] - 1] == y
  {
    assert y in Ids(list);
    var o := PositionOf(list, y);
    assert NumberedAt(t, list, o);
  }

  /** Every table can be resequenced; the outcome has the same rows numbered 1 to n, with strict order kept. */
  lemma {:induction false} ResequencingNumbersInOrder(before: Table, after: Table)
    requires Resequenced(before, after)
    ensures after.Keys == before.Keys
    ensures forall x :: x in after ==> 1 <= after[x] <= |after|
    ensures forall x, y :: x in after && y in after && x != y ==> after[x] != after[y]
    ensures forall x, y :: x in after && y in after && before[x] < before[y] ==> after[x] < after[y]
  {
    var q :| IsOrdering(before, q) && Lists(after, q);
    DistinctLength(q);
    forall x | x in after ensures 1 <= after[x] <= |after| {
      PositionsInRange(after, q, x);
    }
    forall x, y | x in after && y in after
      ensures x != y ==> after[x] != after[y]
      ensures before[x] < before[y] ==> after[x] < after[y]
    {
      PositionsInRange(after, q, x);
      PositionsInRange(after, q, y);
    }
  }

  /** Resequencing leaves a table alone, however ties are broken, exactly when the table is free of gaps and ties. */
  lemma {:induction false} ResequencingIsIdleExactly(t: Table)
    ensures GapFree(t) <==> forall u :: Resequenced(t, u) ==> u == t
    ensures exists u :: Resequenced(t, u)
    ensures forall u :: Resequenced(t, u) ==> GapFree(u)
  {
    var q := OrderingExists(t, t.Keys);
    var v := ResultOf(t, q);
    if r :| Lists(t, r) {
      forall u | Resequenced(t, u) ensures u == t {
        TheOnlyListedResult(t, r, u);
        ListsOneTable(t, u, r);
      }
    }
  }

  // ---------------------------------------------------------------- insert, delete and move on a gap-free table

  function Placed(list: seq<Id>, x: Id, at: int): (r: seq<Id>)
    requires 1 <= at <= |list| + 1
    ensures |r| == |list| + 1 && r[at - 1] == x
  {
    list[..at - 1] + [x] + list[at - 1..]
  }

  lemma {:induction false} PlacedIds(list: seq<Id>, x: Id, at: int)
    requires 1 <= at <= |list| + 1
    ensures Ids(Placed(list, x, at)) == Ids(list) + {x}
  {
    var q := Placed(list, x, at);
    forall y ensures y in Ids(q) <==> y in Ids(list) + {x} {
      if y in list {
        var i := PositionOf(list, y);
        assert q[if i < at - 1 then i else i + 1] == y;
      }
      assert q[at - 1] == x;
    }
  }

  lemma {:induction false} PlacedDistinct(list: seq<Id>, x: Id, at: int)
    requires 1 <= at <= |list| + 1 && Distinct(list) && x !in list
    ensures Distinct(Placed(list, x, at))
  {
    var q := Placed(list, x, at);
    assert forall i :: 0 <= i < |q| ==> q[i] == if i < at - 1 then list[i] else if i == at - 1 then x else list[i - 1];
  }

  lemma {:induction false} InsertedAt(t: Table, list: seq<Id>, x: Id, sortOrder: Option<int>, d: int, i: nat)
    requires Numbers(t, list) && x !in t && |t| == |list|
    requires d == InsertAt(|list|, sortOrder) && 1 <= d <= |list| + 1 && i <= |list|
    ensures NumberedAt(Inserted(t, x, sortOrder), Placed(list, x, d), i)
  {
    if i != d - 1 {
      var j := if i < d - 1 then i else i - 1;
      assert Placed(list, x, d)[i] == list[j];
      assert NumberedAt(t, list, j);
    }
  }

  lemma {:induction false} InsertedIds(t: Table, list: seq<Id>, x: Id, sortOrder: Option<int>, d: int)
    requires Ids(list) == t.Keys && 1 <= d <= |list| + 1
    ensures Ids(Placed(list, x, d)) == Inserted(t, x, sortOrder).Keys
  {
    PlacedIds(list, x, d);
    assert Inserted(t, x, sortOrder).Keys == t.Keys + {x};
  }

  lemma {:induction false} InsertedNumbers(t: Table, list: seq<Id>, x: Id, sortOrder: Option<int>, d: int)
    requires Numbers(t, list) && x !in t && |t| == |list|
    requires d == InsertAt(|list|, sortOrder) && 1 <= d <= |list| + 1
    ensures Numbers(Inserted(t, x, sortOrder), Placed(list, x, d))
  {
    forall i | 0 <= i < |list| + 1
      ensures NumberedAt(Inserted(t, x, sortOrder), Placed(list, x, d), i)
    {
      InsertedAt(t, list, x, sortOrder, d, i);
    }
  }

  /** The list with x at the number asked for: first for any number up to 1, last beyond the end or without one. */
  function InsertedList(list: seq<Id>, x: Id, sortOrder: Option<int>): seq<Id> {
    match sortOrder
    case None => list + [x]
    case Some(o) =>
      if o <= 1 then [x] + list
      else if o > |list| then list + [x]
      else list[..o - 1] + [x] + list[o - 1..]
  }

  lemma {:induction false} PlacedWhereAsked(list: seq<Id>, x: Id, sortOrder: Option<int>)
    ensures 1 <= InsertAt(|list|, sortOrder) <= |list| + 1
    ensures Placed(list, x, InsertAt(|list|, sortOrder)) == InsertedList(list, x, sortOrder)
  {
  }

  /** Inserting is list insertion at the position asked for, brought into 1..n+1; without one, at the end. */
  lemma {:induction false} InsertIsListInsertion(t: Table, list: seq<Id>, x: Id, sortOrder: Option<int>, after: Table)
    requires Lists(t, list) && x !in t && Resequenced(Inserted(t, x, sortOrder), after)
    ensures 1 <= InsertAt(|list|, sortOrder) <= |list| + 1
    ensures Lists(after, InsertedList(list, x, sortOrder))
  {
    PlacedWhereAsked(list, x, sortOrder);
    ListedIsOrdered(t, list);
    DistinctLength(list);
    var d := InsertAt(|list|, sortOrder);
    InsertedIds(t, list, x, sortOrder, d);
    InsertedNumbers(t, list, x, sortOrder, d);
    var target := Placed(list, x, d);
    TheOnlyListedResult(Inserted(t, x, sortOrder), target, after);
  }

  /** Deleting takes the row out of the list and leaves the rest in order. */
  lemma {:induction false} DeleteIsListRemoval(t: Table, list: seq<Id>, p: nat, after: Table)
    requires Lists(t, list) && p < |list| && Resequenced(t - {list[p]}, after)
    ensures Lists(after, Without(list, p))
  {
    RemovedAscends(t, list, p);
    TheOnlyResult(t - {list[p]}, Without(list, p), after);
  }

  lemma {:induction false} RemovedAscends(t: Table, list: seq<Id>, p: nat)
    requires Lists(t, list) && p < |list|
    ensures IsOrdering(t - {list[p]}, Without(list, p)) && Ascends(t - {list[p]}, Without(list, p))
  {
    ListedIsOrdered(t, list);
    RemovedIds(list, p);
    var q := Without(list, p);
    forall i, j | 0 <= i < j < |q| ensures q[i] in t && q[j] in t && t[q[i]] < t[q[j]] {
      assert NumberedAt(t, list, if i < p then i else i + 1) && NumberedAt(t, list, if j < p then j else j + 1);
    }
  }

  function Without(list: seq<Id>, p: nat): (r: seq<Id>)
    requires p < |list|
    ensures |r| == |list| - 1
  {
    list[..p] + list[p + 1..]
  }

  lemma {:induction false} RemovedIds(list: seq<Id>, p: nat)
    requires p < |list| && Distinct(list)
    ensures Distinct(Without(list, p)) && Ids(Without(list, p)) == Ids(list) - {list[p]} && list[p] !in Without(list, p)
    ensures forall i :: 0 <= i < |Without(list, p)| ==> Without(list, p)[i] == list[if i < p then i else i + 1]
  {
    var q := Without(list, p);
    forall y ensures y in Ids(q) <==> y in Ids(list) - {list[p]} {
      if y in Ids(list) && y != list[p] {
        var i := PositionOf(list, y);
        assert q[if i < p then i else i - 1] == y;
      }
    }
  }
}
