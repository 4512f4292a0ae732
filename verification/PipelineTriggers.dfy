/**
 The triggers attached to one pipeline and their sort orders. The unique index here is on trigger and sort
 order: two triggers of a pipeline may hold the same order, but a trigger may not hold an order that it
 holds in another pipeline, and a write that would give it one aborts its whole transaction.
 */
module PipelineTriggers {
  import opened Wrappers
  import opened Orderings

  datatype Reply = Done | NotFound | AlreadyAttached | InvalidOrder | Aborted

  // The orders each trigger holds in other pipelines.
  type Elsewhere = map<Id, set<int>>

  predicate Free(e: Elsewhere, x: Id, v: int) {
    x in e ==> v !in e[x]
  }

  predicate AllFree(e: Elsewhere, t: Table) {
    forall x :: x in t ==> Free(e, x, t[x])
  }

  // Numbering the triggers of q from 1 takes no order that is held elsewhere.
  predicate FreeAlong(e: Elsewhere, q: seq<Id>) {
    forall i :: 0 <= i < |q| ==> Free(e, q[i], i + 1)
  }

  // What a transaction that writes `target` and resequences along q comes to: all or nothing.
  predicate OutcomeAlong(e: Elsewhere, before: Table, target: Table, q: seq<Id>, reply: Reply, after: Table) {
    if AllFree(e, target) && FreeAlong(e, q) then reply == Done && Lists(after, q)
    else reply == Aborted && after == before
  }

  /** It resequences along some ordering, which is up to the database where there are ties. */
  ghost predicate Outcome(e: Elsewhere, before: Table, target: Table, reply: Reply, after: Table) {
    exists q :: IsOrdering(target, q) && OutcomeAlong(e, before, target, q, reply, after)
  }

  // ---------------------------------------------------------------- the transactions

  class Links {
    var rows: map<Id, int>
    var elsewhere: map<Id, set<int>>

    // The unique index holds.
    predicate Valid()
      reads this
    {
      AllFree(elsewhere, rows)
    }

    // One row's update or insert, as the index lets it through or not.
    method Write(x: Id, v: int) returns (ok: bool)
      modifies this`rows
      ensures ok == Free(elsewhere, x, v)
      ensures rows == if ok then old(rows)[x := v] else old(rows)
      ensures old(Valid()) ==> Valid()
    {
      if x in elsewhere && v in elsewhere[x] {
        return false;
      }
      rows := rows[x := v];
      ok := true;
    }

    method Resequence() returns (ok: bool)
      requires Valid()
      modifies this`rows
      ensures ok ==> Valid()
      ensures exists q :: IsOrdering(old(rows), q) && ok == FreeAlong(elsewhere, q) && (ok ==> Lists(rows, q))
    {
      var q := Ascending(rows);
      ghost var u := ResultOf(rows, q);
      NothingWritten(q, rows, u);
      var desired := 1;
      for i := 0 to |q|
        invariant desired == i + 1 && HalfWay(q, i, rows, old(rows), u) && Valid()
        invariant forall k :: 0 <= k < i ==> Free(elsewhere, q[k], k + 1)
      {
        OneMoreWritten(q, i, rows, old(rows), u);
        assert NumberedAt(u, q, i);
        if rows[q[i]] != desired {
          ok := Write(q[i], desired);
          if !ok { return; }
        }
        desired := desired + 1;
      }
      AllWritten(q, rows, old(rows), u);
      ok := true;
    }

    // The end of a transaction that began with `saved`.
    method Finish(saved: Table) returns (reply: Reply)
      requires Valid() && AllFree(elsewhere, saved)
      modifies this`rows
      ensures Valid() && Outcome(elsewhere, saved, old(rows), reply, rows)
    {
      var ok := Resequence();
      if !ok {
        rows := saved;
      }
      reply := if ok then Done else Aborted;
    }

    // The shifts before an insertion at `desired`.
    method OpenGap(desired: int) returns (ok: bool)
      requires Valid()
      modifies this`rows
      ensures ok == AllFree(elsewhere, ShiftedUp(old(rows), desired))
      ensures ok ==> rows == ShiftedUp(old(rows), desired)
    {
      var existing := Ascending(rows);
      ghost var target := ShiftedUp(rows, desired);
      NothingWritten(existing, rows, target);
      for i := 0 to |existing|
        invariant HalfWay(existing, i, rows, old(rows), target) && Valid()
      {
        OneMoreWritten(existing, i, rows, old(rows), target);
        if rows[existing[i]] >= desired {
          ok := Write(existing[i], rows[existing[i]] + 1);
          if !ok { return; }
        }
      }
      AllWritten(existing, rows, old(rows), target);
      ok := true;
    }

    method Attach(x: Id, sortOrder: Option<int>) returns (reply: Reply)
      requires Valid()
      modifies this`rows
      ensures Valid()
      ensures x in old(rows) ==> reply == AlreadyAttached && rows == old(rows)
      ensures x !in old(rows) ==> Outcome(elsewhere, old(rows), Inserted(old(rows), x, sortOrder), reply, rows)
    {
      if x in rows { return AlreadyAttached; }
      var saved := rows;
      ghost var target := Inserted(rows, x, sortOrder);
      var n := |rows|;
      var desired := Clamp(if sortOrder.Some? then sortOrder.value else n + 1, 1, n + 1);
      var ok := true;
      if sortOrder.Some? {
        ok := OpenGap(desired);
      }
      if ok {
        ok := Write(x, desired);
      }
      if !ok {
        rows := saved;
        AttachRefused(elsewhere, saved, x, sortOrder);
        SomeOrdering(target);
        return Aborted;
      }
      reply := Finish(saved);
    }

    // What a move from `from` to `desired` does to one of the other triggers.
    method Shift(trigger: Id, from: int, desired: int) returns (ok: bool)
      requires Valid() && trigger in rows
      modifies this`rows
      ensures Valid() && ok == Free(elsewhere, trigger, MovedOrder(old(rows)[trigger], from, desired))
      ensures ok ==> rows == old(rows)[trigger := MovedOrder(old(rows)[trigger], from, desired)]
    {
      var newOrder := rows[trigger];
      if rows[trigger] >= desired && from < desired {
        newOrder := rows[trigger] - 1;
      } else if rows[trigger] <= desired && from > desired {
        newOrder := rows[trigger] + 1;
      }
      if newOrder == rows[trigger] { return true; }
      ok := Write(trigger, newOrder);
    }

    // The shifts before a move of x to `desired`, and the move.
    method MakeRoom(x: Id, desired: int) returns (ok: bool)
      requires Valid() && x in rows
      modifies this`rows
      ensures ok == AllFree(elsewhere, Moved(old(rows), x, desired))
      ensures ok ==> rows == Moved(old(rows), x, desired)
    {
      var from := rows[x];
      var triggers := Ascending(rows);
      ghost var target := Moved(rows, x, desired);
      ghost var shifted := target[x := from];
      NothingWritten(triggers, rows, shifted);
      for i := 0 to |triggers|
        invariant HalfWay(triggers, i, rows, old(rows), shifted) && Valid()
      {
        var trigger := triggers[i];
        OneMoreWritten(triggers, i, rows, old(rows), shifted);
        if trigger == x { continue; }
        ok := Shift(trigger, from, desired);
        if !ok {
          assert !Free(elsewhere, trigger, target[trigger]);
          return;
        }
      }
      AllWritten(triggers, rows, old(rows), shifted);
      assert shifted[x := desired] == target && target[x] == desired;
      ok := Write(x, desired);
    }

    method Move(x: Id, sortOrder: Option<int>) returns (reply: Reply)
      requires Valid()
      modifies this`rows
      ensures Valid()
      ensures x !in old(rows) ==> reply == NotFound && rows == old(rows)
      ensures x in old(rows) ==>
                Outcome(elsewhere, old(rows), MoveTarget(old(rows), x, sortOrder), reply, rows)
    {
      if x !in rows { return NotFound; }
      var saved := rows;
      if sortOrder.Some? {
        var ok := MakeRoom(x, Clamp(sortOrder.value, 1, |rows|));
        if !ok {
          rows := saved;
          SomeOrdering(MoveTarget(rows, x, sortOrder));
          return Aborted;
        }
      }
      reply := Finish(saved);
    }

    method Detach(x: Id) returns (reply: Reply)
      requires Valid()
      modifies this`rows
      ensures Valid()
      ensures if x in old(rows) then Outcome(elsewhere, old(rows), old(rows) - {x}, reply, rows)
              else reply == NotFound && rows == old(rows)
    {
      if x !in rows { return NotFound; }
      var saved := rows;
      rows := rows - {x};
      reply := Finish(saved);
    }

    method Reorder(order: seq<Id>) returns (reply: Reply)
      requires Valid()
      modifies this`rows
      ensures Valid()
      ensures reply == if old(rows) == map[] then NotFound
                       else if |order| != |old(rows)| || !(Ids(order) <= old(rows).Keys) then InvalidOrder
                       else if FreeAlong(elsewhere, order) then Done
                       else Aborted
      ensures rows == if reply == Done then Reordered(old(rows), order) else old(rows)
    {
      if |rows| == 0 { return NotFound; }
      if |order| != |rows| { return InvalidOrder; }
      for i := 0 to |order|
        invariant rows == old(rows) && Ids(order[..i]) <= rows.Keys
      {
        if order[i] !in rows {
          assert order[i] in Ids(order);
          return InvalidOrder;
        }
        assert Ids(order[..i + 1]) == Ids(order[..i]) + {order[i]};
      }
      assert order[..|order|] == order;
      var saved := rows;
      var idx := 1;
      for i := 0 to |order|
        invariant idx == i + 1 && Valid()
        invariant rows == Reordered(saved, order[..i])
        invariant forall k :: 0 <= k < i ==> Free(elsewhere, order[k], k + 1)
      {
        assert order[..i + 1][..i] == order[..i];
        var ok := Write(order[i], idx);
        if !ok {
          rows := saved;
          return Aborted;
        }
        idx := idx + 1;
      }
      reply := Done;
    }
  }

  function MoveTarget(t: Table, x: Id, sortOrder: Option<int>): Table
    requires x in t
  {
    if sortOrder.Some? then Moved(t, x, Clamp(sortOrder.value, 1, |t|)) else t
  }

  lemma {:induction false} SomeOrdering(t: Table)
    ensures exists q :: IsOrdering(t, q)
  {
    var q := OrderingExists(t, t.Keys);
    assert IsOrdering(t, q);
  }

  lemma {:induction false} AttachRefused(e: Elsewhere, t: Table, x: Id, sortOrder: Option<int>)
    requires x !in t
    requires var d := InsertAt(|t|, sortOrder);
             !Free(e, x, d) || (sortOrder.Some? && !AllFree(e, ShiftedUp(t, d)))
    ensures !AllFree(e, Inserted(t, x, sortOrder))
  {
    var d, u := InsertAt(|t|, sortOrder), Inserted(t, x, sortOrder);
    if Free(e, x, d) {
      var y :| y in ShiftedUp(t, d) && !Free(e, y, ShiftedUp(t, d)[y]);
      assert u[y] == ShiftedUp(t, d)[y];
    } else {
      assert u[x] == d;
    }
  }

  // ---------------------------------------------------------------- attach, detach and reorder

  lemma {:induction false} FreeRows(e: Elsewhere, t: Table, list: seq<Id>)
    requires Lists(t, list)
    ensures AllFree(e, t) <==> FreeAlong(e, list)
  {
    forall i | 0 <= i < |list| ensures list[i] in t && t[list[i]] == i + 1 {
      assert NumberedAt(t, list, i);
    }
    forall x | x in t ensures 1 <= t[x] <= |list| && list[t[x] - 1] == x {
      PositionsInRange(t, list, x);
    }
  }

  /**
   Attaching goes through exactly when no trigger's place afterwards is one it holds elsewhere; then it is
   list insertion.
   */
  lemma {:induction false} AttachExactly(
    e: Elsewhere, t: Table, list: seq<Id>, x: Id, sortOrder: Option<int>, reply: Reply, after: Table)
    requires Lists(t, list) && x !in t && Outcome(e, t, Inserted(t, x, sortOrder), reply, after)
    ensures var placed := InsertedList(list, x, sortOrder);
            && (reply == Done <==> FreeAlong(e, placed))
            && (if reply == Done then Lists(after, placed) else reply == Aborted && after == t)
  {
    var target := Inserted(t, x, sortOrder);
    var q :| IsOrdering(target, q) && OutcomeAlong(e, t, target, q, reply, after);
    InsertedIsListed(t, list, x, sortOrder);
    PlacedWhereAsked(list, x, sortOrder);
    var placed := InsertedList(list, x, sortOrder);
    ListedIsOrdered(target, placed);
    StrictOrderingIsTheOnlyOne(target, q, placed);
    FreeRows(e, target, placed);
  }

  lemma {:induction false} InsertedIsListed(t: Table, list: seq<Id>, x: Id, sortOrder: Option<int>)
    requires Lists(t, list) && x !in t
    ensures 1 <= InsertAt(|list|, sortOrder) <= |list| + 1
    ensures Lists(Inserted(t, x, sortOrder), Placed(list, x, InsertAt(|list|, sortOrder)))
  {
    ListedIsOrdered(t, list);
    DistinctLength(list);
    InsertedIds(t, list, x, sortOrder, InsertAt(|list|, sortOrder));
    InsertedNumbers(t, list, x, sortOrder, InsertAt(|list|, sortOrder));
  }

  /** A trigger that is first in one pipeline cannot be the only one of another. */
  lemma {:induction false} FirstInOnePipelineOnly(e: Elsewhere, x: Id, reply: Reply, after: Table)
    requires Outcome(e, map[], Inserted(map[], x, None), reply, after)
    ensures reply == Done <==> Free(e, x, 1)
  {
    AttachExactly(e, map[], [], x, None, reply, after);
    assert InsertedList([], x, None) == [x];
  }

  /**
   Detaching goes through exactly when no remaining trigger comes to a place it holds elsewhere; then it is
   list removal.
   */
  lemma {:induction false} DetachExactly(
    e: Elsewhere, t: Table, list: seq<Id>, p: nat, reply: Reply, after: Table)
    requires Lists(t, list) && AllFree(e, t) && p < |list| && Outcome(e, t, t - {list[p]}, reply, after)
    ensures reply == Done <==> FreeAlong(e, Without(list, p))
    ensures if reply == Done then Lists(after, Without(list, p)) else reply == Aborted && after == t
  {
    var target := t - {list[p]};
    var q :| IsOrdering(target, q) && OutcomeAlong(e, t, target, q, reply, after);
    RemovedAscends(t, list, p);
    StrictOrderingIsTheOnlyOne(target, q, Without(list, p));
  }

  // ---------------------------------------------------------------- move on a gap-free table

  // The list move a request to move list[p - 1] to position d stands for.
  function ListMove(list: seq<Id>, p: int, d: int): (r: seq<Id>)
    requires 1 <= p <= |list| && 1 <= d <= |list|
    ensures |r| == |list| && r[d - 1] == list[p - 1]
  {
    Placed(Without(list, p - 1), list[p - 1], d)
  }

  // A move to an end of the list, or to where the trigger already is.
  predicate LandsForSure(n: nat, p: int, d: int) {
    d == p || (p < d && d == n) || (d < p && d == 1)
  }

  lemma {:induction false} PartSize(list: seq<Id>, from: nat, to: nat)
    requires Distinct(list) && from <= to <= |list|
    ensures |Ids(list[from..to])| == to - from
  {
    DistinctLength(list[from..to]);
  }

  // Where x may stand in an ordering: after no more than the steps not above it, before no more than those not below.
  lemma {:induction false} PlaceBounds(m: Table, q: seq<Id>, k: nat, left: set<Id>, right: set<Id>)
    requires IsOrdering(m, q) && k < |q|
    requires forall y :: y in m && y != q[k] && m[y] <= m[q[k]] ==> y in left
    requires forall y :: y in m && y != q[k] && m[y] >= m[q[k]] ==> y in right
    ensures |q| - |right| <= k + 1 <= |left| + 1
  {
    assert forall i :: 0 <= i < |q| ==> q[i] in Ids(q);
    PartSize(q, 0, k);
    PartSize(q, k + 1, |q|);
    SubsetSize(Ids(q[0..k]), left);
    SubsetSize(Ids(q[k + 1..|q|]), right);
  }

  // The triggers at positions from + 1 to `to`, but for the one at position p.
  function Others(list: seq<Id>, from: nat, to: nat, p: int): set<Id>
    requires from < p <= to <= |list|
  {
    Ids(list[from..to]) - {list[p - 1]}
  }

  lemma {:induction false} ListedSizes(t: Table, list: seq<Id>, from: nat, to: nat, p: int)
    requires Lists(t, list) && from <= to <= |list|
    ensures |Ids(list[from..to])| == to - from
    ensures from < p <= to ==> |Others(list, from, to, p)| == to - from - 1
  {
    ListedIsOrdered(t, list);
    PartSize(list, from, to);
    if from < p <= to {
      assert list[from..to][p - 1 - from] in Ids(list[from..to]);
    }
  }

  lemma {:induction false} OrderingLength(t: Table, list: seq<Id>, q: seq<Id>)
    requires Lists(t, list) && Distinct(q) && Ids(q) == t.Keys
    ensures |q| == |list|
  {
    ListedIsOrdered(t, list);
    SameLength(t, list, q);
  }

  lemma {:induction false} InPart(t: Table, list: seq<Id>, from: nat, to: nat, y: Id)
    requires Lists(t, list) && y in t && from < t[y] <= to <= |list|
    ensures y in Ids(list[from..to])
  {
    PositionsInRange(t, list, y);
    assert list[from..to][t[y] - 1 - from] == y;
  }

  lemma {:induction false} SidesMovingDown(t: Table, list: seq<Id>, p: int, d: int, low: int, y: Id)
    requires Lists(t, list) && 1 <= p < d <= |list| && low == (if d < |list| then d + 1 else d)
    requires y in t && y != list[p - 1]
    ensures MovedOrder(t[y], p, d) <= d ==> y in Others(list, 0, low, p)
    ensures MovedOrder(t[y], p, d) >= d ==> y in Ids(list[d..|list|])
  {
    PositionsInRange(t, list, y);
    if t[y] <= low { InPart(t, list, 0, low, y); }
    if t[y] > d { InPart(t, list, d, |list|, y); }
  }

  lemma {:induction false} SidesMovingUp(t: Table, list: seq<Id>, p: int, d: int, high: int, y: Id)
    requires Lists(t, list) && 1 <= d < p <= |list| && high == (if d > 1 then d - 2 else 0)
    requires y in t && y != list[p - 1]
    ensures MovedOrder(t[y], p, d) <= d ==> y in Ids(list[0..d - 1])
    ensures MovedOrder(t[y], p, d) >= d ==> y in Others(list, high, |list|, p)
  {
    PositionsInRange(t, list, y);
    if t[y] <= d - 1 { InPart(t, list, 0, d - 1, y); }
    if t[y] > high { InPart(t, list, high, |list|, y); }
  }

  lemma {:induction false} LandsMovingDown(t: Table, list: seq<Id>, p: int, d: int, q: seq<Id>, k: nat)
    requires Lists(t, list) && 1 <= p < d <= |list| && list[p - 1] in t
    requires IsOrdering(Moved(t, list[p - 1], d), q) && k < |q| && q[k] == list[p - 1]
    ensures d <= k + 1 <= if d < |list| then d + 1 else d
  {
    var x, n := list[p - 1], |list|;
    var m := Moved(t, x, d);
    var low := if d < n then d + 1 else d;
    ListedSizes(t, list, 0, low, p);
    ListedSizes(t, list, d, n, p);
    OrderingLength(t, list, q);
    assert NumberedAt(t, list, p - 1);
    forall y | y in m && y != x
      ensures m[y] <= d ==> y in Others(list, 0, low, p)
      ensures m[y] >= d ==> y in Ids(list[d..n])
    {
      SidesMovingDown(t, list, p, d, low, y);
    }
    PlaceBounds(m, q, k, Others(list, 0, low, p), Ids(list[d..n]));
  }

  lemma {:induction false} LandsMovingUp(t: Table, list: seq<Id>, p: int, d: int, q: seq<Id>, k: nat)
    requires Lists(t, list) && 1 <= d < p <= |list| && list[p - 1] in t
    requires IsOrdering(Moved(t, list[p - 1], d), q) && k < |q| && q[k] == list[p - 1]
    ensures (if d > 1 then d - 1 else d) <= k + 1 <= d
  {
    var x, n := list[p - 1], |list|;
    var m := Moved(t, x, d);
    var high := if d > 1 then d - 2 else 0;
    ListedSizes(t, list, high, n, p);
    ListedSizes(t, list, 0, d - 1, p);
    OrderingLength(t, list, q);
    assert NumberedAt(t, list, p - 1);
    forall y | y in m && y != x
      ensures m[y] <= d ==> y in Ids(list[0..d - 1])
      ensures m[y] >= d ==> y in Others(list, high, n, p)
    {
      SidesMovingUp(t, list, p, d, high, y);
    }
    PlaceBounds(m, q, k, Ids(list[0..d - 1]), Others(list, high, n, p));
  }

  lemma {:induction false} Stays(t: Table, list: seq<Id>, p: int, q: seq<Id>, k: nat)
    requires Lists(t, list) && 1 <= p <= |list| && list[p - 1] in t
    requires IsOrdering(Moved(t, list[p - 1], p), q) && k < |q| && q[k] == list[p - 1]
    ensures k + 1 == p
  {
    assert NumberedAt(t, list, p - 1);
    assert Moved(t, list[p - 1], p) == t;
    ListedIsOrdered(t, list);
    StrictOrderingIsTheOnlyOne(t, q, list);
  }

  lemma {:induction false} PlaceOfMoved(t: Table, list: seq<Id>, p: int, d: int, q: seq<Id>, k: nat)
    requires Lists(t, list) && 1 <= p <= |list| && 1 <= d <= |list| && list[p - 1] in t
    requires IsOrdering(Moved(t, list[p - 1], d), q) && k < |q| && q[k] == list[p - 1]
    ensures LandsForSure(|list|, p, d) ==> k + 1 == d
    ensures p < d ==> d <= k + 1 <= d + 1
    ensures d < p ==> d - 1 <= k + 1 <= d
  {
    if p < d {
      LandsMovingDown(t, list, p, d, q, k);
    } else if d < p {
      LandsMovingUp(t, list, p, d, q, k);
    } else {
      Stays(t, list, p, q, k);
    }
  }

  /** However ties are broken, a moved trigger comes to the position asked for or to the one just past it. */
  lemma {:induction false} MoveLandsWithinOne(t: Table, list: seq<Id>, p: int, d: int, after: Table)
    requires Lists(t, list) && 1 <= p <= |list| && 1 <= d <= |list|
    requires Resequenced(Moved(t, list[p - 1], d), after)
    ensures list[p - 1] in after
    ensures LandsForSure(|list|, p, d) ==> after[list[p - 1]] == d
    ensures p < d ==> d <= after[list[p - 1]] <= d + 1
    ensures d < p ==> d - 1 <= after[list[p - 1]] <= d
  {
    assert list[p - 1] in Ids(list);
    var q :| IsOrdering(Moved(t, list[p - 1], d), q) && Lists(after, q);
    var k := PositionOf(q, list[p - 1]);
    assert NumberedAt(after, q, k);
    PlaceOfMoved(t, list, p, d, q, k);
  }

  /**
   In terms of the number given: without one the trigger stays, up to 1 it comes first, from the number of
   triggers on it comes last, and otherwise it comes to that place or the next one the way it goes.
   */
  lemma {:induction false} MoveLandsWhereAsked(
    t: Table, list: seq<Id>, p: int, sortOrder: Option<int>, after: Table)
    requires Lists(t, list) && 1 <= p <= |list| && list[p - 1] in t
    requires Resequenced(MoveTarget(t, list[p - 1], sortOrder), after)
    ensures list[p - 1] in after
    ensures var at := after[list[p - 1]];
            match sortOrder
            case None => at == p && after == t
            case Some(o) =>
              if o <= 1 then at == 1
              else if o >= |list| then at == |list|
              else if o == p then at == p
              else if p < o then o <= at <= o + 1
              else o - 1 <= at <= o
  {
    assert NumberedAt(t, list, p - 1);
    if sortOrder == None {
      TheOnlyListedResult(t, list, after);
      ListedTablesAgree(t, after, list);
    } else {
      ListedIsOrdered(t, list);
      DistinctLength(list);
      MoveLandsWithinOne(t, list, p, Clamp(sortOrder.value, 1, |list|), after);
    }
  }

  lemma {:induction false} ListedTablesAgree(t: Table, u: Table, list: seq<Id>)
    requires Lists(t, list) && Lists(u, list)
    ensures t == u
  {
    forall x | x in t ensures x in u && u[x] == t[x] {
      assert x in Ids(list);
      var i := PositionOf(list, x);
      assert NumberedAt(t, list, i) && NumberedAt(u, list, i);
    }
  }

  // The position a trigger of the other triggers' list has in the whole list.
  function OldPosition(i: int, p: int): int {
    if i < p - 1 then i + 1 else i + 2
  }

  // The sort order at index i of the moved list, before resequencing.
  function NewOrder(i: int, p: int, d: int, at: int): int {
    if i == at - 1 then d else MovedOrder(OldPosition(if i < at - 1 then i else i - 1, p), p, d)
  }

  lemma {:induction false} NewOrdersAscend(i: int, j: int, p: int, d: int, at: int)
    requires 0 <= i < j && 1 <= p && 1 <= d && 1 <= at
    requires at == d || (p < d && at == d + 1) || (d < p && at == d - 1)
    ensures NewOrder(i, p, d, at) <= NewOrder(j, p, d, at)
  {
  }

  lemma {:induction false} MovedListAt(list: seq<Id>, p: int, at: int, i: int)
    requires 1 <= p <= |list| && 1 <= at <= |list| && 0 <= i < |list|
    ensures ListMove(list, p, at)[i] ==
            if i == at - 1 then list[p - 1] else list[OldPosition(if i < at - 1 then i else i - 1, p) - 1]
  {
  }

  lemma {:induction false} MovedValues(t: Table, list: seq<Id>, p: int, d: int, at: int, i: int)
    requires Numbers(t, list) && 1 <= p <= |list| && 1 <= at <= |list| && list[p - 1] in t && 0 <= i < |list|
    ensures ListMove(list, p, at)[i] in t
    ensures Moved(t, list[p - 1], d)[ListMove(list, p, at)[i]] == NewOrder(i, p, d, at)
  {
    var y := ListMove(list, p, at)[i];
    MovedListAt(list, p, at, i);
    if i != at - 1 {
      var o := OldPosition(if i < at - 1 then i else i - 1, p);
      assert NumberedAt(t, list, o - 1) && NumberedAt(t, list, p - 1);
    }
  }

  lemma {:induction false} MovedIds(t: Table, list: seq<Id>, p: int, at: int)
    requires Lists(t, list) && 1 <= p <= |list| && 1 <= at <= |list|
    ensures Ids(ListMove(list, p, at)) == t.Keys && Distinct(ListMove(list, p, at))
  {
    ListedIsOrdered(t, list);
    RemovedIds(list, p - 1);
    PlacedIds(Without(list, p - 1), list[p - 1], at);
    PlacedDistinct(Without(list, p - 1), list[p - 1], at);
    assert list[p - 1] in Ids(list);
  }

  // The tie-break that puts the moved trigger at `at`.
  lemma {:induction false} MovedOrdering(t: Table, list: seq<Id>, p: int, d: int, at: int)
    requires Lists(t, list) && 1 <= p <= |list| && 1 <= d <= |list| && 1 <= at <= |list| && list[p - 1] in t
    requires at == d || (p < d && at == d + 1) || (d < p && at == d - 1)
    ensures IsOrdering(Moved(t, list[p - 1], d), ListMove(list, p, at))
  {
    var m, q := Moved(t, list[p - 1], d), ListMove(list, p, at);
    MovedIds(t, list, p, at);
    forall i, j | 0 <= i < j < |q| ensures q[i] in m && q[j] in m && m[q[i]] <= m[q[j]] {
      MovedValues(t, list, p, d, at, i);
      MovedValues(t, list, p, d, at, j);
      NewOrdersAscend(i, j, p, d, at);
    }
  }

  // What a move of x to position d may make of a table, if it goes through.
  ghost predicate MayBecome(t: Table, x: Id, d: int, after: Table) {
    x in t && Resequenced(Moved(t, x, d), after)
  }

  predicate At(t: Table, x: Id, position: int) {
    x in t && t[x] == position
  }

  // How many rows stand below v, and how many not above it.
  function Below(t: Table, v: int): set<Id> {
    set x | x in t && t[x] < v
  }

  function NotAbove(t: Table, v: int): set<Id> {
    set x | x in t && t[x] <= v
  }

  // The places that ties leave to x.
  predicate MayStandAt(t: Table, x: Id, k: int) {
    x in t && |Below(t, t[x])| < k <= |NotAbove(t, t[x])|
  }

  lemma {:induction false} PlacesInOrdering(t: Table, q: seq<Id>, i: nat)
    requires IsOrdering(t, q) && i < |q|
    ensures MayStandAt(t, q[i], i + 1)
  {
    assert q[i] in Ids(q);
    var v := t[q[i]];
    var left, right := NotAbove(t, v) - {q[i]}, t.Keys - Below(t, v) - {q[i]};
    PlaceBounds(t, q, i, left, right);
    DistinctLength(q);
    assert |t.Keys - Below(t, v)| == |t.Keys| - |Below(t, v)|;
    assert |right| == |t.Keys - Below(t, v)| - 1;
  }

  lemma {:induction false} PlaceDetermines(t: Table, x: Id, y: Id, k: int)
    requires MayStandAt(t, x, k) && MayStandAt(t, y, k)
    ensures t[x] == t[y]
  {
    if t[x] < t[y] {
      SubsetSize(NotAbove(t, t[x]), Below(t, t[y]));
    } else if t[y] < t[x] {
      SubsetSize(NotAbove(t, t[y]), Below(t, t[x]));
    }
  }

  function Exchanged(q: seq<Id>, i: nat, j: nat): seq<Id>
    requires i < |q| && j < |q|
  {
    q[i := q[j]][j := q[i]]
  }

  lemma {:induction false} TiedRowsMayExchange(t: Table, q: seq<Id>, i: nat, j: nat)
    requires IsOrdering(t, q) && i < |q| && j < |q| && q[i] in t && q[j] in t && t[q[i]] == t[q[j]]
    ensures IsOrdering(t, Exchanged(q, i, j))
  {
    ExchangedIds(q, i, j);
    var r := Exchanged(q, i, j);
    forall k | 0 <= k < |q| ensures SameValueAt(t, q, r, k) {
      assert q[k] in Ids(q) && r[k] in Ids(r);
    }
    SameValuesAreOrdered(t, q, r);
  }

  predicate SameValueAt(t: Table, q: seq<Id>, r: seq<Id>, k: nat)
    requires k < |q| && k < |r|
  {
    q[k] in t && r[k] in t && t[q[k]] == t[r[k]]
  }

  lemma {:induction false} SameValuesAreOrdered(t: Table, q: seq<Id>, r: seq<Id>)
    requires IsOrdering(t, q) && |r| == |q| && Distinct(r) && Ids(r) == t.Keys
    requires forall k :: 0 <= k < |q| ==> SameValueAt(t, q, r, k)
    ensures IsOrdering(t, r)
  {
    forall k, l | 0 <= k < l < |r| ensures r[k] in t && r[l] in t && t[r[k]] <= t[r[l]] {
      assert SameValueAt(t, q, r, k) && SameValueAt(t, q, r, l);
    }
  }

  lemma {:induction false} ExchangedIds(q: seq<Id>, i: nat, j: nat)
    requires Distinct(q) && i < |q| && j < |q|
    ensures Ids(Exchanged(q, i, j)) == Ids(q) && Distinct(Exchanged(q, i, j))
    ensures forall k :: 0 <= k < |q| ==>
              Exchanged(q, i, j)[k] == if k == i then q[j] else if k == j then q[i] else q[k]
  {
    var r := Exchanged(q, i, j);
    forall y | y in Ids(q) ensures y in Ids(r) {
      var k := PositionOf(q, y);
      assert r[if k == i then j else if k == j then i else k] == y;
    }
    forall y | y in Ids(r) ensures y in Ids(q) {
      var k := PositionOf(r, y);
      assert q[if k == i then j else if k == j then i else k] == y;
    }
  }

  lemma {:induction false} EveryPlaceIsTaken(t: Table, x: Id, k: int) returns (q: seq<Id>)
    requires MayStandAt(t, x, k)
    ensures IsOrdering(t, q) && 1 <= k <= |q| && q[k - 1] == x
  {
    var r := OrderingExists(t, t.Keys);
    DistinctLength(r);
    SubsetSize(NotAbove(t, t[x]), t.Keys);
    assert x in Ids(r) && r[k - 1] in Ids(r);
    var j := PositionOf(r, x);
    PlacesInOrdering(t, r, k - 1);
    PlaceDetermines(t, x, r[k - 1], k);
    TiedRowsMayExchange(t, r, j, k - 1);
    q := Exchanged(r, j, k - 1);
  }

  // Resequencing along any ordering meets no order held elsewhere.
  ghost predicate FreeUnderEveryTieBreak(e: Elsewhere, t: Table) {
    forall q :: IsOrdering(t, q) ==> FreeAlong(e, q)
  }

  lemma {:induction false} FreeUnderEveryTieBreakExactly(e: Elsewhere, t: Table)
    ensures FreeUnderEveryTieBreak(e, t) <==> forall x, k :: MayStandAt(t, x, k) ==> Free(e, x, k)
  {
    if FreeUnderEveryTieBreak(e, t) {
      forall x, k | MayStandAt(t, x, k) ensures Free(e, x, k) {
        var q := EveryPlaceIsTaken(t, x, k);
        assert Free(e, q[k - 1], k - 1 + 1);
      }
    }
    if forall x, k :: MayStandAt(t, x, k) ==> Free(e, x, k) {
      forall q | IsOrdering(t, q) ensures FreeAlong(e, q) {
        forall i | 0 <= i < |q| ensures Free(e, q[i], i + 1) {
          PlacesInOrdering(t, q, i);
        }
      }
    }
  }

  /**
   A move goes through under every tie-break exactly when no trigger holds elsewhere an order that the shifts
   give it, nor a place that the ties they leave may bring it to.
   */
  lemma {:induction false} MoveGoesThroughExactly(e: Elsewhere, t: Table, x: Id, d: int)
    requires x in t
    ensures (forall reply, after :: Outcome(e, t, Moved(t, x, d), reply, after) ==> reply == Done)
            <==> var m := Moved(t, x, d);
                 AllFree(e, m) && forall y, k :: MayStandAt(m, y, k) ==> Free(e, y, k)
  {
    var m := Moved(t, x, d);
    FreeUnderEveryTieBreakExactly(e, m);
    if !AllFree(e, m) || !FreeUnderEveryTieBreak(e, m) {
      SomeOrdering(m);
      var q :| IsOrdering(m, q) && (!AllFree(e, m) || !FreeAlong(e, q));
      assert OutcomeAlong(e, t, m, q, Aborted, t);
      assert Outcome(e, t, m, Aborted, t);
    }
  }

  /** A move that goes through makes of the table what its tie-break does; elsewhere only decides whether it does. */
  lemma {:induction false} MoveThatGoesThrough(e: Elsewhere, t: Table, x: Id, d: int, after: Table)
    requires x in t
    ensures Outcome(e, t, Moved(t, x, d), Done, after)
            <==> MayBecome(t, x, d, after) && AllFree(e, Moved(t, x, d)) && AllFree(e, after)
  {
    var m := Moved(t, x, d);
    if q :| IsOrdering(m, q) && OutcomeAlong(e, t, m, q, Done, after) {
      FreeRows(e, after, q);
    }
    if MayBecome(t, x, d, after) && AllFree(e, m) && AllFree(e, after) {
      var q :| IsOrdering(m, q) && Lists(after, q);
      FreeRows(e, after, q);
      assert OutcomeAlong(e, t, m, q, Done, after);
    }
  }

  // A tie-break that puts the moved trigger beside the position asked for.
  lemma {:induction false} Overshoots(t: Table, list: seq<Id>, p: int, d: int) returns (after: Table)
    requires Lists(t, list) && 1 <= p <= |list| && 1 <= d <= |list| && !LandsForSure(|list|, p, d) && list[p - 1] in t
    ensures MayBecome(t, list[p - 1], d, after) && !At(after, list[p - 1], d)
  {
    var at := if p < d then d + 1 else d - 1;
    MovedOrdering(t, list, p, d, at);
    after := ResultOf(Moved(t, list[p - 1], d), ListMove(list, p, at));
    assert ListMove(list, p, at)[at - 1] == list[p - 1];
    assert NumberedAt(after, ListMove(list, p, at), at - 1);
  }

  /** A moved trigger comes to the position asked for under every tie-break exactly when it moves to an end or stays. */
  lemma {:induction false} MoveLandsExactly(t: Table, list: seq<Id>, p: int, d: int)
    requires Lists(t, list) && 1 <= p <= |list| && 1 <= d <= |list|
    ensures var x := list[p - 1];
            LandsForSure(|list|, p, d) <==> forall after :: MayBecome(t, x, d, after) ==> At(after, x, d)
  {
    var x := list[p - 1];
    assert x in Ids(list);
    if LandsForSure(|list|, p, d) {
      forall after | MayBecome(t, x, d, after) ensures At(after, x, d) {
        MoveLandsWithinOne(t, list, p, d, after);
      }
    } else {
      var after := Overshoots(t, list, p, d);
    }
  }

  // A move by one place to an end of the list, or to where the trigger already is.
  predicate MovesForSure(n: nat, p: int, d: int) {
    d == p || (d == n && p == n - 1) || (d == 1 && p == 2)
  }

  function Swapped(q: seq<Id>, i: nat): seq<Id>
    requires i + 1 < |q|
  {
    q[i := q[i + 1]][i + 1 := q[i]]
  }

  lemma {:induction false} TiedNeighboursMaySwap(t: Table, q: seq<Id>, i: nat)
    requires IsOrdering(t, q) && i + 1 < |q| && t[q[i]] == t[q[i + 1]]
    ensures IsOrdering(t, Swapped(q, i))
  {
    var r := Swapped(q, i);
    assert forall k :: 0 <= k < |q| ==> r[k] == q[if k == i then i + 1 else if k == i + 1 then i else k];
    forall y ensures y in Ids(r) <==> y in Ids(q) {
      if y in Ids(q) {
        var k := PositionOf(q, y);
        assert r[if k == i then i + 1 else if k == i + 1 then i else k] == y;
      }
    }
  }

  lemma {:induction false} TieBreaksDiffer(t: Table, q: seq<Id>, i: nat) returns (after: Table)
    requires IsOrdering(t, q) && i + 1 < |q| && t[q[i]] == t[q[i + 1]]
    ensures Resequenced(t, after) && !Lists(after, q)
  {
    TiedNeighboursMaySwap(t, q, i);
    after := ResultOf(t, Swapped(q, i));
    assert NumberedAt(after, Swapped(q, i), i + 1);
    assert !NumberedAt(after, q, i);
  }

  lemma {:induction false} SureOrder(n: nat, p: int, d: int, i: int)
    requires 1 <= p <= n && 1 <= d <= n && MovesForSure(n, p, d) && 0 <= i < n
    ensures NewOrder(i, p, d, d) == i + 1
  {
  }

  lemma {:induction false} SureMoveAt(t: Table, list: seq<Id>, x: Id, p: int, d: int, i: nat)
    requires Numbers(t, list) && 1 <= p <= |list| && 1 <= d <= |list| && MovesForSure(|list|, p, d)
    requires x in t && x == list[p - 1] && i < |list|
    ensures NumberedAt(Moved(t, x, d), ListMove(list, p, d), i)
  {
    MovedValues(t, list, p, d, d, i);
    SureOrder(|list|, p, d, i);
  }

  lemma {:induction false} SureMoveNumbers(t: Table, list: seq<Id>, x: Id, p: int, d: int)
    requires Numbers(t, list) && 1 <= p <= |list| && 1 <= d <= |list| && MovesForSure(|list|, p, d)
    requires x in t && x == list[p - 1]
    ensures Numbers(Moved(t, x, d), ListMove(list, p, d))
  {
    var m, q := Moved(t, x, d), ListMove(list, p, d);
    forall i | 0 <= i < |q| ensures NumberedAt(m, q, i) {
      SureMoveAt(t, list, x, p, d, i);
    }
  }

  lemma {:induction false} SureMoves(t: Table, list: seq<Id>, p: int, d: int, after: Table)
    requires Lists(t, list) && 1 <= p <= |list| && 1 <= d <= |list| && MovesForSure(|list|, p, d)
    requires MayBecome(t, list[p - 1], d, after)
    ensures Lists(after, ListMove(list, p, d))
  {
    MovedIds(t, list, p, d);
    SureMoveNumbers(t, list, list[p - 1], p, d);
    TheOnlyListedResult(Moved(t, list[p - 1], d), ListMove(list, p, d), after);
  }

  // A tie-break that swaps two of the other triggers.
  lemma {:induction false} SwapsOthers(t: Table, list: seq<Id>, p: int, d: int) returns (after: Table)
    requires Lists(t, list) && 1 <= p <= |list| && 1 <= d <= |list| && list[p - 1] in t
    requires LandsForSure(|list|, p, d) && !MovesForSure(|list|, p, d)
    ensures MayBecome(t, list[p - 1], d, after) && !Lists(after, ListMove(list, p, d))
  {
    var m, q := Moved(t, list[p - 1], d), ListMove(list, p, d);
    var i := if d == 1 then 1 else d - 3;
    MovedOrdering(t, list, p, d, d);
    MovedValues(t, list, p, d, d, i);
    MovedValues(t, list, p, d, d, i + 1);
    after := TieBreaksDiffer(m, q, i);
  }

  lemma {:induction false} UnsureMoves(t: Table, list: seq<Id>, p: int, d: int) returns (after: Table)
    requires Lists(t, list) && 1 <= p <= |list| && 1 <= d <= |list| && !MovesForSure(|list|, p, d) && list[p - 1] in t
    ensures MayBecome(t, list[p - 1], d, after) && !Lists(after, ListMove(list, p, d))
  {
    if LandsForSure(|list|, p, d) {
      after := SwapsOthers(t, list, p, d);
    } else {
      after := Overshoots(t, list, p, d);
      assert ListMove(list, p, d)[d - 1] == list[p - 1];
      assert !NumberedAt(after, ListMove(list, p, d), d - 1);
    }
  }

  /** A move is the list move it asks for under every tie-break exactly when it goes one place to an end, or stays. */
  lemma {:induction false} MoveIsListMoveExactly(t: Table, list: seq<Id>, p: int, d: int)
    requires Lists(t, list) && 1 <= p <= |list| && 1 <= d <= |list|
    ensures var x, target := list[p - 1], ListMove(list, p, d);
            && (MovesForSure(|list|, p, d) <==> forall after :: MayBecome(t, x, d, after) ==> Lists(after, target))
            && exists after :: MayBecome(t, x, d, after) && Lists(after, target)
  {
    var x, target := list[p - 1], ListMove(list, p, d);
    assert x in Ids(list);
    MovedOrdering(t, list, p, d, d);
    var asAsked := ResultOf(Moved(t, x, d), target);
    assert MayBecome(t, x, d, asAsked);
    if MovesForSure(|list|, p, d) {
      forall after | MayBecome(t, x, d, after) ensures Lists(after, target) {
        SureMoves(t, list, p, d, after);
      }
    } else {
      var other := UnsureMoves(t, list, p, d);
    }
  }

  /** Of three triggers, the first sent to the second place may land third. */
  lemma {:induction false} MoveMayOvershoot()
    ensures var t := map["a" := 1, "b" := 2, "c" := 3];
            Lists(t, ["a", "b", "c"]) && exists after :: MayBecome(t, "a", 2, after) && At(after, "a", 3)
  {
    var t: Table := map["a" := 1, "b" := 2, "c" := 3];
    var list := ["a", "b", "c"];
    assert Ids(list) == t.Keys;
    MovedOrdering(t, list, 1, 2, 3);
    var after := ResultOf(Moved(t, "a", 2), ListMove(list, 1, 3));
    assert ListMove(list, 1, 3)[2] == "a";
    assert NumberedAt(after, ListMove(list, 1, 3), 2);
    assert MayBecome(t, "a", 2, after);
  }

  // ---------------------------------------------------------------- all pipelines together

  type Db = map<Id, Table>

  datatype Op =
    | AttachTo(p: Id, x: Id, sortOrder: Option<int>)
    | MoveIn(p: Id, x: Id, sortOrder: Option<int>)
    | DetachFrom(p: Id, x: Id)
    | ReorderIn(p: Id, order: seq<Id>)

  // The orders that triggers hold in pipelines other than p.
  function ElsewhereOf(db: Db, p: Id): Elsewhere {
    map x | x in AttachedAnywhere(db) :: OrdersElsewhere(db, p, x)
  }

  function AttachedAnywhere(db: Db): set<Id> {
    set q, x | q in db && x in db[q] :: x
  }

  function OrdersElsewhere(db: Db, p: Id, x: Id): set<int> {
    set q | q in db && q != p && x in db[q] :: db[q][x]
  }

  // The unique index: no trigger holds one order in two pipelines.
  predicate Indexed(db: Db) {
    forall p, q, x :: p in db && q in db && p != q && x in db[p] && x in db[q] ==> db[p][x] != db[q][x]
  }

  ghost predicate AllGapFree(db: Db) {
    forall p :: p in db ==> GapFree(db[p])
  }

  // What an operation may make of its pipeline's table.
  ghost predicate MayMake(e: Elsewhere, t: Table, op: Op, u: Table) {
    match op
    case AttachTo(_, x, sortOrder) =>
      if x in t then u == t else exists reply :: Outcome(e, t, Inserted(t, x, sortOrder), reply, u)
    case MoveIn(_, x, sortOrder) =>
      if x !in t then u == t else exists reply :: Outcome(e, t, MoveTarget(t, x, sortOrder), reply, u)
    case DetachFrom(_, x) =>
      if x !in t then u == t else exists reply :: Outcome(e, t, t - {x}, reply, u)
    case ReorderIn(_, order) =>
      u == if |order| == |t| && Ids(order) <= t.Keys && FreeAlong(e, order) then Reordered(t, order) else t
  }

  ghost predicate StepTo(db: Db, op: Op, next: Db) {
    op.p in db && exists u :: MayMake(ElsewhereOf(db, op.p), db[op.p], op, u) && next == db[op.p := u]
  }

  // The databases dbs[0], dbs[1], ... that a sequence of operations leads through.
  ghost predicate Runs(dbs: seq<Db>, ops: seq<Op>) {
    |dbs| == |ops| + 1 && forall i :: 0 <= i < |ops| ==> StepTo(dbs[i], ops[i], dbs[i + 1])
  }

  predicate RepeatsAnId(op: Op) {
    op.ReorderIn? && !Distinct(op.order)
  }

  lemma {:induction false} FreeIsIndexed(db: Db, p: Id, u: Table)
    requires Indexed(db) && p in db && AllFree(ElsewhereOf(db, p), u)
    ensures Indexed(db[p := u])
  {
    forall q, x | q in db && q != p && x in u && x in db[q] ensures u[x] != db[q][x] {
      assert x in AttachedAnywhere(db) && db[q][x] in OrdersElsewhere(db, p, x);
      assert Free(ElsewhereOf(db, p), x, u[x]);
    }
  }

  lemma {:induction false} IndexedIsFree(db: Db, p: Id)
    requires Indexed(db) && p in db
    ensures AllFree(ElsewhereOf(db, p), db[p])
  {
  }

  lemma {:induction false} OutcomeIsGood(e: Elsewhere, t: Table, target: Table, reply: Reply, u: Table)
    requires AllFree(e, t) && Outcome(e, t, target, reply, u)
    ensures AllFree(e, u) && (GapFree(t) ==> GapFree(u))
  {
    var q :| IsOrdering(target, q) && OutcomeAlong(e, t, target, q, reply, u);
    if reply == Done {
      FreeRows(e, u, q);
    }
  }

  lemma {:induction false} ReorderIsGood(e: Elsewhere, t: Table, order: seq<Id>)
    requires AllFree(e, t) && |order| == |t| && Ids(order) <= t.Keys && FreeAlong(e, order)
    ensures AllFree(e, Reordered(t, order)) && (Distinct(order) ==> GapFree(Reordered(t, order)))
  {
    var u := Reordered(t, order);
    ReorderExactly(t, order);
    forall x | x in u ensures Free(e, x, u[x]) {
      ReorderedAt(t, order, x);
      if x in order {
        assert Free(e, order[u[x] - 1], u[x] - 1 + 1);
      }
    }
  }

  lemma {:induction false} MadeIsGood(e: Elsewhere, t: Table, op: Op, u: Table)
    requires AllFree(e, t) && MayMake(e, t, op, u)
    ensures AllFree(e, u) && (GapFree(t) && !RepeatsAnId(op) ==> GapFree(u))
  {
    match op
    case AttachTo(_, x, sortOrder) =>
      if x !in t {
        var reply :| Outcome(e, t, Inserted(t, x, sortOrder), reply, u);
        OutcomeIsGood(e, t, Inserted(t, x, sortOrder), reply, u);
      }
    case MoveIn(_, x, sortOrder) =>
      if x in t {
        var reply :| Outcome(e, t, MoveTarget(t, x, sortOrder), reply, u);
        OutcomeIsGood(e, t, MoveTarget(t, x, sortOrder), reply, u);
      }
    case DetachFrom(_, x) =>
      if x in t {
        var reply :| Outcome(e, t, t - {x}, reply, u);
        OutcomeIsGood(e, t, t - {x}, reply, u);
      }
    case ReorderIn(_, order) =>
      if |order| == |t| && Ids(order) <= t.Keys && FreeAlong(e, order) {
        ReorderIsGood(e, t, order);
      }
  }

  lemma {:induction false} StepKeepsTheIndex(db: Db, op: Op, next: Db)
    requires Indexed(db) && StepTo(db, op, next)
    ensures Indexed(next) && (AllGapFree(db) && !RepeatsAnId(op) ==> AllGapFree(next))
  {
    var u :| MayMake(ElsewhereOf(db, op.p), db[op.p], op, u) && next == db[op.p := u];
    IndexedIsFree(db, op.p);
    MadeIsGood(ElsewhereOf(db, op.p), db[op.p], op, u);
    FreeIsIndexed(db, op.p, u);
  }

  /**
   In every run of operations on any pipelines no trigger ever holds one order in two of them, and each
   pipeline's triggers stay numbered from 1 without gap or tie, as long as no reorder repeats an id.
   */
  lemma {:induction false} EveryRunKeepsTheIndex(dbs: seq<Db>, ops: seq<Op>, i: nat)
    requires Runs(dbs, ops) && i < |dbs| && Indexed(dbs[0]) && AllGapFree(dbs[0])
    ensures Indexed(dbs[i])
    ensures (forall j :: 0 <= j < i ==> !RepeatsAnId(ops[j])) ==> AllGapFree(dbs[i])
    decreases i
  {
    if i > 0 {
      var k := i - 1;
      EveryRunKeepsTheIndex(dbs, ops, k);
      assert StepTo(dbs[k], ops[k], dbs[k + 1]);
      StepKeepsTheIndex(dbs[k], ops[k], dbs[i]);
    }
  }
}
