/**
 The steps of one pipeline and their sort orders. A unique index on pipeline and sort order checks every
 single write as it runs: one that would give two steps the same order aborts its whole transaction.
 */
module PipelineSteps {
  import opened Wrappers
  import opened Orderings

  datatype Reply = Done | NotFound | InvalidOrder | Aborted

  datatype Op =
    | Insert(x: Id, sortOrder: Option<int>)
    | Move(x: Id, sortOrder: Option<int>)
    | Delete(x: Id)
    | Reorder(order: seq<Id>)

  // Another step holds this order.
  predicate Held(t: Table, x: Id, v: int) {
    exists y :: y in t && y != x && t[y] == v
  }

  predicate Spread(t: Table) {
    && (forall x :: x in t ==> t[x] >= 1)
    && (forall x, y :: x in t && y in t && x != y ==> t[x] != t[y])
  }

  // ---------------------------------------------------------------- what each call comes to

  // Whether an insertion gets past the index: it may shift no step but the last.
  predicate Fits(n: nat, sortOrder: Option<int>) {
    sortOrder.Some? ==> InsertAt(n, sortOrder) >= n
  }

  // Whether x, in a list of its pipeline's steps, is already where a move would put it.
  predicate IsThere(list: seq<Id>, x: Id, sortOrder: Option<int>) {
    sortOrder.Some? && list != [] ==> list[Clamp(sortOrder.value, 1, |list|) - 1] == x
  }

  function IndexOf(list: seq<Id>, x: Id): (i: nat)
    requires x in list
    ensures i < |list| && list[i] == x
  {
    if list[0] == x then 0 else 1 + IndexOf(list[1..], x)
  }

  // The list of steps after a call, and the reply.
  function Answer(list: seq<Id>, op: Op): (seq<Id>, Reply) {
    match op
    case Insert(x, sortOrder) =>
      if x in list || !Fits(|list|, sortOrder) then (list, Aborted)
      else (Placed(list, x, InsertAt(|list|, sortOrder)), Done)
    case Move(x, sortOrder) =>
      if x !in list then (list, NotFound)
      else (list, if IsThere(list, x, sortOrder) then Done else Aborted)
    case Delete(x) =>
      if x !in list then (list, NotFound) else (Without(list, IndexOf(list, x)), Done)
    case Reorder(order) =>
      if list == [] then (list, NotFound)
      else if |order| != |list| || !(Ids(order) <= Ids(list)) then (list, InvalidOrder)
      else (list, if order == list then Done else Aborted)
  }

  /**
   An insertion goes through exactly without a number, with one that is at least that of the last step, or
   where there are no two steps yet; a move exactly without a number or when the step already is where it is
   asked to go, which is first for any number up to 1 and last for any beyond the end.
   */
  lemma {:induction false} AnswersExactly(list: seq<Id>, x: Id, sortOrder: Option<int>)
    ensures x !in list && (sortOrder.None? || sortOrder.value >= |list| || |list| <= 1) ==>
              Answer(list, Insert(x, sortOrder)) == (InsertedList(list, x, sortOrder), Done)
    ensures x in list || (sortOrder.Some? && sortOrder.value < |list| && |list| > 1) ==>
              Answer(list, Insert(x, sortOrder)) == (list, Aborted)
    ensures x in list ==>
              var there := match sortOrder
                           case None => true
                           case Some(o) =>
                             if o <= 1 then list[0] == x
                             else if o >= |list| then list[|list| - 1] == x
                             else list[o - 1] == x;
              Answer(list, Move(x, sortOrder)) == (list, if there then Done else Aborted)
  {
    PlacedWhereAsked(list, x, sortOrder);
  }

  /**
   A reordering is invalid exactly if it has another length or names an unknown step; only the order as it is
   goes through.
   */
  lemma {:induction false} ReorderAnswersExactly(list: seq<Id>, order: seq<Id>)
    requires list != []
    ensures Answer(list, Reorder(order)).0 == list
    ensures Answer(list, Reorder(order)).1 == InvalidOrder <==>
            |order| != |list| || exists i :: 0 <= i < |order| && order[i] !in list
    ensures Answer(list, Reorder(order)).1 == Done <==> order == list
    ensures Answer(list, Reorder(order)).1 in {Done, InvalidOrder, Aborted}
  {
    assert forall i :: 0 <= i < |list| ==> list[i] in Ids(list);
    assert forall i :: 0 <= i < |order| ==> order[i] in Ids(order);
  }

  // ---------------------------------------------------------------- the transactions

  class Steps {
    var rows: map<Id, int>
    // The steps in their order.
    ghost var list: seq<Id>

    // The orders are 1 to n, each held by one step.
    ghost predicate Valid()
      reads this
    {
      Lists(rows, list)
    }

    constructor ()
      ensures Valid() && list == []
    {
      rows, list := map[], [];
    }

    // One row's update or insert, as the index lets it through or not.
    method Write(x: Id, v: int) returns (ok: bool)
      modifies this`rows
      ensures ok <==> !Held(old(rows), x, v)
      ensures rows == if ok then old(rows)[x := v] else old(rows)
    {
      if exists y :: y in rows && y != x && rows[y] == v {
        return false;
      }
      rows := rows[x := v];
      ok := true;
    }

    method Resequence()
      requires Spread(rows)
      modifies this`rows
      ensures Resequenced(old(rows), rows)
    {
      var q := Ascending(rows);
      OrdersAreHighEnough(rows, q);
      ghost var u := ResultOf(rows, q);
      NothingWritten(q, rows, u);
      var desired := 1;
      for i := 0 to |q|
        invariant desired == i + 1 && HalfWay(q, i, rows, old(rows), u)
      {
        OneMoreWritten(q, i, rows, old(rows), u);
        assert NumberedAt(u, q, i);
        if rows[q[i]] != desired {
          NoneAhead(old(rows), rows, u, q, i);
          var ok := Write(q[i], desired);
          assert ok;
        }
        desired := desired + 1;
      }
      AllWritten(q, rows, old(rows), u);
    }

    // The shifts before an insertion at `desired`.
    method OpenGap(desired: int) returns (ok: bool)
      requires Valid() && 1 <= desired <= |list| + 1
      modifies this`rows
      ensures ok <==> desired >= |list|
      ensures ok ==> rows == ShiftedUp(old(rows), desired)
    {
      var existing := Ascending(rows);
      TheOnlyOrdering(rows, existing, list);
      ShiftAtEnd(rows, list);
      for i := 0 to |existing|
        invariant i < desired ==> rows == old(rows)
        invariant i >= desired ==> desired == |existing| && rows == ShiftedUp(old(rows), desired)
      {
        assert NumberedAt(old(rows), list, i);
        if rows[existing[i]] >= desired {
          HeldExactly(rows, list, existing[i], desired + 1);
          ok := Write(existing[i], desired + 1);
          if !ok { return; }
        }
      }
      ok := true;
    }

    method InsertStep(x: Id, sortOrder: Option<int>) returns (reply: Reply)
      requires Valid()
      modifies this
      ensures Valid() && (list, reply) == Answer(old(list), Insert(x, sortOrder))
    {
      assert x in rows <==> x in Ids(list);
      if x in rows { return Aborted; }
      var saved := rows;
      ListedLength(rows, list);
      var n := |rows|;
      var desired := Clamp(if sortOrder.Some? then sortOrder.value else n + 1, 1, n + 1);
      if sortOrder.Some? {
        var ok := OpenGap(desired);
        if !ok {
          rows := saved;
          return Aborted;
        }
      }
      InsertedIds(saved, list, x, sortOrder, desired);
      InsertedNumbers(saved, list, x, sortOrder, desired);
      HeldExactly(Inserted(saved, x, sortOrder), Placed(list, x, desired), x, desired);
      HeldByOthers(rows, x, desired);
      var ok := Write(x, desired);
      assert ok;
      list := Placed(list, x, desired);
      StayResequenced();
      reply := Done;
    }

    // Resequencing orders that are 1 to n already.
    method StayResequenced()
      requires Valid()
      modifies this`rows
      ensures Valid() && rows == old(rows)
    {
      ListedIsSpread(rows, list);
      Resequence();
      TheOnlyListedResult(old(rows), list, rows);
      ListsOneTable(old(rows), rows, list);
    }

    // The shifts before a move of x to `desired`, and the move.
    method MakeRoom(x: Id, desired: int) returns (ok: bool)
      requires Valid() && x in rows && 1 <= desired <= |list|
      modifies this`rows
      ensures ok <==> list[desired - 1] == x
      ensures ok ==> rows == old(rows)
    {
      var from := rows[x];
      var steps := Ascending(rows);
      TheOnlyOrdering(rows, steps, list);
      PositionsInRange(rows, list, x);
      for i := 0 to |steps|
        invariant rows == old(rows)
        invariant from < desired ==> i < desired
        invariant from > desired ==> i == 0
      {
        var step := steps[i];
        assert NumberedAt(rows, list, i);
        if step == x { continue; }
        var newOrder := rows[step];
        if rows[step] >= desired && from < desired {
          newOrder := rows[step] - 1;
        } else if rows[step] <= desired && from > desired {
          newOrder := rows[step] + 1;
        }
        if newOrder != rows[step] {
          HeldExactly(rows, list, step, newOrder);
          ok := Write(step, newOrder);
          if !ok { return; }
        }
      }
      HeldExactly(rows, list, x, desired);
      ok := Write(x, desired);
    }

    method MoveStep(x: Id, sortOrder: Option<int>) returns (reply: Reply)
      requires Valid()
      modifies this`rows
      ensures Valid() && (list, reply) == Answer(old(list), Move(x, sortOrder))
    {
      assert x in rows <==> x in Ids(list);
      if x !in rows { return NotFound; }
      var saved := rows;
      ListedLength(rows, list);
      if sortOrder.Some? {
        var ok := MakeRoom(x, Clamp(sortOrder.value, 1, |rows|));
        if !ok {
          rows := saved;
          return Aborted;
        }
      }
      StayResequenced();
      reply := Done;
    }

    method DeleteStep(x: Id) returns (reply: Reply)
      requires Valid()
      modifies this
      ensures Valid() && (list, reply) == Answer(old(list), Delete(x))
    {
      assert x in rows <==> x in Ids(list);
      if x !in rows { return NotFound; }
      ListedIsSpread(rows, list);
      rows := rows - {x};
      Resequence();
      DeleteIsListRemoval(old(rows), list, IndexOf(list, x), rows);
      list := Without(list, IndexOf(list, x));
      reply := Done;
    }

    method ReorderSteps(order: seq<Id>) returns (reply: Reply)
      requires Valid()
      modifies this`rows
      ensures Valid() && (list, reply) == Answer(old(list), Reorder(order))
    {
      ListedLength(rows, list);
      if |rows| == 0 { return NotFound; }
      if |order| != |rows| { return InvalidOrder; }
      for i := 0 to |order|
        invariant rows == old(rows) && Ids(order[..i]) <= rows.Keys
      {
        if order[i] !in rows {
          assert order[i] in Ids(order);
          return InvalidOrder;
        }
        assert Ids(order[..i + 1]) == Ids(order[..i]) + {order[i]};
      }
      assert order[..|order|] == order;
      var saved := rows;
      var idx := 1;
      for i := 0 to |order|
        invariant idx == i + 1
        invariant rows == saved && order[..i] == list[..i]
      {
        HeldExactly(rows, list, order[i], idx);
        assert NumberedAt(rows, list, i);
        var ok := Write(order[i], idx);
        if !ok {
          rows := saved;
          return Aborted;
        }
        idx := idx + 1;
      }
      reply := Done;
    }
  }

  // ---------------------------------------------------------------- which writes the index lets through

  lemma {:induction false} TheOnlyOrdering(t: Table, q: seq<Id>, list: seq<Id>)
    requires IsOrdering(t, q) && Lists(t, list)
    ensures q == list
  {
    ListedIsOrdered(t, list);
    StrictOrderingIsTheOnlyOne(t, q, list);
  }

  lemma {:induction false} ListedLength(t: Table, list: seq<Id>)
    requires Lists(t, list)
    ensures |t| == |list|
  {
    ListedIsOrdered(t, list);
    DistinctLength(list);
    assert |t| == |t.Keys|;
  }

  lemma {:induction false} ListedIsSpread(t: Table, list: seq<Id>)
    requires Lists(t, list)
    ensures Spread(t)
  {
    forall x, y | x in t && y in t ensures t[x] >= 1 && (x != y ==> t[x] != t[y]) {
      PositionsInRange(t, list, x);
      PositionsInRange(t, list, y);
    }
  }

  /** Where the orders are 1 to n, a write is refused exactly when it names the place of another step. */
  lemma {:induction false} HeldExactly(t: Table, list: seq<Id>, x: Id, v: int)
    requires Lists(t, list)
    ensures Held(t, x, v) <==> 1 <= v <= |list| && list[v - 1] != x
  {
    if y :| y in t && y != x && t[y] == v {
      PositionsInRange(t, list, y);
    }
    if 1 <= v <= |list| && list[v - 1] != x {
      assert NumberedAt(t, list, v - 1);
      assert list[v - 1] in t;
    }
  }

  lemma {:induction false} HeldByOthers(t: Table, x: Id, v: int)
    ensures Held(t[x := v], x, v) <==> Held(t, x, v)
  {
    if y :| y in t && y != x && t[y] == v {
      assert t[x := v][y] == v;
    }
  }

  // In ascending order, distinct positive orders are at least 1, 2, 3 and so on.
  lemma {:induction false} HighEnough(t: Table, q: seq<Id>, k: nat)
    requires Spread(t) && Ids(q) == t.Keys && Ascends(t, q) && k < |q|
    ensures q[k] in t && t[q[k]] >= k + 1
    decreases k
  {
    assert q[k] in Ids(q);
    if k > 0 { HighEnough(t, q, k - 1); }
  }

  lemma {:induction false} OrdersAreHighEnough(t: Table, q: seq<Id>)
    requires Spread(t) && IsOrdering(t, q)
    ensures Ascends(t, q) && forall k :: 0 <= k < |q| ==> q[k] in t && t[q[k]] >= k + 1
  {
    forall i, j | 0 <= i < j < |q| ensures q[i] in t && q[j] in t && t[q[i]] < t[q[j]] {
      assert q[i] in Ids(q) && q[j] in Ids(q);
    }
    forall k | 0 <= k < |q| ensures q[k] in t && t[q[k]] >= k + 1 {
      HighEnough(t, q, k);
    }
  }

  // Half-way through resequencing, with i rows done, the next order is free.
  lemma {:induction false} NoneAhead(before: Table, t: Table, u: Table, q: seq<Id>, i: nat)
    requires HalfWay(q, i, t, before, u) && Lists(u, q) && Ascends(before, q) && i < |q|
    requires forall k :: 0 <= k < |q| ==> q[k] in before && before[q[k]] >= k + 1
    ensures !Held(t, q[i], i + 1)
  {
    forall y | y in t && y != q[i] ensures t[y] != i + 1 {
      var k := PositionOf(q, y);
      assert NumberedAt(u, q, k);
    }
  }

  // Shifting from the end on moves the last row only, and from beyond it none.
  lemma {:induction false} ShiftAtEnd(t: Table, list: seq<Id>)
    requires Lists(t, list)
    ensures ShiftedUp(t, |list| + 1) == t
    ensures list != [] ==> ShiftedUp(t, |list|) == t[list[|list| - 1] := |list| + 1]
  {
    forall x | x in t ensures 1 <= t[x] <= |list| && (t[x] == |list| ==> x == list[|list| - 1]) {
      PositionsInRange(t, list, x);
    }
    if list != [] {
      assert NumberedAt(t, list, |list| - 1);
    }
  }

  // ---------------------------------------------------------------- over whole runs

  function Run(list: seq<Id>, ops: seq<Op>): seq<Id>
    decreases |ops|
  {
    if ops == [] then list else Run(Answer(list, ops[0]).0, ops[1..])
  }

  // x is a step throughout the run.
  predicate Stays(list: seq<Id>, ops: seq<Op>, x: Id)
    decreases |ops|
  {
    x in list && (ops == [] || Stays(Answer(list, ops[0]).0, ops[1..], x))
  }

  predicate Before(list: seq<Id>, x: Id, y: Id) {
    exists i, j :: 0 <= i < j < |list| && list[i] == x && list[j] == y
  }

  lemma {:induction false} AnswerKeepsOrder(list: seq<Id>, op: Op)
    requires Distinct(list)
    ensures var (after, reply) := Answer(list, op);
            && Distinct(after)
            && (reply != Done ==> after == list)
            && forall x, y :: Before(list, x, y) && x in after && y in after ==> Before(after, x, y)
  {
    var (after, _) := Answer(list, op);
    match op
    case Insert(x, sortOrder) =>
      if after != list {
        PlacedDistinct(list, x, InsertAt(|list|, sortOrder));
        PlacedKeepsOrder(list, x, InsertAt(|list|, sortOrder));
      }
    case Delete(x) =>
      if after != list {
        RemovedIds(list, IndexOf(list, x));
        RemovedKeepsOrder(list, IndexOf(list, x));
      }
    case _ =>
  }

  lemma {:induction false} PlacedKeepsOrder(list: seq<Id>, x: Id, at: int)
    requires 1 <= at <= |list| + 1
    ensures forall y, z :: Before(list, y, z) ==> Before(Placed(list, x, at), y, z)
  {
    forall y, z | Before(list, y, z) ensures Before(Placed(list, x, at), y, z) {
      var i, j :| 0 <= i < j < |list| && list[i] == y && list[j] == z;
      var q := Placed(list, x, at);
      assert q[if i < at - 1 then i else i + 1] == y && q[if j < at - 1 then j else j + 1] == z;
    }
  }

  lemma {:induction false} RemovedKeepsOrder(list: seq<Id>, p: nat)
    requires Distinct(list) && p < |list|
    ensures forall y, z :: Before(list, y, z) && y != list[p] && z != list[p] ==> Before(Without(list, p), y, z)
  {
    forall y, z | Before(list, y, z) && y != list[p] && z != list[p] ensures Before(Without(list, p), y, z) {
      var i, j :| 0 <= i < j < |list| && list[i] == y && list[j] == z;
      var q := Without(list, p);
      assert q[if i < p then i else i - 1] == y && q[if j < p then j else j - 1] == z;
    }
  }

  /** In every run the steps are distinct, and no call changes the order of two steps that stay. */
  lemma {:induction false} NoCallReordersSteps(list: seq<Id>, ops: seq<Op>, x: Id, y: Id)
    requires Distinct(list)
    ensures Distinct(Run(list, ops))
    ensures Before(list, x, y) && Stays(list, ops, x) && Stays(list, ops, y) ==> Before(Run(list, ops), x, y)
    decreases |ops|
  {
    if ops != [] {
      AnswerKeepsOrder(list, ops[0]);
      NoCallReordersSteps(Answer(list, ops[0]).0, ops[1..], x, y);
    }
  }

  /** Of three steps, none can be sent anywhere, none put before the third, and no other order asked for. */
  lemma {:induction false} ThreeStepsStayPut()
    ensures var list := ["a", "b", "c"];
            && Answer(list, Move("a", Some(2))) == (list, Aborted)
            && Answer(list, Insert("d", Some(2))) == (list, Aborted)
            && Answer(list, Reorder(["b", "a", "c"])) == (list, Aborted)
  {
    assert Ids(["b", "a", "c"]) == Ids(["a", "b", "c"]);
  }
}
