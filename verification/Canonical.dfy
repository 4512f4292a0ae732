/**
 Recorded states as JSON trees whose objects keep the order of their keys, and the deep key sort under
 the hash of a history row. `JSON.stringify` is injective on such trees, so a tree stands for its text.
 */
module Canonical {

  datatype Tree =
    | Null
    | Bool(b: bool)
    | Num(n: int)
    | Text(s: string)
    | List(items: seq<Tree>)
    | Object(fields: seq<(string, Tree)>)

  // An object has each key once.
  predicate WellFormed(t: Tree) {
    match t
    case List(items) => forall i :: 0 <= i < |items| ==> WellFormed(items[i])
    case Object(fields) =>
      && DistinctKeys(fields)
      && forall i :: 0 <= i < |fields| ==> WellFormed(fields[i].1)
    case _ => true
  }

  predicate DistinctKeys(fields: seq<(string, Tree)>) {
    forall i, j :: 0 <= i < j < |fields| ==> fields[i].0 != fields[j].0
  }

  // Strings in code-unit order.
  predicate Less(a: string, b: string) {
    b != [] && (a == [] || a[0] < b[0] || (a[0] == b[0] && Less(a[1..], b[1..])))
  }

  lemma {:induction false} LessIsTotal(a: string, b: string)
    ensures Less(a, b) || a == b || Less(b, a)
    ensures !(Less(a, b) && Less(b, a)) && !Less(a, a)
    decreases |a|
  {
    if a != [] {
      LessIsTotal(a[1..], a[1..]);
      if b != [] {
        LessIsTotal(a[1..], b[1..]);
        assert a == [a[0]] + a[1..] && b == [b[0]] + b[1..];
      }
    }
  }

  lemma {:induction false} LessIsTransitive(a: string, b: string, c: string)
    requires Less(a, b) && Less(b, c)
    ensures Less(a, c)
    decreases |a|
  {
    if a != [] && a[0] == b[0] && b[0] == c[0] {
      LessIsTransitive(a[1..], b[1..], c[1..]);
    }
  }

  function Insert(f: (string, Tree), fs: seq<(string, Tree)>): (r: seq<(string, Tree)>)
    ensures multiset(r) == multiset(fs) + multiset{f}
  {
    if fs == [] then [f]
    else if Less(fs[0].0, f.0) then
      assert fs == [fs[0]] + fs[1..];
      [fs[0]] + Insert(f, fs[1..])
    else [f] + fs
  }

  function SortFields(fs: seq<(string, Tree)>): (r: seq<(string, Tree)>)
    ensures multiset(r) == multiset(fs)
  {
    if fs == [] then [] else
    assert fs == [fs[0]] + fs[1..];
    Insert(fs[0], SortFields(fs[1..]))
  }

  /** Every object's keys put in order, from the inside out; arrays keep their order. */
  function DeepSort(t: Tree): Tree {
    match t
    case List(items) => List(seq(|items|, i requires 0 <= i < |items| => DeepSort(items[i])))
    case Object(fields) =>
      Object(SortFields(seq(|fields|, i requires 0 <= i < |fields| => (fields[i].0, DeepSort(fields[i].1)))))
    case _ => t
  }

  function SortedInside(fields: seq<(string, Tree)>): seq<(string, Tree)> {
    seq(|fields|, i requires 0 <= i < |fields| => (fields[i].0, DeepSort(fields[i].1)))
  }

  lemma {:induction false} DeepSortOfObject(fields: seq<(string, Tree)>)
    ensures DeepSort(Object(fields)) == Object(SortFields(SortedInside(fields)))
  {
    assert seq(|fields|, i requires 0 <= i < |fields| => (fields[i].0, DeepSort(fields[i].1))) == SortedInside(fields);
  }

  function Keys(fields: seq<(string, Tree)>): set<string> {
    set i | 0 <= i < |fields| :: fields[i].0
  }

  // The same JSON value, whatever the order of keys.
  ghost predicate Same(t: Tree, u: Tree) {
    match (t, u)
    case (List(a), List(b)) => |a| == |b| && forall i :: 0 <= i < |a| ==> Same(a[i], b[i])
    case (Object(a), Object(b)) =>
      && Keys(a) == Keys(b)
      && forall i, j :: 0 <= i < |a| && 0 <= j < |b| && a[i].0 == b[j].0 ==> Same(a[i].1, b[j].1)
    case _ => t == u
  }

  // ---------------------------------------------------------------- sorted field lists

  predicate Ascending(fs: seq<(string, Tree)>) {
    forall i, j :: 0 <= i < j < |fs| ==> Less(fs[i].0, fs[j].0)
  }

  lemma {:induction false} InsertAscends(f: (string, Tree), fs: seq<(string, Tree)>)
    requires Ascending(fs) && forall x :: x in fs ==> x.0 != f.0
    ensures Ascending(Insert(f, fs))
    decreases |fs|
  {
    if fs != [] {
      LessIsTotal(fs[0].0, f.0);
      if Less(fs[0].0, f.0) {
        InsertAscends(f, fs[1..]);
        var r := Insert(f, fs[1..]);
        forall x | x in r
          ensures Less(fs[0].0, x.0)
        {
          assert x in multiset(r);
          assert x == f || x in fs[1..];
        }
        assert forall j :: 0 <= j < |r| ==> r[j] in r;
      } else {
        forall j | 0 <= j < |fs|
          ensures Less(f.0, fs[j].0)
        {
          if j > 0 {
            LessIsTransitive(f.0, fs[0].0, fs[j].0);
          }
        }
      }
    }
  }

  lemma {:induction false} SortAscends(fs: seq<(string, Tree)>)
    requires DistinctKeys(fs)
    ensures Ascending(SortFields(fs))
    decreases |fs|
  {
    if fs != [] {
      SortAscends(fs[1..]);
      var r := SortFields(fs[1..]);
      forall x | x in r
        ensures x.0 != fs[0].0
      {
        assert x in multiset(r);
        assert x in fs[1..];
      }
      InsertAscends(fs[0], r);
    }
  }

  // A list in ascending order is determined by its members.
  lemma {:induction false} AscendingIsUnique(fs: seq<(string, Tree)>, gs: seq<(string, Tree)>)
    requires Ascending(fs) && Ascending(gs)
    requires forall x :: x in fs <==> x in gs
    ensures fs == gs
    decreases |fs|
  {
    assert fs != [] ==> fs[0] in gs;
    assert gs != [] ==> gs[0] in fs;
    if fs != [] {
      LessIsTotal(fs[0].0, gs[0].0);
      assert fs[0] == gs[0];
      forall x
        ensures x in fs[1..] <==> x in gs[1..]
      {
        TailMembers(fs, x);
        TailMembers(gs, x);
      }
      AscendingIsUnique(fs[1..], gs[1..]);
      assert fs == [fs[0]] + fs[1..] && gs == [gs[0]] + gs[1..];
    }
  }

  lemma {:induction false} TailMembers(fs: seq<(string, Tree)>, x: (string, Tree))
    requires Ascending(fs) && fs != []
    ensures x in fs[1..] <==> x in fs && x != fs[0]
  {
    LessIsTotal(fs[0].0, fs[0].0);
    assert fs == [fs[0]] + fs[1..];
  }

  // ---------------------------------------------------------------- the canonical text decides the value

  predicate SortAlike(t: Tree, u: Tree) {
    DeepSort(t) == DeepSort(u)
  }

  // The same keys, with values that sort alike.
  ghost predicate FieldsAlike(a: seq<(string, Tree)>, b: seq<(string, Tree)>) {
    && Keys(a) == Keys(b)
    && forall i, j :: 0 <= i < |a| && 0 <= j < |b| && a[i].0 == b[j].0 ==> SortAlike(a[i].1, b[j].1)
  }

  lemma {:induction false} SameMembersSortAlike(fs: seq<(string, Tree)>, gs: seq<(string, Tree)>)
    requires DistinctKeys(fs) && DistinctKeys(gs) && forall x :: x in fs <==> x in gs
    ensures SortFields(fs) == SortFields(gs)
  {
    SortAscends(fs);
    SortAscends(gs);
    forall x
      ensures x in SortFields(fs) <==> x in SortFields(gs)
    {
      assert x in SortFields(fs) <==> x in multiset(SortFields(fs)) <==> x in multiset(fs) <==> x in fs;
      assert x in SortFields(gs) <==> x in multiset(SortFields(gs)) <==> x in multiset(gs) <==> x in gs;
    }
    AscendingIsUnique(SortFields(fs), SortFields(gs));
  }

  lemma {:induction false} AlikeMembers(a: seq<(string, Tree)>, b: seq<(string, Tree)>)
    requires FieldsAlike(a, b)
    ensures forall x :: x in SortedInside(a) ==> x in SortedInside(b)
  {
    forall x | x in SortedInside(a)
      ensures x in SortedInside(b)
    {
      var i :| 0 <= i < |a| && x == (a[i].0, DeepSort(a[i].1));
      assert a[i].0 in Keys(b);
      var j :| 0 <= j < |b| && a[i].0 == b[j].0;
      assert SortAlike(a[i].1, b[j].1);
      assert SortedInside(b)[j] == x;
    }
  }

  lemma {:induction false} AlikeObjectsSortAlike(a: seq<(string, Tree)>, b: seq<(string, Tree)>)
    requires DistinctKeys(a) && DistinctKeys(b) && FieldsAlike(a, b)
    ensures DeepSort(Object(a)) == DeepSort(Object(b))
  {
    DeepSortOfObject(a);
    DeepSortOfObject(b);
    AlikeMembers(a, b);
    AlikeMembers(b, a);
    SameMembersSortAlike(SortedInside(a), SortedInside(b));
  }

  lemma {:induction false} SortedFieldFound(a: seq<(string, Tree)>, b: seq<(string, Tree)>, i: nat) returns (j: nat)
    requires DeepSort(Object(a)) == DeepSort(Object(b)) && i < |a|
    ensures j < |b| && a[i].0 == b[j].0 && SortAlike(a[i].1, b[j].1)
  {
    DeepSortOfObject(a);
    DeepSortOfObject(b);
    assert multiset(SortedInside(a)) == multiset(SortedInside(b));
    var x := SortedInside(a)[i];
    assert x in multiset(SortedInside(a));
    assert x in SortedInside(b);
    j :| 0 <= j < |b| && SortedInside(b)[j] == x;
  }

  lemma {:induction false} SortedObjectsAreAlike(a: seq<(string, Tree)>, b: seq<(string, Tree)>)
    requires DistinctKeys(b) && DeepSort(Object(a)) == DeepSort(Object(b))
    ensures FieldsAlike(a, b)
  {
    forall i, j | 0 <= i < |a| && 0 <= j < |b| && a[i].0 == b[j].0
      ensures SortAlike(a[i].1, b[j].1)
    {
      var k := SortedFieldFound(a, b, i);
      assert k == j;
    }
    forall key
      ensures key in Keys(a) <==> key in Keys(b)
    {
      if key in Keys(a) {
        var i: nat :| i < |a| && a[i].0 == key;
        var j := SortedFieldFound(a, b, i);
      }
      if key in Keys(b) {
        var j: nat :| j < |b| && b[j].0 == key;
        var i := SortedFieldFound(b, a, j);
      }
    }
  }

  lemma {:induction false} SameSortsAlike(t: Tree, u: Tree)
    requires WellFormed(t) && WellFormed(u) && Same(t, u)
    ensures DeepSort(t) == DeepSort(u)
    decreases t
  {
    if t.List? {
      forall i | 0 <= i < |t.items|
        ensures DeepSort(t.items[i]) == DeepSort(u.items[i])
      {
        SameSortsAlike(t.items[i], u.items[i]);
      }
    } else if t.Object? {
      var a, b := t.fields, u.fields;
      forall i, j | 0 <= i < |a| && 0 <= j < |b| && a[i].0 == b[j].0
        ensures SortAlike(a[i].1, b[j].1)
      {
        SameSortsAlike(a[i].1, b[j].1);
      }
      AlikeObjectsSortAlike(a, b);
    }
  }

  lemma {:induction false} AlikeSortsAreSame(t: Tree, u: Tree)
    requires WellFormed(t) && WellFormed(u) && DeepSort(t) == DeepSort(u)
    ensures Same(t, u)
    decreases t
  {
    if t.List? {
      forall i | 0 <= i < |t.items|
        ensures Same(t.items[i], u.items[i])
      {
        assert DeepSort(t).items[i] == DeepSort(u).items[i];
        AlikeSortsAreSame(t.items[i], u.items[i]);
      }
    } else if t.Object? {
      var a, b := t.fields, u.fields;
      SortedObjectsAreAlike(a, b);
      forall i, j | 0 <= i < |a| && 0 <= j < |b| && a[i].0 == b[j].0
        ensures Same(a[i].1, b[j].1)
      {
        assert SortAlike(a[i].1, b[j].1);
        AlikeSortsAreSame(a[i].1, b[j].1);
      }
    }
  }

  lemma {:induction false} SortedTreesExactly(t: Tree, u: Tree)
    requires WellFormed(t) && WellFormed(u)
    ensures DeepSort(t) == DeepSort(u) <==> Same(t, u)
  {
    if DeepSort(t) == DeepSort(u) {
      AlikeSortsAreSame(t, u);
    } else if Same(t, u) {
      SameSortsAlike(t, u);
    }
  }

  // ---------------------------------------------------------------- the canonical text

  // Copying a field of this name sets the copy's prototype, if anything, and makes no field.
  const PROTO := "__proto__"

  function Kept(fields: seq<(string, Tree)>): (r: seq<(string, Tree)>)
    ensures forall f :: f in r <==> f in fields && f.0 != PROTO
  {
    if fields == [] then [] else
    var n := |fields| - 1;
    assert fields == fields[..n] + [fields[n]];
    Kept(fields[..n]) + if fields[n].0 == PROTO then [] else [fields[n]]
  }

  // What of a state is copied into the sorted one.
  function Strip(t: Tree): Tree {
    match t
    case List(items) => List(seq(|items|, i requires 0 <= i < |items| => Strip(items[i])))
    case Object(fields) =>
      Object(Kept(seq(|fields|, i requires 0 <= i < |fields| => (fields[i].0, Strip(fields[i].1)))))
    case _ => t
  }

  function StripInside(fields: seq<(string, Tree)>): seq<(string, Tree)> {
    seq(|fields|, i requires 0 <= i < |fields| => (fields[i].0, Strip(fields[i].1)))
  }

  lemma {:induction false} StripOfObject(fields: seq<(string, Tree)>)
    ensures Strip(Object(fields)) == Object(Kept(StripInside(fields)))
  {
    assert seq(|fields|, i requires 0 <= i < |fields| => (fields[i].0, Strip(fields[i].1))) == StripInside(fields);
  }

  // The text that is hashed.
  function CanonicalText(t: Tree): Tree {
    DeepSort(Strip(t))
  }

  lemma {:induction false} KeptKeepsDistinct(fields: seq<(string, Tree)>)
    requires DistinctKeys(fields)
    ensures DistinctKeys(Kept(fields))
    decreases |fields|
  {
    if fields != [] {
      var n := |fields| - 1;
      KeptKeepsDistinct(fields[..n]);
      forall i | 0 <= i < |Kept(fields[..n])| ensures Kept(fields[..n])[i].0 != fields[n].0 {
        assert Kept(fields[..n])[i] in fields[..n];
      }
    }
  }

  lemma {:induction false} StripIsWellFormed(t: Tree)
    requires WellFormed(t)
    ensures WellFormed(Strip(t))
    decreases t
  {
    match t
    case List(items) =>
      forall i | 0 <= i < |items| ensures WellFormed(Strip(items[i])) {
        StripIsWellFormed(items[i]);
      }
    case Object(fields) =>
      var inside := StripInside(fields);
      StripOfObject(fields);
      KeptKeepsDistinct(inside);
      forall i | 0 <= i < |Kept(inside)| ensures WellFormed(Kept(inside)[i].1) {
        assert Kept(inside)[i] in inside;
        var j :| 0 <= j < |inside| && inside[j] == Kept(inside)[i];
        StripIsWellFormed(fields[j].1);
      }
    case _ =>
  }

  /**
   Two states have the same canonical text exactly when what is copied of them differs at most in the order
   of keys.
   */
  lemma {:induction false} CanonicalTextExactly(t: Tree, u: Tree)
    requires WellFormed(t) && WellFormed(u)
    ensures CanonicalText(t) == CanonicalText(u) <==> Same(Strip(t), Strip(u))
  {
    StripIsWellFormed(t);
    StripIsWellFormed(u);
    SortedTreesExactly(Strip(t), Strip(u));
  }

  // No object, at any depth, has a field that is not copied.
  predicate CopiedWhole(t: Tree) {
    match t
    case List(items) => forall i :: 0 <= i < |items| ==> CopiedWhole(items[i])
    case Object(fields) => forall i :: 0 <= i < |fields| ==> fields[i].0 != PROTO && CopiedWhole(fields[i].1)
    case _ => true
  }

  lemma {:induction false} KeptWhole(fields: seq<(string, Tree)>)
    requires forall f :: f in fields ==> f.0 != PROTO
    ensures Kept(fields) == fields
    decreases |fields|
  {
    if fields != [] {
      var n := |fields| - 1;
      assert fields == fields[..n] + [fields[n]];
      KeptWhole(fields[..n]);
    }
  }

  lemma {:induction false} KeptShrinks(fields: seq<(string, Tree)>)
    ensures |Kept(fields)| <= |fields|
    ensures |Kept(fields)| == |fields| ==> forall f :: f in fields ==> f.0 != PROTO
    decreases |fields|
  {
    if fields != [] {
      var n := |fields| - 1;
      assert fields == fields[..n] + [fields[n]];
      KeptShrinks(fields[..n]);
    }
  }

  lemma {:induction false} StripIsIdleExactly(t: Tree)
    ensures Strip(t) == t <==> CopiedWhole(t)
    decreases t
  {
    match t
    case List(items) =>
      forall i | 0 <= i < |items| ensures Strip(items[i]) == items[i] <==> CopiedWhole(items[i]) {
        StripIsIdleExactly(items[i]);
      }
      if Strip(t) == t {
        forall i | 0 <= i < |items| ensures CopiedWhole(items[i]) {
          assert Strip(t).items[i] == items[i];
        }
      }
      if CopiedWhole(t) {
        assert Strip(t).items == items;
      }
    case Object(fields) =>
      var inside := StripInside(fields);
      StripOfObject(fields);
      forall i | 0 <= i < |fields| ensures Strip(fields[i].1) == fields[i].1 <==> CopiedWhole(fields[i].1) {
        StripIsIdleExactly(fields[i].1);
      }
      KeptShrinks(inside);
      if Strip(t) == t {
        KeptWhole(inside);
        forall i | 0 <= i < |fields| ensures fields[i].0 != PROTO && CopiedWhole(fields[i].1) {
          assert inside[i] in inside && inside[i] == fields[i];
        }
      }
      if CopiedWhole(t) {
        KeptWhole(inside);
        assert inside == fields;
      }
    case _ =>
  }

  /** States that are copied whole have the same text exactly when they differ at most in the order of keys. */
  lemma {:induction false} WholeTextsTellStatesApart(t: Tree, u: Tree)
    requires WellFormed(t) && WellFormed(u) && CopiedWhole(t) && CopiedWhole(u)
    ensures CanonicalText(t) == CanonicalText(u) <==> Same(t, u)
  {
    StripIsIdleExactly(t);
    StripIsIdleExactly(u);
    CanonicalTextExactly(t, u);
  }

  // A configuration with one field, of that name.
  function ProtoConfig(n: int): Tree {
    Object([("__proto__", Object([("a", Num(n))]))])
  }

  /** What lies in a field of that name is not in the text. */
  lemma {:induction false} ProtoIsNotInTheText(m: int, n: int)
    requires m != n
    ensures CanonicalText(ProtoConfig(m)) == CanonicalText(ProtoConfig(n)) == CanonicalText(Object([]))
    ensures !Same(ProtoConfig(m), ProtoConfig(n))
  {
    StripOfObject(ProtoConfig(m).fields);
    StripOfObject(ProtoConfig(n).fields);
    KeptShrinks(StripInside(ProtoConfig(m).fields));
    assert Strip(ProtoConfig(m)) == Strip(ProtoConfig(n)) == Strip(Object([]));
    var a, b := [("a", Num(m))], [("a", Num(n))];
    assert a[0].0 == b[0].0 && !Same(a[0].1, b[0].1);
    assert !Same(Object(a), Object(b));
    var f, g := [(PROTO, Object(a))], [(PROTO, Object(b))];
    assert f[0].0 == g[0].0 && !Same(f[0].1, g[0].1);
  }
}
