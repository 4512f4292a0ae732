/**
 JSON values, with JavaScript's truthiness and the deep sort that puts rules into canonical form.
 Object keys carry no order here, which is what sorting them by key amounts to. A field named by PROTO
 is, once the value is sanitised, the prototype of its object: reading falls back to it.
 */
module Json {

  datatype Json =
    | Null
    | Bool(b: bool)
    | Num(n: int)
    | Str(s: string)
    | Arr(items: seq<Json>)
    | Obj(fields: map<string, Json>)

  const PROTO := "__proto__"

  // Absent and null values read alike. No field that the rules are read for lies on an array.
  function Get(j: Json, key: string): Json {
    if !j.Obj? then Null
    else if key in j.fields then j.fields[key]
    else if PROTO in j.fields then Get(j.fields[PROTO], key)
    else Null
  }

  // A plain copy: assigning to PROTO sets the prototype, if the value can be one, and makes no field.
  function Sanitize(j: Json): Json {
    match j
    case Arr(items) => Arr(seq(|items|, i requires 0 <= i < |items| => Sanitize(items[i])))
    case Obj(fields) => Obj(map k | k in fields && (k != PROTO || fields[k].Obj?) :: Sanitize(fields[k]))
    case _ => j
  }

  // What listing the entries of a sanitised value shows: no prototype, at any depth.
  function OwnPart(j: Json): Json {
    match j
    case Arr(items) => Arr(seq(|items|, i requires 0 <= i < |items| => OwnPart(items[i])))
    case Obj(fields) => Obj(map k | k in fields && k != PROTO :: OwnPart(fields[k]))
    case _ => j
  }

  lemma {:induction false} SanitizeKeepsGet(j: Json, key: string)
    requires key != PROTO
    ensures Get(Sanitize(j), key) == Sanitize(Get(j, key))
  {
    if j.Obj? && key !in j.fields && PROTO in j.fields {
      SanitizeKeepsGet(j.fields[PROTO], key);
    }
  }

  /** Sanitising twice, or not at all, makes no difference to what the entries show. */
  lemma {:induction false} OwnPartOfSanitized(j: Json)
    ensures OwnPart(Sanitize(j)) == OwnPart(j)
  {
    match j
    case Arr(items) =>
      forall i | 0 <= i < |items| ensures OwnPart(Sanitize(items[i])) == OwnPart(items[i]) {
        OwnPartOfSanitized(items[i]);
      }
      assert OwnPart(Sanitize(j)).items == OwnPart(j).items;
    case Obj(fields) =>
      forall k | k in fields && k != PROTO ensures OwnPart(Sanitize(fields[k])) == OwnPart(fields[k]) {
        OwnPartOfSanitized(fields[k]);
      }
      assert OwnPart(Sanitize(j)).fields == OwnPart(j).fields;
    case _ =>
  }

  predicate Truthy(j: Json) {
    match j
    case Null => false
    case Bool(b) => b
    case Num(n) => n != 0
    case Str(s) => s != ""
    case _ => true
  }

  /** False, zero, the empty text and nothing count as false, and all else as true. */
  lemma {:induction false} FalsyExactly(j: Json)
    ensures !Truthy(j) <==> j in {Null, Bool(false), Num(0), Str("")}
  {
  }

  // `j.includes(v)`: objects and arrays are compared by identity, so only a primitive is ever found.
  predicate Includes(j: Json, v: Json) {
    j.Arr? && !v.Arr? && !v.Obj? && v in j.items
  }

  predicate HasString(j: Json, v: string) {
    Includes(j, Str(v))
  }

  // An order of JSON values, as a comparison of their texts gives it; nothing is assumed about it.
  type Order = (Json, Json) -> bool

  // After the last element that may stand before it, as a stable sort puts it.
  function Insert(le: Order, x: Json, xs: seq<Json>): (r: seq<Json>)
    ensures multiset(r) == multiset(xs) + multiset{x}
  {
    if xs == [] then [x] else
    var n := |xs| - 1;
    assert xs == xs[..n] + [xs[n]];
    if le(xs[n], x) then xs + [x] else Insert(le, x, xs[..n]) + [xs[n]]
  }

  function Sort(le: Order, xs: seq<Json>): (r: seq<Json>)
    ensures multiset(r) == multiset(xs)
  {
    if xs == [] then [] else
    var n := |xs| - 1;
    assert xs == xs[..n] + [xs[n]];
    Insert(le, xs[n], Sort(le, xs[..n]))
  }

  // The part of a rule's value in its canonical form.
  function CanonicalPart(le: Order, j: Json): Json {
    if Truthy(j) then SortValue(le, OwnPart(j)) else Null
  }

  // Every array in the value sorted, from the inside out.
  function SortValue(le: Order, j: Json): Json
    decreases j
  {
    match j
    case Arr(items) => Arr(Sort(le, seq(|items|, i requires 0 <= i < |items| => SortValue(le, items[i]))))
    case Obj(fields) => Obj(map k | k in fields :: SortValue(le, fields[k]))
    case _ => j
  }

  lemma {:induction false} SortValueOfArray(le: Order, j: Json)
    requires j.Arr?
    ensures SortValue(le, j).Arr?
    ensures forall x :: x in j.items ==> SortValue(le, x) in SortValue(le, j).items
    ensures forall y :: y in SortValue(le, j).items ==> exists x :: x in j.items && y == SortValue(le, x)
  {
    var sorted := seq(|j.items|, i requires 0 <= i < |j.items| => SortValue(le, j.items[i]));
    assert multiset(SortValue(le, j).items) == multiset(sorted);
    forall x | x in j.items
      ensures SortValue(le, x) in SortValue(le, j).items
    {
      var i :| 0 <= i < |j.items| && j.items[i] == x;
      assert sorted[i] in multiset(sorted);
    }
    forall y | y in SortValue(le, j).items
      ensures exists x :: x in j.items && y == SortValue(le, x)
    {
      assert y in multiset(sorted);
      var i :| 0 <= i < |sorted| && sorted[i] == y;
      assert j.items[i] in j.items;
    }
  }

  lemma {:induction false} SortKeepsIncludes(le: Order, j: Json, v: Json)
    ensures Includes(SortValue(le, j), v) <==> Includes(j, v)
  {
    if j.Arr? && !v.Arr? && !v.Obj? {
      SortValueOfArray(le, j);
      assert SortValue(le, v) == v;
    }
  }

  lemma {:induction false} SortKeepsGet(le: Order, j: Json, key: string)
    ensures Get(SortValue(le, j), key) == SortValue(le, Get(j, key))
  {
    if j.Obj? && key !in j.fields && PROTO in j.fields {
      SortKeepsGet(le, j.fields[PROTO], key);
    }
  }

  lemma {:induction false} SortKeepsTruth(le: Order, j: Json)
    ensures Truthy(SortValue(le, j)) == Truthy(j)
    ensures SortValue(le, j) == Null <==> j == Null
  {
  }
}
