/**
 Changes of a value that the evaluator does not notice, because they commute with everything it reads
 off a where clause or an input guard: deep sorting, but for one corner, and sanitising.
 */
module Readings {
  import opened Wrappers
  import opened Json
  import opened InputGuards
  import opened Authorize

  // T commutes with reading a field and keeps truth, primitives and what an array includes.
  ghost predicate Keeps(T: Json -> Json) {
    && (forall j {:trigger T(j)} ::
          && Truthy(T(j)) == Truthy(j) && T(j).Arr? == j.Arr? && T(j).Str? == j.Str? && T(j).Num? == j.Num?
          && (j.Str? || j.Num? ==> T(j) == j))
    && (forall j, key {:trigger Get(T(j), key)} :: key != PROTO ==> Get(T(j), key) == T(Get(j, key)))
    && (forall j, v {:trigger Includes(T(j), v)} :: Includes(T(j), v) == Includes(j, v))
    && (forall j: Json {:trigger ItemsMatch(T, j)} :: j.Arr? && T(j).Arr? ==> ItemsMatch(T, j))
  }

  // The changed array holds the changed items, in whatever order.
  ghost predicate ItemsMatch(T: Json -> Json, j: Json)
    requires j.Arr? && T(j).Arr?
  {
    && (forall x :: x in j.items ==> T(x) in T(j).items)
    && (forall y :: y in T(j).items ==> exists x :: x in j.items && y == T(x))
  }

  // And it keeps the verdict on denied names.
  ghost predicate KeepsDenied(T: Json -> Json, input: Input) {
    input.bodyKeys.Some? ==>
      forall j: Json :: j.Arr? && T(j).Arr? ==> NamesDenied(T(j).items, input) == NamesDenied(j.items, input)
  }

  lemma {:induction false} KeepsList(T: Json -> Json, w: Json, key: string, values: seq<string>)
    requires Keeps(T) && key != PROTO
    ensures ListHolds(T(w), key, values) == ListHolds(w, key, values)
  {
    var list := Get(w, key);
    assert Get(T(w), key) == T(list);
    forall v ensures HasString(T(list), v) == HasString(list, v) {
      assert Includes(T(list), Str(v)) == Includes(list, Str(v));
    }
  }

  lemma {:induction false} KeepsFlag(T: Json -> Json, j: Json, key: string)
    requires Keeps(T) && key != PROTO
    ensures Truthy(Get(T(j), key)) == Truthy(Get(j, key))
  {
    assert Get(T(j), key) == T(Get(j, key));
  }

  lemma {:induction false} KeepsDate(T: Json -> Json, window: Json, key: string, context: Context)
    requires Keeps(T) && key != PROTO
    ensures DateOf(context, Get(T(window), key)) == DateOf(context, Get(window, key))
  {
    assert Get(T(window), key) == T(Get(window, key));
  }

  lemma {:induction false} KeepsWindow(T: Json -> Json, w: Json, context: Context, now: int)
    requires Keeps(T)
    ensures InTimeWindow(Get(T(w), "timeWindow"), context, now) == InTimeWindow(Get(w, "timeWindow"), context, now)
  {
    var window := Get(w, "timeWindow");
    assert Get(T(w), "timeWindow") == T(window);
    KeepsDate(T, window, "since", context);
    KeepsDate(T, window, "until", context);
  }

  lemma {:induction false} KeepsWhere(T: Json -> Json, w: Json, req: Request, context: Context)
    requires Keeps(T)
    ensures MatchesWhere(T(w), req, context) == MatchesWhere(w, req, context)
  {
    KeepsList(T, w, "bundleIds", req.bundleIds);
    KeepsList(T, w, "pipelineIds", req.pipelineIds);
    KeepsList(T, w, "triggerKinds", req.triggerKinds);
    KeepsList(T, w, "actionKinds", req.actionKinds);
    KeepsList(T, w, "recipientTagsAny", req.tags);
    KeepsList(T, w, "environments", req.environments);
    KeepsFlag(T, w, "systemOnly");
    KeepsFlag(T, w, "ownerIsSelf");
    KeepsFlag(T, w, "timeWindow");
    KeepsWindow(T, w, context, req.now);
  }

  lemma {:induction false} KeepsAllowParams(T: Json -> Json, g: Json, input: Input)
    requires Keeps(T)
    ensures AllowParamsHold(T(g), input) == AllowParamsHold(g, input)
  {
    var allow := Get(g, "allowParams");
    assert Get(T(g), "allowParams") == T(allow);
    forall k ensures HasString(T(allow), k) == HasString(allow, k) {
      assert Includes(T(allow), Str(k)) == Includes(allow, Str(k));
    }
  }

  lemma {:induction false} KeepsDenyParams(T: Json -> Json, g: Json, input: Input)
    requires Keeps(T) && KeepsDenied(T, input)
    ensures DenyParamsHold(T(g), input) == DenyParamsHold(g, input)
  {
    assert Get(T(g), "denyParams") == T(Get(g, "denyParams"));
  }

  lemma {:induction false} KeepsValueRule(T: Json -> Json, rule: Json, input: Input)
    requires Keeps(T)
    ensures ValueRuleHolds(T(rule), input) == ValueRuleHolds(rule, input)
  {
    assert Get(T(rule), "path") == T(Get(rule, "path"));
    assert Get(T(rule), "oneOf") == T(Get(rule, "oneOf"));
    assert Get(T(rule), "matches") == T(Get(rule, "matches"));
    assert Get(T(rule), "maxLen") == T(Get(rule, "maxLen"));
  }

  lemma {:induction false} KeepsRuleList(T: Json -> Json, rules: Json, input: Input)
    requires Keeps(T) && rules.Arr? && T(rules).Arr? && ItemsMatch(T, rules)
    ensures (forall r :: r in T(rules).items ==> ValueRuleHolds(r, input))
            <==> forall r :: r in rules.items ==> ValueRuleHolds(r, input)
  {
    forall r | r in rules.items
      ensures T(r) in T(rules).items && ValueRuleHolds(T(r), input) == ValueRuleHolds(r, input)
    {
      KeepsValueRule(T, r, input);
    }
    forall s | s in T(rules).items
      ensures exists r :: r in rules.items && ValueRuleHolds(s, input) == ValueRuleHolds(r, input)
    {
      var r :| r in rules.items && s == T(r);
    }
  }

  lemma {:induction false} KeepsValueRules(T: Json -> Json, g: Json, input: Input)
    requires Keeps(T)
    ensures ValueRulesHold(T(g), input) == ValueRulesHold(g, input)
  {
    var rules := Get(g, "valueRules");
    assert Get(T(g), "valueRules") == T(rules);
    if rules.Arr? {
      assert ItemsMatch(T, rules);
      KeepsRuleList(T, rules, input);
    }
  }

  lemma {:induction false} KeepsNumber(T: Json -> Json, j: Json, key: string)
    requires Keeps(T) && key != PROTO
    ensures NumberOf(Get(T(j), key)) == NumberOf(Get(j, key))
  {
    assert Get(T(j), key) == T(Get(j, key));
  }

  lemma {:induction false} KeepsLimits(T: Json -> Json, g: Json)
    requires Keeps(T)
    ensures LimitsOf(Get(T(g), "rateLimit")) == LimitsOf(Get(g, "rateLimit"))
  {
    var limit := Get(g, "rateLimit");
    assert Get(T(g), "rateLimit") == T(limit);
    KeepsNumber(T, limit, "burst");
    KeepsNumber(T, limit, "perMin");
    KeepsNumber(T, limit, "perHour");
  }

  // Two guard values that do the same to an input.
  predicate SameGuards(g: Json, h: Json, input: Input) {
    && FirstFailure(g, input) == FirstFailure(h, input) && Meters(g, input) == Meters(h, input)
    && LimitsOf(Get(g, "rateLimit")) == LimitsOf(Get(h, "rateLimit"))
  }

  lemma {:induction false} KeepsGuards(T: Json -> Json, g: Json, input: Input)
    requires Keeps(T) && KeepsDenied(T, input)
    ensures SameGuards(T(g), g, input)
  {
    KeepsAllowParams(T, g, input);
    KeepsDenyParams(T, g, input);
    KeepsValueRules(T, g, input);
    KeepsFlag(T, g, "dryRunOnly");
    KeepsFlag(T, g, "rateLimit");
    KeepsLimits(T, g);
  }

  // ---------------------------------------------------------------- deep sorting

  // The body has a parameter with an empty name and another one with which the empty name does not tie.
  ghost predicate EmptyNameMoves(le: Order, input: Input) {
    && input.bodyKeys.Some? && input.inBody("")
    && exists k :: k != "" && input.inBody(k) && !(le(Str(""), Str(k)) && le(Str(k), Str("")))
  }

  // The first denied name that the body has is not the empty one.
  predicate NamesDenied(keys: seq<Json>, input: Input) {
    FirstDenied(keys, input).Some? && FirstDenied(keys, input).value != ""
  }

  predicate Hits(key: Json, input: Input) {
    key.Str? && input.inBody(key.s)
  }

  lemma {:induction false} FirstDeniedAppend(keys: seq<Json>, more: seq<Json>, input: Input)
    ensures FirstDenied(keys + more, input)
            == if FirstDenied(keys, input).Some? then FirstDenied(keys, input) else FirstDenied(more, input)
    decreases |keys|
  {
    if keys == [] {
      assert keys + more == more;
    } else {
      assert (keys + more)[0] == keys[0] && (keys + more)[1..] == keys[1..] + more;
      FirstDeniedAppend(keys[1..], more, input);
    }
  }

  lemma {:induction false} FirstDeniedOfOne(key: Json, input: Input)
    ensures FirstDenied([key], input) == if Hits(key, input) then Some(key.s) else None
  {
    assert [key][1..] == [];
    assert FirstDenied([], input) == None;
  }

  // Inserting is, for the verdict, appending: an empty name and a named one keep their order.
  lemma {:induction false} InsertKeepsVerdict(le: Order, x: Json, keys: seq<Json>, input: Input)
    requires input.bodyKeys.Some? && !EmptyNameMoves(le, input)
    ensures NamesDenied(Insert(le, x, keys), input) == NamesDenied(keys + [x], input)
    decreases |keys|
  {
    if keys == [] {
      assert keys + [x] == [x];
    } else {
      var n := |keys| - 1;
      var front, last := keys[..n], keys[n];
      assert keys == front + [last];
      if !le(last, x) {
        InsertKeepsVerdict(le, x, front, input);
        SwapKeepsVerdict(le, x, front, last, input);
        FirstDeniedAppend(Insert(le, x, front), [last], input);
        InsertHits(le, x, front, input);
        FirstDeniedAppend(front + [x], [last], input);
      }
    }
  }

  lemma {:induction false} SwapKeepsVerdict(le: Order, x: Json, front: seq<Json>, last: Json, input: Input)
    requires input.bodyKeys.Some? && !EmptyNameMoves(le, input) && !le(last, x)
    ensures NamesDenied(front + [last] + [x], input) == NamesDenied(front + [x] + [last], input)
  {
    FirstDeniedAppend(front + [last], [x], input);
    FirstDeniedAppend(front + [x], [last], input);
    FirstDeniedAppend(front, [last], input);
    FirstDeniedAppend(front, [x], input);
    FirstDeniedOfOne(x, input);
    FirstDeniedOfOne(last, input);
  }

  // Whether anything is denied at all does not depend on the order.
  lemma {:induction false} InsertHits(le: Order, x: Json, keys: seq<Json>, input: Input)
    ensures FirstDenied(Insert(le, x, keys), input).Some? == FirstDenied(keys + [x], input).Some?
    decreases |keys|
  {
    if keys == [] {
      assert keys + [x] == [x];
    } else {
      var n := |keys| - 1;
      assert keys == keys[..n] + [keys[n]];
      InsertHits(le, x, keys[..n], input);
      FirstDeniedAppend(Insert(le, x, keys[..n]), [keys[n]], input);
      FirstDeniedAppend(keys[..n], [x], input);
      FirstDeniedAppend(keys[..n], [keys[n]], input);
      FirstDeniedAppend(keys, [x], input);
    }
  }

  lemma {:induction false} SameStart(a: seq<Json>, b: seq<Json>, x: Json, input: Input)
    requires NamesDenied(a, input) == NamesDenied(b, input)
    requires FirstDenied(a, input).Some? == FirstDenied(b, input).Some?
    ensures NamesDenied(a + [x], input) == NamesDenied(b + [x], input)
    ensures FirstDenied(a + [x], input).Some? == FirstDenied(b + [x], input).Some?
  {
    FirstDeniedAppend(a, [x], input);
    FirstDeniedAppend(b, [x], input);
  }

  lemma {:induction false} SortKeepsVerdict(le: Order, keys: seq<Json>, input: Input)
    requires input.bodyKeys.Some? && !EmptyNameMoves(le, input)
    ensures NamesDenied(Sort(le, keys), input) == NamesDenied(keys, input)
    ensures FirstDenied(Sort(le, keys), input).Some? == FirstDenied(keys, input).Some?
    decreases |keys|
  {
    if keys == [] {
      SortOfNone(le);
    } else {
      var front, last := keys[..|keys| - 1], keys[|keys| - 1];
      SortKeepsVerdict(le, front, input);
      AppendKeepsVerdict(le, Sort(le, front), front, last, input);
      SortIsInsert(le, keys);
    }
  }

  lemma {:induction false} SortOfNone(le: Order)
    ensures Sort(le, []) == []
  {
  }

  lemma {:induction false} SortIsInsert(le: Order, keys: seq<Json>)
    requires keys != []
    ensures var front, last := keys[..|keys| - 1], keys[|keys| - 1];
            keys == front + [last] && Sort(le, keys) == Insert(le, last, Sort(le, front))
  {
  }

  lemma {:induction false} AppendKeepsVerdict(le: Order, sorted: seq<Json>, keys: seq<Json>, x: Json, input: Input)
    requires input.bodyKeys.Some? && !EmptyNameMoves(le, input)
    requires NamesDenied(sorted, input) == NamesDenied(keys, input)
    requires FirstDenied(sorted, input).Some? == FirstDenied(keys, input).Some?
    ensures NamesDenied(Insert(le, x, sorted), input) == NamesDenied(keys + [x], input)
    ensures FirstDenied(Insert(le, x, sorted), input).Some? == FirstDenied(keys + [x], input).Some?
  {
    InsertKeepsVerdict(le, x, sorted, input);
    InsertHits(le, x, sorted, input);
    SameStart(sorted, keys, x, input);
  }

  // Sorting inside the elements changes no name.
  lemma {:induction false} SortedInside(le: Order, keys: seq<Json>, input: Input)
    ensures var inside := seq(|keys|, i requires 0 <= i < |keys| => SortValue(le, keys[i]));
            FirstDenied(inside, input) == FirstDenied(keys, input)
    decreases |keys|
  {
    if keys != [] {
      var inside := seq(|keys|, i requires 0 <= i < |keys| => SortValue(le, keys[i]));
      var rest := keys[1..];
      assert inside[1..] == seq(|rest|, i requires 0 <= i < |rest| => SortValue(le, rest[i]));
      SortedInside(le, rest, input);
    }
  }

  function SortOf(le: Order): Json -> Json {
    j => SortValue(le, j)
  }

  lemma {:induction false} SortKeeps(le: Order)
    ensures Keeps(SortOf(le))
  {
    forall j ensures Truthy(SortValue(le, j)) == Truthy(j) {
      SortKeepsTruth(le, j);
    }
    forall j, key ensures Get(SortValue(le, j), key) == SortValue(le, Get(j, key)) {
      SortKeepsGet(le, j, key);
    }
    forall j, v ensures Includes(SortValue(le, j), v) == Includes(j, v) {
      SortKeepsIncludes(le, j, v);
    }
    forall j: Json | j.Arr? ensures SortOf(le)(j).Arr? && ItemsMatch(SortOf(le), j) {
      SortValueOfArray(le, j);
    }
  }

  lemma {:induction false} SortKeepsDenied(le: Order, input: Input)
    requires !EmptyNameMoves(le, input)
    ensures KeepsDenied(SortOf(le), input)
  {
    forall j: Json | j.Arr? && input.bodyKeys.Some?
      ensures NamesDenied(SortValue(le, j).items, input) == NamesDenied(j.items, input)
    {
      var inside := seq(|j.items|, i requires 0 <= i < |j.items| => SortValue(le, j.items[i]));
      SortedInside(le, j.items, input);
      SortKeepsVerdict(le, inside, input);
    }
  }

  /** Deep sorting never changes whether a where clause matches. */
  lemma {:induction false} SortKeepsWhere(le: Order, w: Json, req: Request, context: Context)
    ensures MatchesWhere(SortValue(le, w), req, context) == MatchesWhere(w, req, context)
  {
    SortKeeps(le);
    KeepsWhere(SortOf(le), w, req, context);
  }

  /** Nor what the guards do to an input, unless its body has an empty name that sorting moves past another. */
  lemma {:induction false} SortKeepsGuards(le: Order, g: Json, input: Input)
    requires !EmptyNameMoves(le, input)
    ensures SameGuards(SortValue(le, g), g, input)
  {
    SortKeeps(le);
    SortKeepsDenied(le, input);
    KeepsGuards(SortOf(le), g, input);
  }

  // ---------------------------------------------------------------- sanitising

  lemma {:induction false} SanitizeKeepsItems(j: Json)
    requires j.Arr?
    ensures Sanitize(j).Arr?
    ensures forall x :: x in j.items ==> Sanitize(x) in Sanitize(j).items
    ensures forall y :: y in Sanitize(j).items ==> exists x :: x in j.items && y == Sanitize(x)
    ensures forall v: Json :: !v.Arr? && !v.Obj? ==> (v in Sanitize(j).items <==> v in j.items)
  {
    var items := Sanitize(j).items;
    assert |items| == |j.items|;
    forall x | x in j.items ensures Sanitize(x) in items {
      var i :| 0 <= i < |j.items| && j.items[i] == x;
      assert items[i] == Sanitize(x);
    }
    forall y | y in items ensures exists x :: x in j.items && y == Sanitize(x) {
      var i :| 0 <= i < |items| && items[i] == y;
      assert j.items[i] in j.items;
    }
    forall v: Json | !v.Arr? && !v.Obj? ensures v in items <==> v in j.items {
      assert Sanitize(v) == v;
    }
  }

  lemma {:induction false} SanitizeKeeps()
    ensures Keeps(Sanitize)
  {
    forall j, key | key != PROTO ensures Get(Sanitize(j), key) == Sanitize(Get(j, key)) {
      SanitizeKeepsGet(j, key);
    }
    forall j, v ensures Includes(Sanitize(j), v) == Includes(j, v) {
      if j.Arr? { SanitizeKeepsItems(j); }
    }
    forall j: Json | j.Arr? ensures ItemsMatch(Sanitize, j) {
      SanitizeKeepsItems(j);
    }
  }

  lemma {:induction false} SanitizeKeepsNames(keys: seq<Json>, input: Input)
    ensures var inside := seq(|keys|, i requires 0 <= i < |keys| => Sanitize(keys[i]));
            FirstDenied(inside, input) == FirstDenied(keys, input)
    decreases |keys|
  {
    if keys != [] {
      var inside := seq(|keys|, i requires 0 <= i < |keys| => Sanitize(keys[i]));
      var rest := keys[1..];
      assert inside[1..] == seq(|rest|, i requires 0 <= i < |rest| => Sanitize(rest[i]));
      SanitizeKeepsNames(rest, input);
    }
  }

  lemma {:induction false} SanitizeKeepsDenied(input: Input)
    ensures KeepsDenied(Sanitize, input)
  {
    forall j: Json | j.Arr? ensures NamesDenied(Sanitize(j).items, input) == NamesDenied(j.items, input) {
      SanitizeKeepsNames(j.items, input);
    }
  }

  /**
   Reading takes a field named by PROTO for the prototype that sanitising makes of it:
   sanitising changes no verdict.
   */
  lemma {:induction false} SanitizeKeepsVerdicts(w: Json, g: Json, req: Request, context: Context)
    ensures MatchesWhere(Sanitize(w), req, context) == MatchesWhere(w, req, context)
    ensures SameGuards(Sanitize(g), g, req.input)
  {
    SanitizeKeeps();
    SanitizeKeepsDenied(req.input);
    KeepsWhere(Sanitize, w, req, context);
    KeepsGuards(Sanitize, g, req.input);
  }
}
