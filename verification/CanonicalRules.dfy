/**
 The canonical form of a permission list, and what it decides. The hash of a list is its canonical
 form under an injective digest, `Content`.
 */
module CanonicalRules {
  import opened Wrappers
  import opened Json
  import opened CompiledRules
  import opened InputGuards
  import opened Authorize
  import opened Readings
  import opened Prototypes

  function SourceText(s: Source): string {
    if s == Preset then "preset" else "direct"
  }

  function RuleFields(le: Order, r: Rule, index: nat): map<string, Json> {
    map["idx" := Num(index), "id" := Str(r.id), "source" := Str(SourceText(r.source)), "action" := Str(r.action),
        "resource" := Str(r.resource), "where" := CanonicalPart(le, r.whereValue),
        "input" := CanonicalPart(le, r.inputValue)]
  }

  function CanonicalRule(le: Order, r: Rule, index: nat): Json {
    SortValue(le, Obj(RuleFields(le, r, index)))
  }

  function Canonical(le: Order, rules: seq<Rule>): seq<Json> {
    seq(|rules|, i requires 0 <= i < |rules| => CanonicalRule(le, rules[i], i))
  }

  function RulesHash(le: Order, rules: seq<Rule>): Hash {
    Content(Canonical(le, rules))
  }

  // ---------------------------------------------------------------- equal canonical forms

  // Two rules that no request of this input can tell apart.
  predicate Alike(r: Rule, q: Rule, req: Request, context: Context) {
    && r.id == q.id && r.source == q.source && r.action == q.action && r.resource == q.resource
    && FitOf(r, req, context) == FitOf(q, req, context)
    && Meters(r.inputValue, req.input) == Meters(q.inputValue, req.input)
    && LimitsOf(Get(r.inputValue, "rateLimit")) == LimitsOf(Get(q.inputValue, "rateLimit"))
  }

  predicate AllAlike(rs: seq<Rule>, qs: seq<Rule>, req: Request, context: Context) {
    |rs| == |qs| && forall i :: 0 <= i < |rs| ==> Alike(rs[i], qs[i], req, context)
  }

  lemma {:induction false} EqualFields(le: Order, r: Rule, q: Rule, index: nat)
    requires CanonicalRule(le, r, index) == CanonicalRule(le, q, index)
    ensures r.id == q.id && r.source == q.source && r.action == q.action && r.resource == q.resource
    ensures SortValue(le, CanonicalPart(le, r.whereValue)) == SortValue(le, CanonicalPart(le, q.whereValue))
    ensures SortValue(le, CanonicalPart(le, r.inputValue)) == SortValue(le, CanonicalPart(le, q.inputValue))
  {
    var a, b := Obj(RuleFields(le, r, index)), Obj(RuleFields(le, q, index));
    FieldsRead(le, r, index);
    FieldsRead(le, q, index);
    SameField(le, a, b, "id");
    SameField(le, a, b, "source");
    SameField(le, a, b, "action");
    SameField(le, a, b, "resource");
    SameField(le, a, b, "where");
    SameField(le, a, b, "input");
  }

  lemma {:induction false} FieldsRead(le: Order, r: Rule, index: nat)
    ensures var o := Obj(RuleFields(le, r, index));
            && Get(o, "id") == Str(r.id) && Get(o, "source") == Str(SourceText(r.source))
            && Get(o, "action") == Str(r.action) && Get(o, "resource") == Str(r.resource)
            && Get(o, "where") == CanonicalPart(le, r.whereValue) && Get(o, "input") == CanonicalPart(le, r.inputValue)
  {
  }

  lemma {:induction false} SameField(le: Order, a: Json, b: Json, key: string)
    requires SortValue(le, a) == SortValue(le, b)
    ensures SortValue(le, Get(a, key)) == SortValue(le, Get(b, key))
  {
    SortKeepsGet(le, a, key);
    SortKeepsGet(le, b, key);
  }

  lemma {:induction false} SameWhere(le: Order, v: Json, w: Json, req: Request, context: Context)
    requires SortValue(le, CanonicalPart(le, v)) == SortValue(le, CanonicalPart(le, w)) && OwnWhere(v) && OwnWhere(w)
    ensures MatchesWhere(v, req, context) == MatchesWhere(w, req, context)
  {
    WhereOfPart(le, v, req, context);
    WhereOfPart(le, w, req, context);
  }

  lemma {:induction false} WhereOfPart(le: Order, w: Json, req: Request, context: Context)
    requires OwnWhere(w)
    ensures MatchesWhere(SortValue(le, CanonicalPart(le, w)), req, context) == MatchesWhere(w, req, context)
  {
    SortKeepsWhere(le, CanonicalPart(le, w), req, context);
    if Truthy(w) {
      SortKeepsWhere(le, OwnPart(w), req, context);
      OwnPartKeepsWhere(w, req, context);
    }
  }

  lemma {:induction false} GuardsOfPart(le: Order, g: Json, input: Input)
    requires OwnGuards(g) && !EmptyNameMoves(le, input)
    ensures SameGuards(CanonicalPart(le, g), g, input)
  {
    if Truthy(g) {
      SortKeepsGuards(le, OwnPart(g), input);
      OwnPartKeepsGuards(g, input);
    } else {
      FalsyHasNoLimits(g);
    }
  }

  lemma {:induction false} GuardsOfForm(le: Order, g: Json, h: Json, input: Input)
    requires SortValue(le, CanonicalPart(le, g)) == SortValue(le, CanonicalPart(le, h)) && OwnGuards(g) && OwnGuards(h)
    requires !EmptyNameMoves(le, input)
    ensures SameGuards(g, h, input)
  {
    GuardsOfPart(le, g, input);
    GuardsOfPart(le, h, input);
    SortKeepsGuards(le, CanonicalPart(le, g), input);
    SortKeepsGuards(le, CanonicalPart(le, h), input);
  }

  lemma {:induction false} FalsyHasNoLimits(g: Json)
    requires !Truthy(g)
    ensures LimitsOf(Get(g, "rateLimit")) == Limits(None, None, None)
  {
  }

  // Nothing of consequence in the rule's values is inherited.
  predicate OwnRule(r: Rule) {
    OwnWhere(r.whereValue) && OwnGuards(r.inputValue)
  }

  predicate OwnRules(rules: seq<Rule>) {
    forall r :: r in rules ==> OwnRule(r)
  }

  lemma {:induction false} EqualFormsAreAlike(le: Order, rs: seq<Rule>, qs: seq<Rule>, req: Request, context: Context)
    requires Canonical(le, rs) == Canonical(le, qs) && !EmptyNameMoves(le, req.input) && OwnRules(rs) && OwnRules(qs)
    ensures AllAlike(rs, qs, req, context)
  {
    assert |Canonical(le, rs)| == |rs| && |Canonical(le, qs)| == |qs|;
    forall i | 0 <= i < |rs|
      ensures Alike(rs[i], qs[i], req, context)
    {
      var r, q := rs[i], qs[i];
      assert Canonical(le, rs)[i] == Canonical(le, qs)[i] && OwnRule(r) && OwnRule(q);
      EqualFields(le, r, q, i);
      SameWhere(le, r.whereValue, q.whereValue, req, context);
      GuardsOfForm(le, r.inputValue, q.inputValue, req.input);
    }
  }

  /** Compiling, which sanitises, changes neither what a list is read to decide nor its hash. */
  lemma {:induction false} SanitizedRulesAreAlike(le: Order, rs: seq<Rule>, req: Request, context: Context)
    ensures AllAlike(SanitizedRules(rs), rs, req, context) && RulesHash(le, SanitizedRules(rs)) == RulesHash(le, rs)
  {
    var ss := SanitizedRules(rs);
    forall i | 0 <= i < |rs|
      ensures Alike(ss[i], rs[i], req, context) && Canonical(le, ss)[i] == Canonical(le, rs)[i]
    {
      SanitizeKeepsVerdicts(rs[i].whereValue, rs[i].inputValue, req, context);
      OwnPartOfSanitized(rs[i].whereValue);
      OwnPartOfSanitized(rs[i].inputValue);
      SanitizeKeepsTruth(rs[i].whereValue);
      SanitizeKeepsTruth(rs[i].inputValue);
    }
    assert Canonical(le, ss) == Canonical(le, rs);
  }

  lemma {:induction false} SanitizeKeepsTruth(j: Json)
    ensures Truthy(Sanitize(j)) == Truthy(j)
  {
  }

  lemma {:induction false} AlikeConcat(rs: seq<Rule>, rs': seq<Rule>, qs: seq<Rule>, qs': seq<Rule>,
                                       req: Request, context: Context)
    requires AllAlike(rs, qs, req, context) && AllAlike(rs', qs', req, context)
    ensures AllAlike(rs + rs', qs + qs', req, context)
  {
    forall i | 0 <= i < |rs + rs'| ensures Alike((rs + rs')[i], (qs + qs')[i], req, context) {
      if i >= |rs| {
        assert Alike(rs'[i - |rs|], qs'[i - |rs|], req, context);
      }
    }
  }

  lemma {:induction false} AlikeFront(rs: seq<Rule>, qs: seq<Rule>, req: Request, context: Context)
    requires AllAlike(rs, qs, req, context) && rs != []
    ensures AllAlike(rs[..|rs| - 1], qs[..|qs| - 1], req, context)
    ensures Alike(rs[|rs| - 1], qs[|qs| - 1], req, context)
  {
    var front, others := rs[..|rs| - 1], qs[..|qs| - 1];
    forall i | 0 <= i < |front| ensures Alike(front[i], others[i], req, context) {
      assert Alike(rs[i], qs[i], req, context);
    }
  }

  lemma {:induction false} SelectionsAreAlike(rs: seq<Rule>, qs: seq<Rule>, resource: string, action: string,
                                              req: Request, context: Context)
    requires AllAlike(rs, qs, req, context)
    ensures AllAlike(Select(rs, resource, action), Select(qs, resource, action), req, context)
    decreases |rs|
  {
    if rs != [] {
      var n := |rs| - 1;
      AlikeFront(rs, qs, req, context);
      SelectionsAreAlike(rs[..n], qs[..n], resource, action, req, context);
      if Selects(rs[n], resource, action) {
        AlikeConcat(Select(rs[..n], resource, action), [rs[n]], Select(qs[..n], resource, action), [qs[n]],
                    req, context);
      }
    }
  }

  // A decision as the caller sees it: which rule matched is told by its id.
  datatype Seen = SeenAdmin | SeenMatch(id: string, source: Source) | SeenDeny(reason: Reason)

  function See(d: Decision): Seen {
    match d
    case AsAdmin => SeenAdmin
    case RuleMatch(r) => SeenMatch(r.id, r.source)
    case Deny(reason) => SeenDeny(reason)
  }

  lemma {:induction false} AlikeFirst(rs: seq<Rule>, qs: seq<Rule>, req: Request, context: Context)
    requires AllAlike(rs, qs, req, context)
    ensures var r, q := FirstDeciding(rs, req, context), FirstDeciding(qs, req, context);
            r.Some? == q.Some? && (r.Some? ==> Alike(r.value, q.value, req, context))
    decreases |rs|
  {
    if rs != [] {
      assert Alike(rs[0], qs[0], req, context);
      forall i | 0 <= i < |rs| - 1
        ensures Alike(rs[1..][i], qs[1..][i], req, context)
      {
        assert Alike(rs[i + 1], qs[i + 1], req, context);
      }
      AlikeFirst(rs[1..], qs[1..], req, context);
    }
  }

  lemma {:induction false} AlikeBlocked(rs: seq<Rule>, qs: seq<Rule>, req: Request, context: Context)
    requires AllAlike(rs, qs, req, context) && AnyBlocked(rs, req, context)
    ensures AnyBlocked(qs, req, context)
  {
    var i :| 0 <= i < |rs| && FitOf(rs[i], req, context) == Blocked;
    assert Alike(rs[i], qs[i], req, context) && qs[i] in qs;
  }

  lemma {:induction false} AlikeListsDecideAlike(rs: seq<Rule>, qs: seq<Rule>, req: Request, context: Context,
                                                 rulesHash: Hash, state: Limiter)
    requires AllAlike(rs, qs, req, context)
    ensures var (d, s) := Decide(rs, req, context, rulesHash, state);
            var (e, t) := Decide(qs, req, context, rulesHash, state);
            See(d) == See(e) && s == t
  {
    AlikeFirst(rs, qs, req, context);
    if AnyBlocked(rs, req, context) {
      AlikeBlocked(rs, qs, req, context);
    }
    if AnyBlocked(qs, req, context) {
      forall i | 0 <= i < |qs|
        ensures Alike(qs[i], rs[i], req, context)
      {
        assert Alike(rs[i], qs[i], req, context);
      }
      AlikeBlocked(qs, rs, req, context);
    }
    if FirstDeciding(rs, req, context).Some? {
      FirstDecidingDecides(rs, req, context);
      FirstDecidingDecides(qs, req, context);
    }
  }

  // The rules of a resource and action, and then those of the action, as the two buckets hold them.
  function Selected(rules: seq<Rule>, entry: Entry): seq<Rule> {
    Select(rules, entry.resource, entry.action) + Select(rules, "*", entry.action)
  }

  lemma {:induction false} AlikeSelectionsDecideAlike(
    rs: seq<Rule>, qs: seq<Rule>, entry: Entry, req: Request, context: Context, rulesHash: Hash, state: Limiter)
    requires AllAlike(rs, qs, req, context)
    ensures var (d, s) := Decide(Selected(rs, entry), req, context, rulesHash, state);
            var (e, t) := Decide(Selected(qs, entry), req, context, rulesHash, state);
            See(d) == See(e) && s == t
  {
    SelectionsAreAlike(rs, qs, entry.resource, entry.action, req, context);
    SelectionsAreAlike(rs, qs, "*", entry.action, req, context);
    AlikeConcat(Select(rs, entry.resource, entry.action), Select(rs, "*", entry.action),
                Select(qs, entry.resource, entry.action), Select(qs, "*", entry.action), req, context);
    AlikeListsDecideAlike(Selected(rs, entry), Selected(qs, entry), req, context, rulesHash, state);
  }

  /**
   Two permission lists with the same canonical form decide every request alike, to the reason, the
   matched rule and the limiter's new state, where nothing of consequence in their values is inherited and
   the body names no empty parameter beside one that sorts apart from it.
   */
  lemma {:induction false} CanonicalFormDecides(
    le: Order, rs: seq<Rule>, qs: seq<Rule>, entry: Entry, req: Request, context: Context, state: Limiter)
    requires Canonical(le, rs) == Canonical(le, qs) && !EmptyNameMoves(le, req.input) && OwnRules(rs) && OwnRules(qs)
    ensures var (d, s) := Decide(Selected(rs, entry), req, context, RulesHash(le, rs), state);
            var (e, t) := Decide(Selected(qs, entry), req, context, RulesHash(le, qs), state);
            See(d) == See(e) && s == t
  {
    EqualFormsAreAlike(le, rs, qs, req, context);
    AlikeSelectionsDecideAlike(rs, qs, entry, req, context, RulesHash(le, rs), state);
  }

  // ---------------------------------------------------------------- what may be inherited, exactly

  // Guards of one canonical form do the same to every input, for prototypes of these sets.
  ghost predicate FormDecidesGuards(le: Order, guards: iset<Json>, rules: iset<Json>, limits: iset<Json>) {
    forall g, h, input ::
      GuardsFrom(guards, rules, limits, g) && GuardsFrom(guards, rules, limits, h)
      && CanonicalPart(le, g) == CanonicalPart(le, h) && !EmptyNameMoves(le, input) ==>
        SameGuards(g, h, input)
  }

  ghost predicate FormDecidesWhere(le: Order, wheres: iset<Json>, windows: iset<Json>) {
    forall v, w, req, context ::
      WhereFrom(wheres, windows, v) && WhereFrom(wheres, windows, w) && CanonicalPart(le, v) == CanonicalPart(le, w) ==>
        MatchesWhere(v, req, context) == MatchesWhere(w, req, context)
  }

  lemma {:induction false} SameOwnPartSameForm(le: Order, g: Json, h: Json)
    requires OwnPart(g) == OwnPart(h)
    ensures CanonicalPart(le, g) == CanonicalPart(le, h)
  {
    OwnPartKeepsIncludes(g, Null);
    OwnPartKeepsIncludes(h, Null);
  }

  /**
   For guard values with prototypes of given sets, on themselves, on their value rules and on their rate
   limits: the canonical form alone decides what they do to inputs on which sorting does not matter,
   exactly when each of those prototypes is inert there.
   */
  lemma {:induction false} FormDecidesGuardsExactly(
    le: Order, guards: iset<Json>, rules: iset<Json>, limits: iset<Json>)
    ensures FormDecidesGuards(le, guards, rules, limits) <==> AllInertGuards(guards, rules, limits)
  {
    OwnPartDecidesGuardsExactly(guards, rules, limits);
    if FormDecidesGuards(le, guards, rules, limits) {
      forall g, h, input: Input | GuardsFrom(guards, rules, limits, g) && GuardsFrom(guards, rules, limits, h)
                                  && OwnPart(g) == OwnPart(h) && !input.inBody("")
        ensures SameGuards(g, h, input)
      {
        SameOwnPartSameForm(le, g, h);
        assert !EmptyNameMoves(le, input);
      }
    }
    if AllInertGuards(guards, rules, limits) {
      forall g, h, input | GuardsFrom(guards, rules, limits, g) && GuardsFrom(guards, rules, limits, h)
                           && CanonicalPart(le, g) == CanonicalPart(le, h) && !EmptyNameMoves(le, input)
        ensures SameGuards(g, h, input)
      {
        FromInertIsOwn(guards, rules, limits, g);
        FromInertIsOwn(guards, rules, limits, h);
        GuardsOfForm(le, g, h, input);
      }
    }
  }

  /** Likewise for where clauses and their time windows. */
  lemma {:induction false} FormDecidesWhereExactly(le: Order, wheres: iset<Json>, windows: iset<Json>)
    ensures FormDecidesWhere(le, wheres, windows) <==> AllInertWhere(wheres, windows)
  {
    OwnPartDecidesWhereExactly(wheres, windows);
    if FormDecidesWhere(le, wheres, windows) {
      FormDecidesSoOwnPart(le, wheres, windows);
    }
    if AllInertWhere(wheres, windows) {
      InertSoFormDecides(le, wheres, windows);
    }
  }

  lemma {:induction false} FormDecidesSoOwnPart(le: Order, wheres: iset<Json>, windows: iset<Json>)
    requires FormDecidesWhere(le, wheres, windows)
    ensures OwnPartDecidesWhere(wheres, windows)
  {
    forall v, w, req, context | WhereFrom(wheres, windows, v) && WhereFrom(wheres, windows, w)
                                && OwnPart(v) == OwnPart(w)
      ensures MatchesWhere(v, req, context) == MatchesWhere(w, req, context)
    {
      SameOwnPartSameForm(le, v, w);
    }
  }

  lemma {:induction false} InertSoFormDecides(le: Order, wheres: iset<Json>, windows: iset<Json>)
    requires AllInertWhere(wheres, windows)
    ensures FormDecidesWhere(le, wheres, windows)
  {
    forall v, w, req, context | WhereFrom(wheres, windows, v) && WhereFrom(wheres, windows, w)
                                && CanonicalPart(le, v) == CanonicalPart(le, w)
      ensures MatchesWhere(v, req, context) == MatchesWhere(w, req, context)
    {
      InertIsOwnWhere(wheres, windows, v);
      InertIsOwnWhere(wheres, windows, w);
      SameWhere(le, v, w, req, context);
    }
  }

  lemma {:induction false} InertIsOwnWhere(wheres: iset<Json>, windows: iset<Json>, w: Json)
    requires AllInertWhere(wheres, windows) && WhereFrom(wheres, windows, w)
    ensures OwnWhere(w)
  {
  }

  // ---------------------------------------------------------------- where the canonical form says too little

  function DenyGuards(first: string, second: string): Json {
    Obj(map["denyParams" := Arr([Str(first), Str(second)])])
  }

  lemma {:induction false} SortOfTwo(le: Order, a: string, b: string)
    requires le(Str(a), Str(b)) != le(Str(b), Str(a))
    ensures CanonicalPart(le, DenyGuards(a, b)) == CanonicalPart(le, DenyGuards(b, a))
    ensures OwnGuards(DenyGuards(a, b)) && OwnGuards(DenyGuards(b, a))
  {
    SortedPair(le, Str(a), Str(b));
    SortedPair(le, Str(b), Str(a));
    PairGuards(le, a, b);
    PairGuards(le, b, a);
  }

  lemma {:induction false} SortOfOne(le: Order, x: Json)
    ensures Sort(le, [x]) == [x]
  {
    assert [x][..0] == [];
    assert Sort(le, []) == [] && Insert(le, x, []) == [x];
  }

  lemma {:induction false} InsertIntoOne(le: Order, y: Json, x: Json)
    ensures Insert(le, y, [x]) == if le(x, y) then [x, y] else [y, x]
  {
    assert [x][..0] == [] && Insert(le, y, []) == [y];
  }

  lemma {:induction false} SortedPair(le: Order, x: Json, y: Json)
    ensures Sort(le, [x, y]) == if le(x, y) then [x, y] else [y, x]
  {
    assert [x, y][..1] == [x];
    SortOfOne(le, x);
    InsertIntoOne(le, y, x);
  }

  lemma {:induction false} PairSorts(le: Order, a: string, b: string)
    ensures SortValue(le, Arr([Str(a), Str(b)])) == Arr(Sort(le, [Str(a), Str(b)]))
  {
    var items := [Str(a), Str(b)];
    assert seq(|items|, i requires 0 <= i < |items| => SortValue(le, items[i])) == items;
  }

  lemma {:induction false} PairIsOwn(a: string, b: string)
    ensures OwnPart(DenyGuards(a, b)) == DenyGuards(a, b) && OwnGuards(DenyGuards(a, b))
  {
    var items := [Str(a), Str(b)];
    assert seq(|items|, i requires 0 <= i < |items| => OwnPart(items[i])) == items;
    assert OwnPart(Arr(items)) == Arr(items);
    assert OwnPart(DenyGuards(a, b)).fields == DenyGuards(a, b).fields;
  }

  lemma {:induction false} PairGuards(le: Order, a: string, b: string)
    ensures OwnGuards(DenyGuards(a, b))
    ensures CanonicalPart(le, DenyGuards(a, b)) == Obj(map["denyParams" := Arr(Sort(le, [Str(a), Str(b)]))])
  {
    PairIsOwn(a, b);
    PairSorts(le, a, b);
    assert SortValue(le, DenyGuards(a, b)).fields == map["denyParams" := Arr(Sort(le, [Str(a), Str(b)]))];
  }

  lemma {:induction false} EmptyNameFirst(input: Input, k: string)
    requires input.bodyKeys.Some? && input.inBody("") && k != "" && input.inBody(k)
    ensures FirstFailure(DenyGuards("", k), input) != FirstFailure(DenyGuards(k, ""), input)
  {
    assert FirstDenied([Str(""), Str(k)], input) == Some("");
    assert FirstDenied([Str(k), Str("")], input) == Some(k);
  }

  // A comparison never puts each of two before the other in neither order.
  ghost predicate ComparesWithEmpty(le: Order) {
    forall k :: le(Str(""), Str(k)) || le(Str(k), Str(""))
  }

  // On this input guards of one canonical form fail alike, if nothing of consequence in them is inherited.
  ghost predicate FormDecides(le: Order, input: Input) {
    forall g, h :: OwnGuards(g) && OwnGuards(h) && CanonicalPart(le, g) == CanonicalPart(le, h) ==>
      FirstFailure(g, input) == FirstFailure(h, input)
  }

  /**
   Such guards with one canonical form fail alike on an input exactly when its body does not name an empty
   parameter beside one that sorts apart from it: the first denied name found is ignored if it is empty,
   and sorting moves it.
   */
  lemma {:induction false} SortedGuardsDecideExactly(le: Order, input: Input)
    requires ComparesWithEmpty(le)
    ensures FormDecides(le, input) <==> !EmptyNameMoves(le, input)
  {
    if EmptyNameMoves(le, input) {
      var k :| k != "" && input.inBody(k) && !(le(Str(""), Str(k)) && le(Str(k), Str("")));
      SortOfTwo(le, "", k);
      EmptyNameFirst(input, k);
    } else {
      forall g, h | OwnGuards(g) && OwnGuards(h) && CanonicalPart(le, g) == CanonicalPart(le, h)
        ensures FirstFailure(g, input) == FirstFailure(h, input)
      {
        GuardsOfForm(le, g, h, input);
      }
    }
  }

  // ---------------------------------------------------------------- what lies on a prototype

  function DryRunOnly(): Json {
    Obj(map["dryRunOnly" := Bool(true)])
  }

  // A rule without conditions but for its guards.
  function GuardedRule(id: string, action: string, guards: Json): Rule {
    Rule(id, Direct, action, "*", Null, guards)
  }

  lemma {:induction false} SameHash(le: Order, id: string, action: string, g: Json, h: Json)
    requires CanonicalPart(le, g) == CanonicalPart(le, h)
    ensures RulesHash(le, [GuardedRule(id, action, g)]) == RulesHash(le, [GuardedRule(id, action, h)])
  {
    var rs, qs := [GuardedRule(id, action, g)], [GuardedRule(id, action, h)];
    assert Canonical(le, rs)[0] == Canonical(le, qs)[0];
    assert Canonical(le, rs) == Canonical(le, qs);
  }

  lemma {:induction false} InheritedDryRun(input: Input)
    requires !input.dryRun
    ensures FirstFailure(Obj(map[PROTO := DryRunOnly()]), input) == Some(InputGuards.DryRunOnly)
  {
    var g := Obj(map[PROTO := DryRunOnly()]);
    forall key | key != PROTO ensures Get(g, key) == if key == "dryRunOnly" then Bool(true) else Null {
      assert Get(g, key) == Get(DryRunOnly(), key);
    }
  }

  /**
   A guard on a prototype is not in the canonical form: with one hash, a list that allows dry runs only
   denies a request that the same list without that guard allows.
   */
  lemma {:induction false} PrototypeIsNotInTheHash(le: Order, req: Request, context: Context, state: Limiter)
    requires !req.input.dryRun
    ensures var guarded := [GuardedRule("r", "a", Obj(map["__proto__" := Obj(map["dryRunOnly" := Bool(true)])]))];
            var free := [GuardedRule("r", "a", Obj(map[]))];
            && RulesHash(le, guarded) == RulesHash(le, free)
            && Decide(guarded, req, context, RulesHash(le, guarded), state) == (Deny(InputGuard), state)
            && Decide(free, req, context, RulesHash(le, free), state) == (RuleMatch(free[0]), state)
  {
    var g, h := Obj(map[PROTO := DryRunOnly()]), Obj(map[]);
    assert OwnPart(g).fields == OwnPart(h).fields;
    SameHash(le, "r", "a", g, h);
    InheritedDryRun(req.input);
    assert FirstFailure(h, req.input) == None && !Meters(h, req.input);
    assert FitOf(GuardedRule("r", "a", g), req, context) == Blocked;
    assert FitOf(GuardedRule("r", "a", h), req, context) == Decides;
    DecideOne(GuardedRule("r", "a", g), req, context, RulesHash(le, [GuardedRule("r", "a", g)]), state);
    DecideOne(GuardedRule("r", "a", h), req, context, RulesHash(le, [GuardedRule("r", "a", h)]), state);
  }
}
