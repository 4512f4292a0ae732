/**
 What each condition of a where clause and each input guard asks for, in the terms of the schema they are
 written in: lists of names, flags, dates and limits, each present or absent.
 */
module Conditions {
  import opened Wrappers
  import opened Json
  import opened CompiledRules
  import opened InputGuards
  import opened Authorize
  import opened Prototypes

  function Strings(names: seq<string>): Json {
    Arr(seq(|names|, i requires 0 <= i < |names| => Str(names[i])))
  }

  function Names(names: Option<seq<string>>): Json {
    if names.Some? then Strings(names.value) else Null
  }

  function Text(text: Option<string>): Json {
    if text.Some? then Str(text.value) else Null
  }

  function Number(n: Option<int>): Json {
    if n.Some? then Num(n.value) else Null
  }

  // The object of these fields, without the absent ones.
  function Object(fields: map<string, Json>): Json {
    Obj(map key | key in fields && fields[key] != Null :: fields[key])
  }

  lemma {:induction false} ObjectReads(fields: map<string, Json>, key: string)
    requires PROTO !in fields
    ensures Get(Object(fields), key) == if key in fields then fields[key] else Null
    ensures Truthy(Object(fields))
  {
  }

  lemma {:induction false} StringsInclude(names: seq<string>, v: string)
    ensures HasString(Strings(names), v) <==> v in names
  {
    var items := Strings(names).items;
    if v in names {
      var i :| 0 <= i < |names| && names[i] == v;
      assert items[i] == Str(v);
    }
    if Str(v) in items {
      var i :| 0 <= i < |items| && items[i] == Str(v);
      assert names[i] == v;
    }
  }

  // ---------------------------------------------------------------- where clauses

  datatype Clause = Clause(
    bundleIds: Option<seq<string>>,
    pipelineIds: Option<seq<string>>,
    triggerKinds: Option<seq<string>>,
    actionKinds: Option<seq<string>>,
    recipientTagsAny: Option<seq<string>>,
    environments: Option<seq<string>>,
    systemOnly: bool,
    ownerIsSelf: bool,
    since: Option<string>,
    until: Option<string>)

  function WindowJson(since: Option<string>, until: Option<string>): Json {
    Object(map["since" := Text(since), "until" := Text(until)])
  }

  function ClauseFields(c: Clause): map<string, Json> {
    map["bundleIds" := Names(c.bundleIds), "pipelineIds" := Names(c.pipelineIds),
        "triggerKinds" := Names(c.triggerKinds), "actionKinds" := Names(c.actionKinds),
        "recipientTagsAny" := Names(c.recipientTagsAny), "environments" := Names(c.environments),
        "systemOnly" := Bool(c.systemOnly), "ownerIsSelf" := Bool(c.ownerIsSelf),
        "timeWindow" := WindowJson(c.since, c.until)]
  }

  function ClauseJson(c: Clause): Json {
    Object(ClauseFields(c))
  }

  // A list that is given has to name something that the request does.
  predicate Meets(names: Option<seq<string>>, found: seq<string>) {
    names.Some? ==> exists v :: v in names.value && v in found
  }

  // The date of a text that is given, if it is one.
  function Date(text: Option<string>, context: Context): Option<int> {
    if text.Some? && text.value != "" then context.parseDate(text.value) else None
  }

  predicate Between(since: Option<int>, now: int, until: Option<int>) {
    (since.Some? ==> since.value <= now) && (until.Some? ==> now <= until.value)
  }

  // The clause's conditions, each in its own terms.
  predicate ClauseHolds(c: Clause, req: Request, context: Context) {
    && Meets(c.bundleIds, req.bundleIds) && Meets(c.pipelineIds, req.pipelineIds)
    && Meets(c.triggerKinds, req.triggerKinds) && Meets(c.actionKinds, req.actionKinds)
    && Meets(c.recipientTagsAny, req.tags) && Meets(c.environments, req.environments)
    && (c.systemOnly ==> context.userId == context.systemUserId)
    && (c.ownerIsSelf ==> context.userId in req.owners)
    && Between(Date(c.since, context), req.now, Date(c.until, context))
  }

  lemma {:induction false} ListMeans(c: Clause, key: string, names: Option<seq<string>>, found: seq<string>)
    requires key in ClauseFields(c) && ClauseFields(c)[key] == Names(names)
    ensures ListHolds(ClauseJson(c), key, found) <==> Meets(names, found)
  {
    ObjectReads(ClauseFields(c), key);
    if names.Some? {
      forall v ensures HasString(Strings(names.value), v) <==> v in names.value {
        StringsInclude(names.value, v);
      }
    }
  }

  lemma {:induction false} WindowMeans(since: Option<string>, until: Option<string>, context: Context, now: int)
    ensures InTimeWindow(WindowJson(since, until), context, now)
            <==> Between(Date(since, context), now, Date(until, context))
    ensures Truthy(WindowJson(since, until))
  {
    ObjectReads(map["since" := Text(since), "until" := Text(until)], "since");
    ObjectReads(map["since" := Text(since), "until" := Text(until)], "until");
  }

  lemma {:induction false} ListsMean(c: Clause, req: Request)
    ensures ListHolds(ClauseJson(c), "bundleIds", req.bundleIds) <==> Meets(c.bundleIds, req.bundleIds)
    ensures ListHolds(ClauseJson(c), "pipelineIds", req.pipelineIds) <==> Meets(c.pipelineIds, req.pipelineIds)
    ensures ListHolds(ClauseJson(c), "triggerKinds", req.triggerKinds) <==> Meets(c.triggerKinds, req.triggerKinds)
    ensures ListHolds(ClauseJson(c), "actionKinds", req.actionKinds) <==> Meets(c.actionKinds, req.actionKinds)
    ensures ListHolds(ClauseJson(c), "recipientTagsAny", req.tags) <==> Meets(c.recipientTagsAny, req.tags)
    ensures ListHolds(ClauseJson(c), "environments", req.environments) <==> Meets(c.environments, req.environments)
  {
    ListMeans(c, "bundleIds", c.bundleIds, req.bundleIds);
    ListMeans(c, "pipelineIds", c.pipelineIds, req.pipelineIds);
    ListMeans(c, "triggerKinds", c.triggerKinds, req.triggerKinds);
    ListMeans(c, "actionKinds", c.actionKinds, req.actionKinds);
    ListMeans(c, "recipientTagsAny", c.recipientTagsAny, req.tags);
    ListMeans(c, "environments", c.environments, req.environments);
  }

  /**
   A clause matches exactly when every list it gives names something that the request names of that kind,
   it asks for the system user or the owner only of them, and now lies between its dates, ends included; a
   text that is no date bounds nothing.
   */
  lemma {:induction false} ClauseMeans(c: Clause, req: Request, context: Context)
    ensures MatchesWhere(ClauseJson(c), req, context) <==> ClauseHolds(c, req, context)
  {
    ListsMean(c, req);
    WindowMeans(c.since, c.until, context, req.now);
    ObjectReads(ClauseFields(c), "systemOnly");
    ObjectReads(ClauseFields(c), "ownerIsSelf");
    ObjectReads(ClauseFields(c), "timeWindow");
  }

  const CONDITIONS := {"bundleIds", "pipelineIds", "triggerKinds", "actionKinds", "recipientTagsAny",
                       "environments", "systemOnly", "ownerIsSelf", "timeWindow"}

  lemma {:induction false} OneCondition(key: string, j: Json, req: Request, context: Context)
    requires key in CONDITIONS
    ensures MatchesWhere(Single(key, j), req, context) <==>
            Truthy(j) ==>
              match key
              case "bundleIds" => ListIncludes(j, req.bundleIds)
              case "pipelineIds" => ListIncludes(j, req.pipelineIds)
              case "triggerKinds" => ListIncludes(j, req.triggerKinds)
              case "actionKinds" => ListIncludes(j, req.actionKinds)
              case "recipientTagsAny" => ListIncludes(j, req.tags)
              case "environments" => ListIncludes(j, req.environments)
              case "systemOnly" => context.userId == context.systemUserId
              case "ownerIsSelf" => context.userId in req.owners
              case _ => InTimeWindow(j, context, req.now)
  {
    forall k ensures Get(Single(key, j), k) == if k == key then j else Null {
      SingleReads(key, j, k);
    }
  }

  /** Any clause, well typed or not, matches exactly when each of its conditions would by itself. */
  lemma {:induction false} WhereIsItsConditions(w: Json, req: Request, context: Context)
    ensures MatchesWhere(w, req, context)
            <==> forall key :: key in CONDITIONS ==> MatchesWhere(Single(key, Get(w, key)), req, context)
  {
    forall key | key in CONDITIONS
      ensures MatchesWhere(w, req, context) ==> MatchesWhere(Single(key, Get(w, key)), req, context)
    {
      OneCondition(key, Get(w, key), req, context);
    }
    if forall key :: key in CONDITIONS ==> MatchesWhere(Single(key, Get(w, key)), req, context) {
      OneCondition("bundleIds", Get(w, "bundleIds"), req, context);
      OneCondition("pipelineIds", Get(w, "pipelineIds"), req, context);
      OneCondition("triggerKinds", Get(w, "triggerKinds"), req, context);
      OneCondition("actionKinds", Get(w, "actionKinds"), req, context);
      OneCondition("recipientTagsAny", Get(w, "recipientTagsAny"), req, context);
      OneCondition("environments", Get(w, "environments"), req, context);
      OneCondition("systemOnly", Get(w, "systemOnly"), req, context);
      OneCondition("ownerIsSelf", Get(w, "ownerIsSelf"), req, context);
      OneCondition("timeWindow", Get(w, "timeWindow"), req, context);
    }
  }

  // ---------------------------------------------------------------- input guards

  datatype ValueGuard = ValueGuard(path: string, oneOf: Option<seq<Json>>, pattern: Option<string>, maxLen: Option<int>)

  datatype Guards = Guards(
    allowParams: Option<seq<string>>,
    denyParams: Option<seq<string>>,
    valueRules: seq<ValueGuard>,
    dryRunOnly: bool,
    rateLimit: Option<Limits>)

  function RuleFields(v: ValueGuard): map<string, Json> {
    map["path" := Str(v.path), "oneOf" := if v.oneOf.Some? then Arr(v.oneOf.value) else Null,
        "matches" := Text(v.pattern), "maxLen" := Number(v.maxLen)]
  }

  function LimitFields(l: Limits): map<string, Json> {
    map["burst" := Number(l.burst), "perMin" := Number(l.perMin), "perHour" := Number(l.perHour)]
  }

  function RuleJsons(vs: seq<ValueGuard>): seq<Json> {
    seq(|vs|, i requires 0 <= i < |vs| => Object(RuleFields(vs[i])))
  }

  function GuardFields(g: Guards): map<string, Json> {
    map["allowParams" := Names(g.allowParams), "denyParams" := Names(g.denyParams),
        "valueRules" := Arr(RuleJsons(g.valueRules)), "dryRunOnly" := Bool(g.dryRunOnly),
        "rateLimit" := if g.rateLimit.Some? then Object(LimitFields(g.rateLimit.value)) else Null]
  }

  function GuardsJson(g: Guards): Json {
    Object(GuardFields(g))
  }

  // The body has a parameter that is not allowed.
  predicate HasExtra(g: Guards, input: Input) {
    g.allowParams.Some? && input.bodyKeys.Some? && exists k :: k in input.bodyKeys.value && k !in g.allowParams.value
  }

  // The first of the denied names that the body has is not the empty one.
  predicate HasDenied(g: Guards, input: Input) {
    && g.denyParams.Some? && input.bodyKeys.Some?
    && exists i :: 0 <= i < |g.denyParams.value| && FirstIn(g.denyParams.value, i, input) && g.denyParams.value[i] != ""
  }

  predicate FirstIn(names: seq<string>, i: nat, input: Input)
    requires i < |names|
  {
    input.inBody(names[i]) && forall j :: 0 <= j < i ==> !input.inBody(names[j])
  }

  predicate RuleAllows(v: ValueGuard, input: Input) {
    var value := input.valueAt(v.path);
    && (v.oneOf.Some? ==> value.Some? && !value.value.Arr? && !value.value.Obj? && value.value in v.oneOf.value)
    && (value.Some? && value.value.Str? ==>
          && (v.pattern.Some? && v.pattern.value != "" ==> input.regexTest(v.pattern.value, value.value.s))
          && (v.maxLen.Some? ==> |value.value.s| <= v.maxLen.value))
  }

  lemma {:induction false} RuleMeans(v: ValueGuard, input: Input)
    ensures ValueRuleHolds(Object(RuleFields(v)), input) <==> RuleAllows(v, input)
  {
    ObjectReads(RuleFields(v), "path");
    ObjectReads(RuleFields(v), "oneOf");
    ObjectReads(RuleFields(v), "matches");
    ObjectReads(RuleFields(v), "maxLen");
  }

  lemma {:induction false} AllowMeans(g: Guards, input: Input)
    ensures AllowParamsHold(GuardsJson(g), input) <==> !HasExtra(g, input)
  {
    ObjectReads(GuardFields(g), "allowParams");
    if g.allowParams.Some? {
      forall k ensures HasString(Strings(g.allowParams.value), k) <==> k in g.allowParams.value {
        StringsInclude(g.allowParams.value, k);
      }
    }
  }

  lemma {:induction false} FirstDeniedIs(names: seq<string>, input: Input)
    ensures match FirstDenied(Strings(names).items, input)
            case None => forall j :: 0 <= j < |names| ==> !input.inBody(names[j])
            case Some(name) => exists i :: 0 <= i < |names| && FirstIn(names, i, input) && names[i] == name
    decreases |names|
  {
    if names != [] {
      var rest := names[1..];
      assert Strings(names).items[1..] == Strings(rest).items;
      FirstDeniedIs(rest, input);
      if !input.inBody(names[0]) && FirstDenied(Strings(rest).items, input).Some? {
        var i :| 0 <= i < |rest| && FirstIn(rest, i, input)
                 && rest[i] == FirstDenied(Strings(rest).items, input).value;
        assert FirstIn(names, i + 1, input);
      }
      forall j | 0 < j < |names| ensures names[j] == rest[j - 1] {
      }
    }
  }

  lemma {:induction false} DenyMeans(g: Guards, input: Input)
    ensures DenyParamsHold(GuardsJson(g), input) <==> !HasDenied(g, input)
  {
    ObjectReads(GuardFields(g), "denyParams");
    if g.denyParams.Some? {
      FirstDeniedIs(g.denyParams.value, input);
    }
  }

  lemma {:induction false} RulesMean(g: Guards, input: Input)
    ensures ValueRulesHold(GuardsJson(g), input) <==> forall v :: v in g.valueRules ==> RuleAllows(v, input)
  {
    ObjectReads(GuardFields(g), "valueRules");
    var jsons := RuleJsons(g.valueRules);
    forall i | 0 <= i < |jsons| ensures ValueRuleHolds(jsons[i], input) <==> RuleAllows(g.valueRules[i], input) {
      RuleMeans(g.valueRules[i], input);
    }
    forall v | v in g.valueRules ensures exists i :: 0 <= i < |jsons| && g.valueRules[i] == v && jsons[i] in jsons {
      var i :| 0 <= i < |jsons| && g.valueRules[i] == v;
      assert jsons[i] in jsons;
    }
  }

  /**
   The guards fail, in this order, on a parameter that is not allowed, on one that is denied, on a value that
   a rule does not allow, and on a request that is not a dry run where only those are; and on nothing else.
   */
  lemma {:induction false} GuardsMean(g: Guards, input: Input)
    ensures FirstFailure(GuardsJson(g), input)
            == if HasExtra(g, input) then Some(AllowedParams)
               else if HasDenied(g, input) then Some(DeniedParam)
               else if exists v :: v in g.valueRules && !RuleAllows(v, input) then Some(ValueRule)
               else if g.dryRunOnly && !input.dryRun then Some(InputGuards.DryRunOnly)
               else None
  {
    AllowMeans(g, input);
    DenyMeans(g, input);
    RulesMean(g, input);
    ObjectReads(GuardFields(g), "dryRunOnly");
  }

  /** A request that passes them is metered exactly if there is a rate limit, and by the numbers it gives. */
  lemma {:induction false} LimitsMean(g: Guards, input: Input)
    ensures Meters(GuardsJson(g), input) <==> g.rateLimit.Some? && FirstFailure(GuardsJson(g), input) == None
    ensures g.rateLimit.Some? ==> LimitsOf(Get(GuardsJson(g), "rateLimit")) == g.rateLimit.value
  {
    ObjectReads(GuardFields(g), "rateLimit");
    if g.rateLimit.Some? {
      ObjectReads(LimitFields(g.rateLimit.value), "burst");
      ObjectReads(LimitFields(g.rateLimit.value), "perMin");
      ObjectReads(LimitFields(g.rateLimit.value), "perHour");
    }
  }

  // ---------------------------------------------------------------- the decision on one rule

  // What the guards before the rate limit refuse.
  predicate Refuses(g: Guards, input: Input) {
    || HasExtra(g, input) || HasDenied(g, input)
    || (exists v :: v in g.valueRules && !RuleAllows(v, input))
    || (g.dryRunOnly && !input.dryRun)
  }

  /**
   On a list of one rule with such a clause and such guards: a miss if the clause does not hold, the guards'
   denial if one of them refuses, and else a match, unless the rule's own rate limit is exceeded. Only that
   last verdict looks at the limiter and leaves a timestamp, under the rule's id, the list's hash and the user.
   */
  lemma {:induction false} OneRuleDecides(id: string, source: Source, action: string, c: Clause, g: Guards,
                                          req: Request, context: Context, rulesHash: Hash, state: Limiter)
    ensures var r := Rule(id, source, action, "*", ClauseJson(c), GuardsJson(g));
            var key := Key(rulesHash, id, context.userId);
            var entries := (if key in state then state[key] else []) + [req.now];
            Decide([r], req, context, rulesHash, state)
            == if !ClauseHolds(c, req, context) then (Deny(WhereMiss), state)
               else if Refuses(g, req.input) then (Deny(InputGuard), state)
               else if g.rateLimit == None then (RuleMatch(r), state)
               else (if WithinLimits(g.rateLimit.value, entries, req.now) then RuleMatch(r) else Deny(RateLimited),
                     state[key := Since(entries, req.now - 60 * 60 * 1000)])
  {
    var r := Rule(id, source, action, "*", ClauseJson(c), GuardsJson(g));
    var key := KeyOf(r, rulesHash, context);
    DecideOne(r, req, context, rulesHash, state);
    ClauseMeans(c, req, context);
    GuardsMean(g, req.input);
    LimitsMean(g, req.input);
    RecordedIsSince(InputGuards.Entries(state, key), req.now);
    if g.rateLimit.Some? {
      PruningOnce(g.rateLimit.value, InputGuards.Entries(state, key), req.now);
    }
  }

  lemma {:induction false} RecordedIsSince(entries: seq<int>, now: int)
    ensures Recorded(entries, now) == Since(entries + [now], now - HOUR)
  {
    SinceAppend(entries, [now], now - HOUR);
  }

  lemma {:induction false} PruningOnce(limits: Limits, entries: seq<int>, now: int)
    ensures WithinLimits(limits, Recorded(entries, now), now) <==> WithinLimits(limits, entries + [now], now)
  {
    RecordedIsSince(entries, now);
    SinceNested(entries + [now], now - HOUR, now - SECOND);
    SinceNested(entries + [now], now - HOUR, now - MINUTE);
    SinceNested(entries + [now], now - HOUR, now - HOUR);
  }
}
