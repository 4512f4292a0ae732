/**
 What a prototype can change. Sanitising turns a field named by PROTO into the prototype of its object, and
 the evaluator reads through it, but the canonical form does not show it. A prototype is inert where no
 object's reading can change by having it.
 */
module Prototypes {
  import opened Wrappers
  import opened Json
  import opened InputGuards
  import opened Authorize
  import opened Readings

  predicate IsDateText(j: Json) {
    j.Str? && Truthy(j)
  }

  // A value rule with nothing in it that can fail.
  predicate NeverFails(rule: Json) {
    && !Truthy(Get(rule, "oneOf"))
    && (Get(rule, "path").Str? ==>
          && !(Get(rule, "matches").Str? && Truthy(Get(rule, "matches")))
          && !Get(rule, "maxLen").Num?)
  }

  predicate HasNamedKey(deny: Json) {
    deny.Arr? && exists k :: k in deny.items && k.Str? && k.s != ""
  }

  // ---------------------------------------------------------------- inert prototypes, by the kind of object

  predicate InertWindow(p: Json) {
    !IsDateText(Get(p, "since")) && !IsDateText(Get(p, "until"))
  }

  predicate InertLists(p: Json) {
    && !Truthy(Get(p, "bundleIds")) && !Truthy(Get(p, "pipelineIds"))
    && !Truthy(Get(p, "triggerKinds")) && !Truthy(Get(p, "actionKinds"))
    && !Truthy(Get(p, "recipientTagsAny")) && !Truthy(Get(p, "environments"))
  }

  predicate InertWhere(p: Json) {
    && InertLists(p)
    && !Truthy(Get(p, "systemOnly")) && !Truthy(Get(p, "ownerIsSelf"))
    && InertWindow(Get(p, "timeWindow"))
  }

  predicate InertRule(p: Json) {
    && !Get(p, "path").Str? && !Truthy(Get(p, "oneOf"))
    && !(Get(p, "matches").Str? && Truthy(Get(p, "matches")))
    && !Get(p, "maxLen").Num?
  }

  predicate InertLimits(p: Json) {
    !Get(p, "burst").Num? && !Get(p, "perMin").Num? && !Get(p, "perHour").Num?
  }

  predicate InertGuards(p: Json) {
    && !Truthy(Get(p, "allowParams")) && !HasNamedKey(Get(p, "denyParams"))
    && (Get(p, "valueRules").Arr? ==> forall r :: r in Get(p, "valueRules").items ==> NeverFails(r))
    && !Truthy(Get(p, "dryRunOnly")) && !Truthy(Get(p, "rateLimit"))
  }

  // ---------------------------------------------------------------- values that inherit nothing that matters

  function ProtoOf(j: Json): Json {
    if j.Obj? && PROTO in j.fields then j.fields[PROTO] else Null
  }

  function Own(j: Json, key: string): Json {
    if j.Obj? && key in j.fields then j.fields[key] else Null
  }

  predicate OwnWhere(w: Json) {
    InertWhere(ProtoOf(w)) && InertWindow(ProtoOf(Own(w, "timeWindow")))
  }

  predicate OwnGuards(g: Json) {
    && InertGuards(ProtoOf(g))
    && (Own(g, "valueRules").Arr? ==> forall r :: r in Own(g, "valueRules").items ==> InertRule(ProtoOf(r)))
    && InertLimits(ProtoOf(Own(g, "rateLimit")))
  }

  // A field is the object's own or its prototype's; the own part has only its own.
  lemma {:induction false} ReadsOwnOrInherited(j: Json, key: string)
    requires key != PROTO
    ensures if j.Obj? && key in j.fields
            then Get(j, key) == j.fields[key] && Get(OwnPart(j), key) == OwnPart(j.fields[key])
            else Get(j, key) == Get(ProtoOf(j), key) && Get(OwnPart(j), key) == Null
  {
  }

  lemma {:induction false} OwnPartKeepsIncludes(j: Json, v: Json)
    ensures Includes(OwnPart(j), v) == Includes(j, v) && Truthy(OwnPart(j)) == Truthy(j)
    ensures j.Str? || j.Num? ==> OwnPart(j) == j
    ensures OwnPart(j).Arr? == j.Arr? && OwnPart(j).Str? == j.Str? && OwnPart(j).Num? == j.Num?
  {
    if j.Arr? && !v.Arr? && !v.Obj? {
      var items := OwnPart(j).items;
      if v in j.items {
        var i :| 0 <= i < |j.items| && j.items[i] == v;
        assert items[i] == OwnPart(v) == v;
      }
      if v in items {
        var i :| 0 <= i < |items| && items[i] == v;
        assert OwnPart(j.items[i]) == v && !j.items[i].Arr? && !j.items[i].Obj?;
        assert j.items[i] == v;
      }
    }
  }

  lemma {:induction false} OwnPartKeepsNames(keys: seq<Json>, input: Input)
    ensures var inside := seq(|keys|, i requires 0 <= i < |keys| => OwnPart(keys[i]));
            FirstDenied(inside, input) == FirstDenied(keys, input)
    decreases |keys|
  {
    if keys != [] {
      var inside := seq(|keys|, i requires 0 <= i < |keys| => OwnPart(keys[i]));
      var rest := keys[1..];
      assert inside[1..] == seq(|rest|, i requires 0 <= i < |rest| => OwnPart(rest[i]));
      OwnPartKeepsNames(rest, input);
    }
  }

  // ---------------------------------------------------------------- the own part of a where clause

  lemma {:induction false} OwnList(w: Json, key: string, values: seq<string>)
    requires key != PROTO && !Truthy(Get(ProtoOf(w), key))
    ensures ListHolds(OwnPart(w), key, values) == ListHolds(w, key, values)
  {
    ReadsOwnOrInherited(w, key);
    var list := Own(w, key);
    forall v ensures HasString(OwnPart(list), v) == HasString(list, v) {
      OwnPartKeepsIncludes(list, Str(v));
    }
    OwnPartKeepsIncludes(list, Null);
  }

  lemma {:induction false} OwnFlag(j: Json, key: string)
    requires key != PROTO && !Truthy(Get(ProtoOf(j), key))
    ensures Truthy(Get(OwnPart(j), key)) == Truthy(Get(j, key))
  {
    ReadsOwnOrInherited(j, key);
    OwnPartKeepsIncludes(Own(j, key), Null);
  }

  lemma {:induction false} OwnDate(window: Json, key: string, context: Context)
    requires key != PROTO && !IsDateText(Get(ProtoOf(window), key))
    ensures DateOf(context, Get(OwnPart(window), key)) == DateOf(context, Get(window, key))
  {
    ReadsOwnOrInherited(window, key);
    OwnPartKeepsIncludes(Own(window, key), Null);
  }

  predicate WindowHolds(w: Json, context: Context, now: int) {
    Truthy(Get(w, "timeWindow")) ==> InTimeWindow(Get(w, "timeWindow"), context, now)
  }

  lemma {:induction false} DatelessWindowHolds(window: Json, context: Context, now: int)
    requires InertWindow(window)
    ensures InTimeWindow(window, context, now)
  {
  }

  lemma {:induction false} OwnWindow(w: Json, context: Context, now: int)
    requires InertWindow(Get(ProtoOf(w), "timeWindow")) && InertWindow(ProtoOf(Own(w, "timeWindow")))
    ensures WindowHolds(OwnPart(w), context, now) == WindowHolds(w, context, now)
  {
    ReadsOwnOrInherited(w, "timeWindow");
    var window := Own(w, "timeWindow");
    if w.Obj? && "timeWindow" in w.fields {
      OwnPartKeepsIncludes(window, Null);
      OwnDate(window, "since", context);
      OwnDate(window, "until", context);
    } else {
      DatelessWindowHolds(Get(w, "timeWindow"), context, now);
    }
  }

  lemma {:induction false} OwnPartKeepsWhere(w: Json, req: Request, context: Context)
    requires OwnWhere(w)
    ensures MatchesWhere(OwnPart(w), req, context) == MatchesWhere(w, req, context)
  {
    OwnPartKeepsIncludes(w, Null);
    OwnList(w, "bundleIds", req.bundleIds);
    OwnList(w, "pipelineIds", req.pipelineIds);
    OwnList(w, "triggerKinds", req.triggerKinds);
    OwnList(w, "actionKinds", req.actionKinds);
    OwnList(w, "recipientTagsAny", req.tags);
    OwnList(w, "environments", req.environments);
    OwnFlag(w, "systemOnly");
    OwnFlag(w, "ownerIsSelf");
    OwnWindow(w, context, req.now);
  }

  // ---------------------------------------------------------------- the own part of input guards

  lemma {:induction false} OwnAllowParams(g: Json, input: Input)
    requires !Truthy(Get(ProtoOf(g), "allowParams"))
    ensures AllowParamsHold(OwnPart(g), input) == AllowParamsHold(g, input)
  {
    ReadsOwnOrInherited(g, "allowParams");
    var allow := Own(g, "allowParams");
    OwnPartKeepsIncludes(allow, Null);
    forall k ensures HasString(OwnPart(allow), k) == HasString(allow, k) {
      OwnPartKeepsIncludes(allow, Str(k));
    }
  }

  lemma {:induction false} NamelessDeniesNothing(keys: seq<Json>, input: Input)
    requires !HasNamedKey(Arr(keys))
    ensures FirstDenied(keys, input) == None || FirstDenied(keys, input) == Some("")
    decreases |keys|
  {
    if keys != [] {
      assert keys[0] in keys && forall k :: k in keys[1..] ==> k in keys;
      NamelessDeniesNothing(keys[1..], input);
    }
  }

  lemma {:induction false} OwnDenyParams(g: Json, input: Input)
    requires !HasNamedKey(Get(ProtoOf(g), "denyParams"))
    ensures DenyParamsHold(OwnPart(g), input) == DenyParamsHold(g, input)
  {
    ReadsOwnOrInherited(g, "denyParams");
    var deny := Get(g, "denyParams");
    if deny.Arr? {
      if "denyParams" in g.fields {
        OwnPartKeepsNames(deny.items, input);
      } else {
        NamelessDeniesNothing(deny.items, input);
      }
    }
  }

  lemma {:induction false} NeverFailingRuleHolds(rule: Json, input: Input)
    requires NeverFails(rule)
    ensures ValueRuleHolds(rule, input)
  {
  }

  lemma {:induction false} OwnValueRule(rule: Json, input: Input)
    requires InertRule(ProtoOf(rule))
    ensures ValueRuleHolds(OwnPart(rule), input) == ValueRuleHolds(rule, input)
  {
    ReadsOwnOrInherited(rule, "path");
    ReadsOwnOrInherited(rule, "oneOf");
    ReadsOwnOrInherited(rule, "matches");
    ReadsOwnOrInherited(rule, "maxLen");
    OwnPartKeepsIncludes(Own(rule, "path"), Null);
    OwnPartKeepsIncludes(Own(rule, "matches"), Null);
    OwnPartKeepsIncludes(Own(rule, "maxLen"), Null);
    forall v ensures Includes(OwnPart(Own(rule, "oneOf")), v) == Includes(Own(rule, "oneOf"), v) {
      OwnPartKeepsIncludes(Own(rule, "oneOf"), v);
    }
    OwnPartKeepsIncludes(Own(rule, "oneOf"), Null);
  }

  lemma {:induction false} OwnValueRules(g: Json, input: Input)
    requires OwnGuards(g)
    ensures ValueRulesHold(OwnPart(g), input) == ValueRulesHold(g, input)
  {
    ReadsOwnOrInherited(g, "valueRules");
    var rules := Get(g, "valueRules");
    if rules.Arr? {
      if "valueRules" in g.fields {
        var items := OwnPart(rules).items;
        forall i | 0 <= i < |items| ensures ValueRuleHolds(items[i], input) == ValueRuleHolds(rules.items[i], input) {
          assert rules.items[i] in rules.items;
          OwnValueRule(rules.items[i], input);
        }
        forall r | r in rules.items && !ValueRuleHolds(r, input)
          ensures exists s :: s in items && !ValueRuleHolds(s, input)
        {
          var i :| 0 <= i < |items| && rules.items[i] == r;
          assert items[i] in items;
        }
        forall s | s in items && !ValueRuleHolds(s, input)
          ensures exists r :: r in rules.items && !ValueRuleHolds(r, input)
        {
          var i :| 0 <= i < |items| && items[i] == s;
          assert rules.items[i] in rules.items;
        }
      } else {
        forall r | r in rules.items ensures ValueRuleHolds(r, input) {
          NeverFailingRuleHolds(r, input);
        }
      }
    }
  }

  lemma {:induction false} OwnNumber(j: Json, key: string)
    requires key != PROTO && !Get(ProtoOf(j), key).Num?
    ensures NumberOf(Get(OwnPart(j), key)) == NumberOf(Get(j, key))
  {
    ReadsOwnOrInherited(j, key);
    OwnPartKeepsIncludes(Own(j, key), Null);
  }

  lemma {:induction false} OwnLimits(g: Json)
    requires !Truthy(Get(ProtoOf(g), "rateLimit")) && InertLimits(ProtoOf(Own(g, "rateLimit")))
    ensures LimitsOf(Get(OwnPart(g), "rateLimit")) == LimitsOf(Get(g, "rateLimit"))
  {
    ReadsOwnOrInherited(g, "rateLimit");
    var limit := Own(g, "rateLimit");
    if g.Obj? && "rateLimit" in g.fields {
      OwnNumber(limit, "burst");
      OwnNumber(limit, "perMin");
      OwnNumber(limit, "perHour");
    }
  }

  lemma {:induction false} OwnPartKeepsGuards(g: Json, input: Input)
    requires OwnGuards(g)
    ensures SameGuards(OwnPart(g), g, input)
  {
    OwnPartKeepsIncludes(g, Null);
    OwnAllowParams(g, input);
    OwnDenyParams(g, input);
    OwnValueRules(g, input);
    OwnFlag(g, "dryRunOnly");
    OwnFlag(g, "rateLimit");
    OwnLimits(g);
  }

  // ---------------------------------------------------------------- no weaker premise will do

  function WithProto(j: Json, p: Json): Json
    requires j.Obj?
  {
    Obj(j.fields[PROTO := p])
  }

  const EMPTY := Obj(map[])

  lemma {:induction false} WithProtoReads(j: Json, p: Json, key: string)
    requires j.Obj? && key != PROTO
    ensures Get(WithProto(j, p), key) == if key in j.fields then j.fields[key] else Get(p, key)
    ensures ProtoOf(WithProto(j, p)) == p && Own(WithProto(j, p), key) == Own(j, key)
  {
  }

  lemma {:induction false} WithProtoSameOwnPart(j: Json, p: Json)
    requires j.Obj? && PROTO !in j.fields
    ensures OwnPart(WithProto(j, p)) == OwnPart(j)
  {
    assert OwnPart(WithProto(j, p)).fields == OwnPart(j).fields;
  }

  // An input of which only what is given is there; no parameter has an empty name.
  function Probe(bodyKeys: Option<seq<string>>, param: string, value: Option<Json>, dryRun: bool): Input {
    Input(bodyKeys, k => k == param && k != "", path => value, dryRun, (pattern, text) => false)
  }

  function LongerThanAll(items: seq<Json>): (k: string)
    ensures forall j :: j in items && j.Str? ==> |j.s| < |k|
  {
    if items == [] then "k" else
    var k := LongerThanAll(items[1..]);
    if items[0].Str? && |items[0].s| >= |k| then items[0].s + "k" else k
  }

  lemma {:induction false} UnlistedName(allow: Json) returns (k: string)
    ensures !HasString(allow, k)
  {
    k := if allow.Arr? then LongerThanAll(allow.items) else "";
  }

  function Repeat(n: int): (s: string)
    ensures |s| == if n < 0 then 0 else n
  {
    if n <= 0 then "" else "k" + Repeat(n - 1)
  }

  lemma {:induction false} OnlyNamedHits(keys: seq<Json>, k: string, input: Input)
    requires Str(k) in keys && k != "" && forall x :: input.inBody(x) <==> x == k
    ensures FirstDenied(keys, input) == Some(k)
    decreases |keys|
  {
    if keys[0] != Str(k) {
      assert keys == [keys[0]] + keys[1..];
      OnlyNamedHits(keys[1..], k, input);
    }
  }

  // A value at which a rule that can fail does, read through path.
  lemma {:induction false} FailingValue(rule: Json) returns (value: Option<Json>)
    requires !NeverFails(rule)
    ensures !ValueRuleHolds(rule, Probe(None, "", value, false))
  {
    if Truthy(Get(rule, "oneOf")) {
      value := None;
    } else if Get(rule, "matches").Str? && Truthy(Get(rule, "matches")) {
      value := Some(Str(""));
    } else {
      var n := Get(rule, "maxLen").n;
      value := Some(Str(Repeat(n + 1)));
    }
  }

  lemma {:induction false} DenyingInput(deny: Json) returns (input: Input)
    requires HasNamedKey(deny)
    ensures input.bodyKeys == Some([]) && !input.inBody("")
    ensures FirstDenied(deny.items, input).Some? && FirstDenied(deny.items, input) != Some("")
  {
    var key :| key in deny.items && key.Str? && key.s != "";
    input := Probe(Some([]), key.s, None, false);
    OnlyNamedHits(deny.items, key.s, input);
  }

  // Guards that an inert prototype could not give to an object without any.
  lemma {:induction false} GuardsCanFail(p: Json) returns (input: Input)
    requires !InertGuards(p)
    ensures !input.inBody("") && !SameGuards(WithProto(EMPTY, p), EMPTY, input)
  {
    var g := WithProto(EMPTY, p);
    forall key | key != PROTO ensures Get(g, key) == Get(p, key) {
      WithProtoReads(EMPTY, p, key);
    }
    if Truthy(Get(p, "allowParams")) {
      var k := UnlistedName(Get(p, "allowParams"));
      input := Probe(Some([k]), "", None, false);
      assert k in [k];
    } else if HasNamedKey(Get(p, "denyParams")) {
      input := DenyingInput(Get(p, "denyParams"));
    } else if Truthy(Get(p, "dryRunOnly")) {
      input := Probe(None, "", None, false);
    } else if Truthy(Get(p, "rateLimit")) {
      input := Probe(None, "", None, true);
    } else {
      var rules := Get(p, "valueRules");
      var r :| r in rules.items && !NeverFails(r);
      var value := FailingValue(r);
      input := Probe(None, "", value, false);
    }
  }

  function Single(key: string, j: Json): Json {
    Obj(map[key := j])
  }

  lemma {:induction false} SingleOwnPart(key: string, j: Json, h: Json)
    requires key != PROTO && OwnPart(j) == OwnPart(h)
    ensures OwnPart(Single(key, j)) == OwnPart(Single(key, h))
  {
    assert OwnPart(Single(key, j)).fields == OwnPart(Single(key, h)).fields;
  }

  lemma {:induction false} SingleReads(key: string, j: Json, k: string)
    requires key != PROTO
    ensures Get(Single(key, j), k) == (if k == key then j else Null) == Own(Single(key, j), k)
    ensures ProtoOf(Single(key, j)) == Null && PROTO !in Single(key, j).fields
  {
  }

  function OneRule(rule: Json): Json {
    Single("valueRules", Arr([rule]))
  }

  // A rule that behaves differently with a prototype that is not inert.
  lemma {:induction false} RuleCanFail(p: Json) returns (rule: Json, input: Input)
    requires !InertRule(p)
    ensures rule.Obj? && PROTO !in rule.fields && input.bodyKeys == None && !input.inBody("")
    ensures ValueRuleHolds(WithProto(rule, p), input) != ValueRuleHolds(rule, input)
  {
    if Truthy(Get(p, "oneOf")) {
      rule, input := EMPTY, Probe(None, "", None, false);
    } else if Get(p, "path").Str? {
      rule, input := Obj(map["maxLen" := Num(-1)]), Probe(None, "", Some(Str("")), false);
    } else if Get(p, "maxLen").Num? {
      rule := Obj(map["path" := Str("")]);
      input := Probe(None, "", Some(Str(Repeat(Get(p, "maxLen").n + 1))), false);
    } else {
      rule, input := Obj(map["path" := Str("")]), Probe(None, "", Some(Str("")), false);
    }
    WithProtoReads(rule, p, "oneOf");
    WithProtoReads(rule, p, "path");
    WithProtoReads(rule, p, "maxLen");
    WithProtoReads(rule, p, "matches");
  }

  lemma {:induction false} OneRuleReads(rule: Json, input: Input)
    requires input.bodyKeys == None
    ensures ValueRulesHold(OneRule(rule), input) == ValueRuleHolds(rule, input)
    ensures FirstFailure(OneRule(rule), input) == if ValueRuleHolds(rule, input) then None else Some(ValueRule)
  {
    assert Get(OneRule(rule), "valueRules") == Arr([rule]);
    assert forall r :: r in [rule] <==> r == rule;
  }

  // The prototypes of a guard value, of its value rules and of its rate limit all come from these sets.
  ghost predicate GuardsFrom(guards: iset<Json>, rules: iset<Json>, limits: iset<Json>, g: Json) {
    && (g.Obj? && PROTO in g.fields ==> ProtoOf(g) in guards)
    && (Own(g, "valueRules").Arr? ==>
          forall r :: r in Own(g, "valueRules").items && r.Obj? && PROTO in r.fields ==> ProtoOf(r) in rules)
    && (Own(g, "rateLimit").Obj? && PROTO in Own(g, "rateLimit").fields ==> ProtoOf(Own(g, "rateLimit")) in limits)
  }

  ghost predicate AllInertGuards(guards: iset<Json>, rules: iset<Json>, limits: iset<Json>) {
    forall p ::
      (p in guards ==> InertGuards(p)) && (p in rules ==> InertRule(p)) && (p in limits ==> InertLimits(p))
  }

  ghost predicate AllInertWhere(wheres: iset<Json>, windows: iset<Json>) {
    forall p :: (p in wheres ==> InertWhere(p)) && (p in windows ==> InertWindow(p))
  }

  // Guards of one own part do the same to every input without an empty parameter name.
  ghost predicate OwnPartDecidesGuards(guards: iset<Json>, rules: iset<Json>, limits: iset<Json>) {
    forall g, h, input: Input ::
      GuardsFrom(guards, rules, limits, g) && GuardsFrom(guards, rules, limits, h)
      && OwnPart(g) == OwnPart(h) && !input.inBody("") ==>
        SameGuards(g, h, input)
  }

  lemma {:induction false} FromInertIsOwn(guards: iset<Json>, rules: iset<Json>, limits: iset<Json>, g: Json)
    requires GuardsFrom(guards, rules, limits, g)
    requires AllInertGuards(guards, rules, limits)
    ensures OwnGuards(g)
  {
    if Own(g, "valueRules").Arr? {
      forall r | r in Own(g, "valueRules").items ensures InertRule(ProtoOf(r)) {
        if r.Obj? && PROTO in r.fields { assert ProtoOf(r) in rules; }
      }
    }
  }

  lemma {:induction false} OneRuleOwnPart(rule: Json, p: Json)
    requires rule.Obj? && PROTO !in rule.fields
    ensures OwnPart(OneRule(WithProto(rule, p))) == OwnPart(OneRule(rule))
  {
    WithProtoSameOwnPart(rule, p);
    assert OwnPart(Arr([WithProto(rule, p)])).items == OwnPart(Arr([rule])).items;
    SingleOwnPart("valueRules", Arr([WithProto(rule, p)]), Arr([rule]));
  }

  lemma {:induction false} OneRuleFrom(guards: iset<Json>, rules: iset<Json>, limits: iset<Json>, rule: Json)
    requires rule.Obj? && PROTO in rule.fields ==> ProtoOf(rule) in rules
    ensures GuardsFrom(guards, rules, limits, OneRule(rule))
  {
    assert Own(OneRule(rule), "valueRules") == Arr([rule]);
    assert forall r :: r in [rule] <==> r == rule;
  }

  lemma {:induction false} RulesTellApart(guards: iset<Json>, rules: iset<Json>, limits: iset<Json>, p: Json)
    requires p in rules && !InertRule(p)
    ensures !OwnPartDecidesGuards(guards, rules, limits)
  {
    var rule, input := RuleCanFail(p);
    var g, h := OneRule(WithProto(rule, p)), OneRule(rule);
    OneRuleReads(WithProto(rule, p), input);
    OneRuleReads(rule, input);
    OneRuleOwnPart(rule, p);
    OneRuleFrom(guards, rules, limits, WithProto(rule, p));
    OneRuleFrom(guards, rules, limits, rule);
    assert !SameGuards(g, h, input);
  }

  lemma {:induction false} OneLimitFrom(guards: iset<Json>, rules: iset<Json>, limits: iset<Json>, limit: Json)
    requires limit.Obj? && PROTO in limit.fields ==> ProtoOf(limit) in limits
    ensures GuardsFrom(guards, rules, limits, Single("rateLimit", limit))
  {
    SingleReads("rateLimit", limit, "rateLimit");
    SingleReads("rateLimit", limit, "valueRules");
  }

  lemma {:induction false} LimitsTellApart(guards: iset<Json>, rules: iset<Json>, limits: iset<Json>, p: Json)
    requires p in limits && !InertLimits(p)
    ensures !OwnPartDecidesGuards(guards, rules, limits)
  {
    var limit := WithProto(EMPTY, p);
    WithProtoSameOwnPart(EMPTY, p);
    SingleOwnPart("rateLimit", limit, EMPTY);
    OneLimitFrom(guards, rules, limits, limit);
    OneLimitFrom(guards, rules, limits, EMPTY);
    WithProtoReads(EMPTY, p, "burst");
    WithProtoReads(EMPTY, p, "perMin");
    WithProtoReads(EMPTY, p, "perHour");
    SingleReads("rateLimit", limit, "rateLimit");
    SingleReads("rateLimit", EMPTY, "rateLimit");
    assert LimitsOf(limit) != LimitsOf(EMPTY);
    assert !SameGuards(Single("rateLimit", limit), Single("rateLimit", EMPTY), Probe(None, "", None, false));
  }

  lemma {:induction false} GuardsTellApart(guards: iset<Json>, rules: iset<Json>, limits: iset<Json>, p: Json)
    requires p in guards && !InertGuards(p)
    ensures !OwnPartDecidesGuards(guards, rules, limits)
  {
    var input := GuardsCanFail(p);
    WithProtoSameOwnPart(EMPTY, p);
    assert GuardsFrom(guards, rules, limits, WithProto(EMPTY, p)) && GuardsFrom(guards, rules, limits, EMPTY);
  }

  /**
   For guard values with prototypes of given sets, on themselves, on their value rules and on their rate
   limits: the own part alone decides what they do, exactly when each of those prototypes is inert there.
   */
  lemma {:induction false} OwnPartDecidesGuardsExactly(guards: iset<Json>, rules: iset<Json>, limits: iset<Json>)
    ensures OwnPartDecidesGuards(guards, rules, limits) <==> AllInertGuards(guards, rules, limits)
  {
    if p :| p in guards && !InertGuards(p) {
      GuardsTellApart(guards, rules, limits, p);
    } else if p :| p in rules && !InertRule(p) {
      RulesTellApart(guards, rules, limits, p);
    } else if p :| p in limits && !InertLimits(p) {
      LimitsTellApart(guards, rules, limits, p);
    } else {
      forall g, h, input: Input | GuardsFrom(guards, rules, limits, g) && GuardsFrom(guards, rules, limits, h)
                           && OwnPart(g) == OwnPart(h) && !input.inBody("")
        ensures SameGuards(g, h, input)
      {
        FromInertIsOwn(guards, rules, limits, g);
        FromInertIsOwn(guards, rules, limits, h);
        OwnPartKeepsGuards(g, input);
        OwnPartKeepsGuards(h, input);
      }
    }
  }

  ghost predicate WhereFrom(wheres: iset<Json>, windows: iset<Json>, w: Json) {
    && (w.Obj? && PROTO in w.fields ==> ProtoOf(w) in wheres)
    && (Own(w, "timeWindow").Obj? && PROTO in Own(w, "timeWindow").fields ==> ProtoOf(Own(w, "timeWindow")) in windows)
  }

  ghost predicate OwnPartDecidesWhere(wheres: iset<Json>, windows: iset<Json>) {
    forall v, w, req, context ::
      WhereFrom(wheres, windows, v) && WhereFrom(wheres, windows, w) && OwnPart(v) == OwnPart(w) ==>
        MatchesWhere(v, req, context) == MatchesWhere(w, req, context)
  }

  function BareRequest(input: Input): Request {
    Request(input, [], [], [], [], [], [], [], 0)
  }

  // A caller who is the system user or is not, and dates that are all one time.
  function Caller(system: bool, date: int): Context {
    Context("u", true, Other, if system then "u" else "s", text => Some(date))
  }

  lemma {:induction false} WindowCanFail(window: Json) returns (date: int)
    requires !InertWindow(window)
    ensures Truthy(window) && !InTimeWindow(window, Caller(true, date), 0)
  {
    date := if IsDateText(Get(window, "since")) then 1 else -1;
  }

  lemma {:induction false} WhereCanMiss(p: Json) returns (req: Request, context: Context)
    requires !InertWhere(p)
    ensures !MatchesWhere(WithProto(EMPTY, p), req, context)
  {
    var w := WithProto(EMPTY, p);
    forall key | key != PROTO ensures Get(w, key) == Get(p, key) {
      WithProtoReads(EMPTY, p, key);
    }
    req := BareRequest(Probe(None, "", None, false));
    context := Caller(false, 0);
    if InertLists(p) && !Truthy(Get(p, "systemOnly")) && !Truthy(Get(p, "ownerIsSelf")) {
      var date := WindowCanFail(Get(p, "timeWindow"));
      context := Caller(true, date);
    }
  }

  /** Likewise for where clauses and their time windows. */
  lemma {:induction false} OwnPartDecidesWhereExactly(wheres: iset<Json>, windows: iset<Json>)
    ensures OwnPartDecidesWhere(wheres, windows) <==> AllInertWhere(wheres, windows)
  {
    if p :| p in wheres && !InertWhere(p) {
      WhereTellsApart(wheres, windows, p);
    } else if p :| p in windows && !InertWindow(p) {
      WindowTellsApart(wheres, windows, p);
    } else {
      forall v, w, req, context | WhereFrom(wheres, windows, v) && WhereFrom(wheres, windows, w)
                                  && OwnPart(v) == OwnPart(w)
        ensures MatchesWhere(v, req, context) == MatchesWhere(w, req, context)
      {
        OwnPartKeepsWhere(v, req, context);
        OwnPartKeepsWhere(w, req, context);
      }
    }
  }

  lemma {:induction false} WhereTellsApart(wheres: iset<Json>, windows: iset<Json>, p: Json)
    requires p in wheres && !InertWhere(p)
    ensures !OwnPartDecidesWhere(wheres, windows)
  {
    var req, context := WhereCanMiss(p);
    WithProtoSameOwnPart(EMPTY, p);
    assert WhereFrom(wheres, windows, WithProto(EMPTY, p)) && WhereFrom(wheres, windows, EMPTY);
    EmptyWhereMatches(req, context);
  }

  lemma {:induction false} EmptyWhereMatches(req: Request, context: Context)
    ensures MatchesWhere(EMPTY, req, context)
  {
  }

  lemma {:induction false} WindowWhere(window: Json, context: Context)
    ensures var req := BareRequest(Probe(None, "", None, false));
            MatchesWhere(Single("timeWindow", window), req, context)
            == (Truthy(window) ==> InTimeWindow(window, context, 0))
  {
    var w := Single("timeWindow", window);
    forall key ensures Get(w, key) == if key == "timeWindow" then window else Null {
      SingleReads("timeWindow", window, key);
    }
  }

  lemma {:induction false} OneWindowFrom(wheres: iset<Json>, windows: iset<Json>, window: Json)
    requires window.Obj? && PROTO in window.fields ==> ProtoOf(window) in windows
    ensures WhereFrom(wheres, windows, Single("timeWindow", window))
  {
    SingleReads("timeWindow", window, "timeWindow");
  }

  lemma {:induction false} WindowTellsApart(wheres: iset<Json>, windows: iset<Json>, p: Json)
    requires p in windows && !InertWindow(p)
    ensures !OwnPartDecidesWhere(wheres, windows)
  {
    var window := WithProto(EMPTY, p);
    WithProtoReads(EMPTY, p, "since");
    WithProtoReads(EMPTY, p, "until");
    var date := WindowCanFail(window);
    WithProtoSameOwnPart(EMPTY, p);
    SingleOwnPart("timeWindow", window, EMPTY);
    OneWindowFrom(wheres, windows, window);
    OneWindowFrom(wheres, windows, EMPTY);
    WindowWhere(window, Caller(true, date));
    WindowWhere(EMPTY, Caller(true, date));
    assert InertWindow(EMPTY);
    DatelessWindowHolds(EMPTY, Caller(true, date), 0);
  }
}
