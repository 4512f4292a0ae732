/** The authorization decision: a first-match walk over the compiled buckets. */
module Authorize {
  import opened Wrappers
  import opened Json
  import opened CompiledRules
  import opened InputGuards

  // The values the collectors find in the request for each kind of condition.
  datatype Request = Request(
    input: Input,
    bundleIds: seq<string>,
    pipelineIds: seq<string>,
    triggerKinds: seq<string>,
    actionKinds: seq<string>,
    tags: seq<string>,
    environments: seq<string>,
    owners: seq<string>,
    now: int)

  datatype Role = Admin | Other

  // parseDate is None for a text that is no date, which no comparison holds of.
  datatype Context = Context(
    userId: string, isActive: bool, role: Role, systemUserId: string, parseDate: string -> Option<int>)

  datatype Entry = Entry(resource: string, action: string)

  datatype Reason = NoPolicy | Inactive | RateLimited | InputGuard | WhereMiss | NoMatch

  datatype Decision = AsAdmin | RuleMatch(rule: Rule) | Deny(reason: Reason)

  // ---------------------------------------------------------------- where

  predicate ListIncludes(candidates: Json, values: seq<string>) {
    exists v :: v in values && HasString(candidates, v)
  }

  function DateOf(context: Context, j: Json): Option<int> {
    if j.Str? && Truthy(j) then context.parseDate(j.s) else None
  }

  predicate InTimeWindow(window: Json, context: Context, now: int) {
    var since := DateOf(context, Get(window, "since"));
    var until := DateOf(context, Get(window, "until"));
    (since.Some? ==> since.value <= now) && (until.Some? ==> now <= until.value)
  }

  // A list condition holds if it is absent or names one of the values.
  predicate ListHolds(w: Json, key: string, values: seq<string>) {
    Truthy(Get(w, key)) ==> ListIncludes(Get(w, key), values)
  }

  predicate MatchesWhere(w: Json, req: Request, context: Context) {
    Truthy(w) ==>
      && ListHolds(w, "bundleIds", req.bundleIds)
      && ListHolds(w, "pipelineIds", req.pipelineIds)
      && ListHolds(w, "triggerKinds", req.triggerKinds)
      && ListHolds(w, "actionKinds", req.actionKinds)
      && ListHolds(w, "recipientTagsAny", req.tags)
      && ListHolds(w, "environments", req.environments)
      && (Truthy(Get(w, "systemOnly")) ==> context.userId == context.systemUserId)
      && (Truthy(Get(w, "ownerIsSelf")) ==> context.userId in req.owners)
      && (Truthy(Get(w, "timeWindow")) ==> InTimeWindow(Get(w, "timeWindow"), context, req.now))
  }

  // ---------------------------------------------------------------- the decision, rule by rule

  // A rule misses, is blocked by a guard before the rate limit, or decides the request.
  datatype Fit = Misses | Blocked | Decides

  function FitOf(r: Rule, req: Request, context: Context): Fit {
    if !MatchesWhere(r.whereValue, req, context) then Misses
    else if FirstFailure(r.inputValue, req.input) != None then Blocked
    else Decides
  }

  function KeyOf(r: Rule, rulesHash: Hash, context: Context): Key {
    Key(rulesHash, r.id, context.userId)
  }

  // The first deciding rule of a list.
  function FirstDeciding(rules: seq<Rule>, req: Request, context: Context): Option<Rule> {
    if rules == [] then None
    else if FitOf(rules[0], req, context) == Decides then Some(rules[0])
    else FirstDeciding(rules[1..], req, context)
  }

  predicate AnyBlocked(rules: seq<Rule>, req: Request, context: Context) {
    exists r :: r in rules && FitOf(r, req, context) == Blocked
  }

  /**
   The decision on a list of rules, each looked at once: the first deciding rule decides, by its rate
   limit alone; without one the reason is the furthest any rule got. Also the limiter's state after it.
   */
  function Decide(
    rules: seq<Rule>, req: Request, context: Context, rulesHash: Hash, state: Limiter): (Decision, Limiter)
  {
    match FirstDeciding(rules, req, context)
    case None =>
      (Deny(if AnyBlocked(rules, req, context) then InputGuard else if rules != [] then WhereMiss else NoMatch), state)
    case Some(r) =>
      var key := KeyOf(r, rulesHash, context);
      var metered := Meters(r.inputValue, req.input);
      var verdict := Verdict(r.inputValue, req.input, Entries(state, key), req.now);
      (if verdict == None then RuleMatch(r) else Deny(RateLimited),
       if metered then AfterRequest(state, key, req.now) else state)
  }

  // The walk over the rules, metering as it goes.
  method FirstMatch(rules: seq<Rule>, rulesHash: Hash, req: Request, context: Context, limiter: RateLimiter)
    returns (d: Decision)
    modifies limiter
    ensures (d, limiter.state) == Decide(rules, req, context, rulesHash, old(limiter.state))
  {
    var whereMiss := false;
    var inputFailure := false;
    for i := 0 to |rules|
      invariant limiter.state == old(limiter.state)
      invariant FirstDeciding(rules, req, context) == FirstDeciding(rules[i..], req, context)
      invariant inputFailure <==> AnyBlocked(rules[..i], req, context)
      invariant i > 0 ==> whereMiss || inputFailure
      invariant whereMiss ==> rules != []
    {
      var rule := rules[i];
      assert rules[..i + 1] == rules[..i] + [rule];
      assert rules[i..][0] == rule && rules[i..][1..] == rules[i + 1..];
      if !MatchesWhere(rule.whereValue, req, context) {
        whereMiss := true;
        continue;
      }
      var failure := limiter.Evaluate(rule.inputValue, req.input, KeyOf(rule, rulesHash, context), req.now);
      if failure == Some(RateLimit) {
        FailureIsNotRateLimit(rule.inputValue, req.input);
        return Deny(RateLimited);
      }
      if failure.Some? {
        assert FitOf(rule, req, context) == Blocked;
        inputFailure := true;
        continue;
      }
      return RuleMatch(rule);
    }
    assert rules[..|rules|] == rules && rules[|rules|..] == [];
    if inputFailure { return Deny(InputGuard); }
    if whereMiss { return Deny(WhereMiss); }
    d := Deny(NoMatch);
  }

  /** The early answers, else the walk over the gathered buckets. */
  method AuthorizeRequest(entry: Option<Entry>, compiled: Index, rulesHash: Hash, req: Request, context: Context,
                          limiter: RateLimiter)
    returns (d: Decision)
    modifies limiter
    ensures entry == None ==> d == Deny(NoPolicy) && limiter.state == old(limiter.state)
    ensures entry.Some? && !context.isActive ==> d == Deny(Inactive) && limiter.state == old(limiter.state)
    ensures entry.Some? && context.isActive && context.role == Admin ==>
              d == AsAdmin && limiter.state == old(limiter.state)
    ensures entry.Some? && context.isActive && context.role != Admin ==>
              (d, limiter.state) == Decide(GatherBuckets(compiled, entry.value.resource, entry.value.action),
                                           req, context, rulesHash, old(limiter.state))
  {
    if entry == None { return Deny(NoPolicy); }
    if !context.isActive { return Deny(Inactive); }
    if context.role == Admin { return AsAdmin; }
    var rules := GatherBuckets(compiled, entry.value.resource, entry.value.action);
    d := FirstMatch(rules, rulesHash, req, context, limiter);
  }

  lemma {:induction false} FailureIsNotRateLimit(guards: Json, input: Input)
    ensures FirstFailure(guards, input) != Some(RateLimit)
  {
  }

  // On a list of one rule.
  lemma {:induction false} DecideOne(r: Rule, req: Request, context: Context, rulesHash: Hash, state: Limiter)
    ensures Decide([r], req, context, rulesHash, state)
            == match FitOf(r, req, context)
               case Misses => (Deny(WhereMiss), state)
               case Blocked => (Deny(InputGuard), state)
               case Decides =>
                 var key := KeyOf(r, rulesHash, context);
                 if !Meters(r.inputValue, req.input) then (RuleMatch(r), state)
                 else (if WithinLimits(LimitsOf(Get(r.inputValue, "rateLimit")), Recorded(Entries(state, key), req.now),
                                       req.now)
                       then RuleMatch(r) else Deny(RateLimited),
                       AfterRequest(state, key, req.now))
  {
    var rules := [r];
    assert rules[1..] == [] && rules[0] == r && r in rules;
    assert FirstDeciding(rules[1..], req, context) == None;
    if FitOf(r, req, context) == Decides {
      assert FirstDeciding(rules, req, context) == Some(r);
      assert FirstFailure(r.inputValue, req.input) == None;
    } else {
      assert AnyBlocked(rules, req, context) <==> FitOf(r, req, context) == Blocked;
    }
  }

  // ---------------------------------------------------------------- what the index amounts to

  predicate Elsewhere(r: Rule, resource: string, action: string) {
    r.action == action && r.resource != resource
  }

  // The rules of an action that are not of this resource, in list order.
  function SelectElsewhere(rules: seq<Rule>, resource: string, action: string): seq<Rule> {
    if rules == [] then [] else
    var r := rules[|rules| - 1];
    SelectElsewhere(rules[..|rules| - 1], resource, action) + if Elsewhere(r, resource, action) then [r] else []
  }

  /** The list scanned: this resource's rules of the action, then every other rule of the action, each once. */
  function ScanList(rules: seq<Rule>, resource: string, action: string): seq<Rule> {
    Select(rules, resource, action) + SelectElsewhere(rules, resource, action)
  }

  lemma {:induction false} FirstDecidingAppend(a: seq<Rule>, b: seq<Rule>, req: Request, context: Context)
    ensures FirstDeciding(a + b, req, context)
            == if FirstDeciding(a, req, context).Some? then FirstDeciding(a, req, context)
               else FirstDeciding(b, req, context)
    decreases |a|
  {
    if a == [] {
      assert a + b == b;
    } else {
      assert (a + b)[0] == a[0] && (a + b)[1..] == a[1..] + b;
      FirstDecidingAppend(a[1..], b, req, context);
    }
  }

  lemma {:induction false} NoneDecides(rules: seq<Rule>, req: Request, context: Context, r: Rule)
    requires FirstDeciding(rules, req, context) == None && r in rules
    ensures FitOf(r, req, context) != Decides
    decreases |rules|
  {
    if r != rules[0] {
      assert rules == [rules[0]] + rules[1..];
      NoneDecides(rules[1..], req, context, r);
    }
  }

  // Without a deciding rule of the resource, its rules can be left out of the action's rules.
  lemma {:induction false} RepeatsDecideNothing(
    rules: seq<Rule>, resource: string, action: string, req: Request, context: Context)
    requires forall r :: r in rules && Selects(r, resource, action) ==> FitOf(r, req, context) != Decides
    ensures FirstDeciding(Select(rules, "*", action), req, context)
            == FirstDeciding(SelectElsewhere(rules, resource, action), req, context)
    decreases |rules|
  {
    if rules != [] {
      var front, r := rules[..|rules| - 1], rules[|rules| - 1];
      RepeatsDecideNothing(front, resource, action, req, context);
      var all := if r.action == action then [r] else [];
      var others := if Elsewhere(r, resource, action) then [r] else [];
      FirstDecidingAppend(Select(front, "*", action), all, req, context);
      FirstDecidingAppend(SelectElsewhere(front, resource, action), others, req, context);
      assert r in rules;
      if all != others {
        assert FirstDeciding([r], req, context) == FirstDeciding([r][1..], req, context);
      }
    }
  }

  lemma {:induction false} SelectedElsewhereExactly(rules: seq<Rule>, resource: string, action: string, r: Rule)
    ensures r in SelectElsewhere(rules, resource, action) <==> r in rules && Elsewhere(r, resource, action)
    decreases |rules|
  {
    if rules != [] {
      SelectedElsewhereExactly(rules[..|rules| - 1], resource, action, r);
      assert rules == rules[..|rules| - 1] + [rules[|rules| - 1]];
    }
  }

  lemma {:induction false} SameRules(rules: seq<Rule>, resource: string, action: string)
    requires resource != "*"
    ensures forall r :: r in Select(rules, resource, action) + Select(rules, "*", action)
                        <==> r in ScanList(rules, resource, action)
  {
    forall r
      ensures r in Select(rules, resource, action) + Select(rules, "*", action)
              <==> r in ScanList(rules, resource, action)
    {
      SelectedExactly(rules, resource, action, r);
      SelectedExactly(rules, "*", action, r);
      SelectedElsewhereExactly(rules, resource, action, r);
    }
  }

  lemma {:induction false} BucketsAreLinearScan(
    rules: seq<Rule>, entry: Entry, req: Request, context: Context, rulesHash: Hash, state: Limiter)
    requires entry.resource != "*"
    ensures Decide(Select(rules, entry.resource, entry.action) + Select(rules, "*", entry.action),
                   req, context, rulesHash, state)
            == Decide(ScanList(rules, entry.resource, entry.action), req, context, rulesHash, state)
  {
    var own := Select(rules, entry.resource, entry.action);
    var all := Select(rules, "*", entry.action);
    var rest := SelectElsewhere(rules, entry.resource, entry.action);
    FirstDecidingAppend(own, all, req, context);
    FirstDecidingAppend(own, rest, req, context);
    SameRules(rules, entry.resource, entry.action);
    if FirstDeciding(own, req, context) == None {
      forall r | r in rules && Selects(r, entry.resource, entry.action)
        ensures FitOf(r, req, context) != Decides
      {
        SelectedExactly(rules, entry.resource, entry.action, r);
        NoneDecides(own, req, context, r);
      }
      RepeatsDecideNothing(rules, entry.resource, entry.action, req, context);
    }
    if own + all != [] {
      assert (own + all)[0] in own + all;
    }
    if own + rest != [] {
      assert (own + rest)[0] in ScanList(rules, entry.resource, entry.action);
    }
  }

  /**
   Deciding through the compiled index is deciding on one plain list in which no rule comes twice:
   the same decision, the same deny reason, the same limiter state.
   */
  lemma {:induction false} IndexIsLinearScan(
    rules: seq<Rule>, compiled: Index, entry: Entry, req: Request, context: Context, rulesHash: Hash, state: Limiter)
    requires entry.resource != "*"
    requires forall r, a :: Bucket(compiled, r, a) == Select(rules, r, a)
    ensures Decide(GatherBuckets(compiled, entry.resource, entry.action), req, context, rulesHash, state)
            == Decide(ScanList(rules, entry.resource, entry.action), req, context, rulesHash, state)
  {
    BucketsAreLinearScan(rules, entry, req, context, rulesHash, state);
  }

  /** One request records at most one timestamp, under one key, and none unless a rule decides it. */
  lemma {:induction false} OneTimestampPerRequest(
    rules: seq<Rule>, req: Request, context: Context, rulesHash: Hash, state: Limiter)
    ensures var (d, after) := Decide(rules, req, context, rulesHash, state);
            || after == state
            || exists r :: r in rules && FitOf(r, req, context) == Decides
                           && after == AfterRequest(state, KeyOf(r, rulesHash, context), req.now)
  {
    var r := FirstDeciding(rules, req, context);
    if r.Some? {
      FirstDecidingDecides(rules, req, context);
    }
  }

  // Rule i is the first of the list to decide the request.
  predicate DecidesFirst(rules: seq<Rule>, i: int, req: Request, context: Context) {
    && 0 <= i < |rules| && FitOf(rules[i], req, context) == Decides
    && forall j :: 0 <= j < i ==> FitOf(rules[j], req, context) != Decides
  }

  // The rate limit's word on the first deciding rule.
  predicate Metered(rules: seq<Rule>, i: int, req: Request, context: Context, rulesHash: Hash, state: Limiter,
                    verdict: Option<Code>) {
    && DecidesFirst(rules, i, req, context)
    && Verdict(rules[i].inputValue, req.input, Entries(state, KeyOf(rules[i], rulesHash, context)), req.now) == verdict
  }

  lemma {:induction false} FirstDecidingExactly(rules: seq<Rule>, i: int, req: Request, context: Context)
    requires DecidesFirst(rules, i, req, context)
    ensures FirstDeciding(rules, req, context) == Some(rules[i])
    decreases |rules|
  {
    if i > 0 {
      assert FitOf(rules[0], req, context) != Decides;
      forall j | 0 <= j < i - 1 ensures FitOf(rules[1..][j], req, context) != Decides {
        assert FitOf(rules[j + 1], req, context) != Decides;
      }
      FirstDecidingExactly(rules[1..], i - 1, req, context);
    }
  }

  lemma {:induction false} FirstDecidingAt(rules: seq<Rule>, req: Request, context: Context) returns (i: int)
    requires FirstDeciding(rules, req, context).Some?
    ensures DecidesFirst(rules, i, req, context) && FirstDeciding(rules, req, context) == Some(rules[i])
    decreases |rules|
  {
    if FitOf(rules[0], req, context) == Decides {
      i := 0;
    } else {
      i := FirstDecidingAt(rules[1..], req, context);
      i := i + 1;
      forall j | 0 <= j < i ensures FitOf(rules[j], req, context) != Decides {
        if j > 0 { assert rules[j] == rules[1..][j - 1]; }
      }
    }
  }

  lemma {:induction false} FirstDecidingDecides(rules: seq<Rule>, req: Request, context: Context)
    requires FirstDeciding(rules, req, context).Some?
    ensures var r := FirstDeciding(rules, req, context).value;
            r in rules && FitOf(r, req, context) == Decides
  {
    var i := FirstDecidingAt(rules, req, context);
  }

  /** A rule matches exactly when it is the first to decide and within its rate limit; beyond, RATE_LIMIT is given. */
  lemma {:induction false} MatchAndLimitExact(
    rules: seq<Rule>, req: Request, context: Context, rulesHash: Hash, state: Limiter, r: Rule)
    ensures var d := Decide(rules, req, context, rulesHash, state).0;
            && (d == RuleMatch(r) <==>
                  exists i :: Metered(rules, i, req, context, rulesHash, state, None) && rules[i] == r)
            && (d == Deny(RateLimited) <==>
                  exists i :: Metered(rules, i, req, context, rulesHash, state, Some(RateLimit)))
  {
    if FirstDeciding(rules, req, context).Some? {
      var i := FirstDecidingAt(rules, req, context);
      var key := KeyOf(rules[i], rulesHash, context);
      assert Metered(rules, i, req, context, rulesHash, state,
                     Verdict(rules[i].inputValue, req.input, Entries(state, key), req.now));
    }
    forall i | DecidesFirst(rules, i, req, context) ensures FirstDeciding(rules, req, context) == Some(rules[i]) {
      FirstDecidingExactly(rules, i, req, context);
    }
  }

  /**
   The reason of a denial says exactly how far the rules got: none decided and some guard blocked, none
   decided and every where missed, no rule at all, or the first deciding rule was over its rate limit.
   */
  lemma {:induction false} DenyReasonsExact(
    rules: seq<Rule>, req: Request, context: Context, rulesHash: Hash, state: Limiter)
    ensures var d := Decide(rules, req, context, rulesHash, state).0;
            && (d == Deny(NoMatch) <==> rules == [])
            && (d == Deny(WhereMiss) <==> rules != [] && forall r :: r in rules ==> FitOf(r, req, context) == Misses)
            && (d == Deny(InputGuard) <==>
                  (forall r :: r in rules ==> FitOf(r, req, context) != Decides)
                  && exists r :: r in rules && FitOf(r, req, context) == Blocked)
            && (d == Deny(RateLimited) <==>
                  exists i :: Metered(rules, i, req, context, rulesHash, state, Some(RateLimit)))
            && d != AsAdmin && d != Deny(NoPolicy) && d != Deny(Inactive)
  {
    if FirstDeciding(rules, req, context).Some? {
      FirstDecidingDecides(rules, req, context);
      MatchAndLimitExact(rules, req, context, rulesHash, state, FirstDeciding(rules, req, context).value);
    } else {
      forall r | r in rules ensures FitOf(r, req, context) != Decides {
        NoneDecides(rules, req, context, r);
      }
      NoneDecidesFirst(rules, req, context);
      if rules != [] && !AnyBlocked(rules, req, context) {
        assert rules[0] in rules;
      }
    }
  }

  lemma {:induction false} NoneDecidesFirst(rules: seq<Rule>, req: Request, context: Context)
    requires FirstDeciding(rules, req, context) == None
    ensures forall i :: !DecidesFirst(rules, i, req, context)
  {
    forall i | DecidesFirst(rules, i, req, context) ensures false {
      FirstDecidingExactly(rules, i, req, context);
    }
  }

  // ---------------------------------------------------------------- a run of requests

  // One request with the rules gathered for it.
  datatype Call = Call(rules: seq<Rule>, req: Request, context: Context, rulesHash: Hash)

  function Decided(c: Call, state: Limiter): (Decision, Limiter) {
    Decide(c.rules, c.req, c.context, c.rulesHash, state)
  }

  function LimiterAfter(calls: seq<Call>): Limiter {
    if calls == [] then map[] else Decided(calls[|calls| - 1], LimiterAfter(calls[..|calls| - 1])).1
  }

  predicate Matches(calls: seq<Call>, i: nat)
    requires i < |calls|
  {
    Decided(calls[i], LimiterAfter(calls[..i])).0.RuleMatch?
  }

  // The rule that meters the request under this key, if one does.
  function MeteredBy(c: Call, key: Key): Option<Rule> {
    match FirstDeciding(c.rules, c.req, c.context)
    case None => None
    case Some(r) =>
      if KeyOf(r, c.rulesHash, c.context) == key && Meters(r.inputValue, c.req.input) then Some(r) else None
  }

  function HitOf(c: Call, r: Rule): Hit {
    Hit(c.req.now, LimitsOf(Get(r.inputValue, "rateLimit")))
  }

  // The requests metered under a key.
  function HitsOf(calls: seq<Call>, key: Key): seq<Hit> {
    if calls == [] then [] else
    var c := calls[|calls| - 1];
    var r := MeteredBy(c, key);
    HitsOf(calls[..|calls| - 1], key) + if r.Some? then [HitOf(c, r.value)] else []
  }

  /** For every key, the limiter holds what the requests metered under that key alone leave. */
  lemma {:induction false} KeysAreSeparate(calls: seq<Call>, key: Key)
    ensures Entries(LimiterAfter(calls), key) == StateAfter(Times(HitsOf(calls, key)))
    decreases |calls|
  {
    if calls != [] {
      var n := |calls| - 1;
      var front, c := calls[..n], calls[n];
      KeysAreSeparate(front, key);
      DecideRecords(c, LimiterAfter(front), key);
      if MeteredBy(c, key).Some? {
        var ts, us := Times(HitsOf(calls, key)), Times(HitsOf(front, key));
        assert ts == us + [c.req.now];
        assert ts[..|ts| - 1] == us;
      } else {
        assert HitsOf(calls, key) == HitsOf(front, key);
      }
    }
  }

  lemma {:induction false} DecideRecords(c: Call, state: Limiter, key: Key)
    ensures Entries(Decided(c, state).1, key)
            == if MeteredBy(c, key).Some? then Recorded(Entries(state, key), c.req.now) else Entries(state, key)
  {
  }

  lemma {:induction false} MatchIsAdmission(calls: seq<Call>, key: Key)
    requires calls != [] && MeteredBy(calls[|calls| - 1], key).Some?
    ensures HitsOf(calls, key) != []
    ensures Matches(calls, |calls| - 1) <==> HitAdmitted(HitsOf(calls, key), |HitsOf(calls, key)| - 1)
  {
    var n := |calls| - 1;
    var front, c, hits := calls[..n], calls[n], HitsOf(calls, key);
    var r := MeteredBy(c, key).value;
    KeysAreSeparate(front, key);
    var m := |hits| - 1;
    assert hits[..m] == HitsOf(front, key) && hits[m] == HitOf(c, r);
    assert Times(hits)[..m] == Times(HitsOf(front, key)) && Times(hits)[..m + 1] == Times(hits);
    assert StateAfter(Times(hits)) == Recorded(StateAfter(Times(hits)[..m]), c.req.now);
    FirstDecidingDecides(c.rules, c.req, c.context);
  }

  predicate InOrder(calls: seq<Call>) {
    forall i, j :: 0 <= i <= j < |calls| ==> calls[i].req.now <= calls[j].req.now
  }

  lemma {:induction false} HitsAreInOrder(calls: seq<Call>, key: Key)
    requires InOrder(calls)
    ensures Sorted(Times(HitsOf(calls, key)))
    ensures forall h :: h in HitsOf(calls, key) ==> calls != [] && h.at <= calls[|calls| - 1].req.now
    decreases |calls|
  {
    if calls != [] {
      var n := |calls| - 1;
      HitsAreInOrder(calls[..n], key);
      var front, hits := HitsOf(calls[..n], key), HitsOf(calls, key);
      if n > 0 { assert calls[n - 1].req.now <= calls[n].req.now; }
      forall i, j | 0 <= i <= j < |hits| ensures hits[i].at <= hits[j].at {
        if j < |front| {
          assert Times(front)[i] <= Times(front)[j];
        } else if i < |front| {
          assert front[i] in front;
        }
      }
    }
  }

  // The last request matches under this key by a rule whose limit is at most `bound`.
  predicate LastCounts(calls: seq<Call>, key: Key, w: Window, from: int, bound: int)
    requires calls != []
  {
    var c := calls[|calls| - 1];
    var r := MeteredBy(c, key);
    r.Some? && c.req.now >= from && Matches(calls, |calls| - 1) && Tight(HitOf(c, r.value).limits, w, bound)
  }

  // How many requests from `from` on do.
  function MatchedTightly(calls: seq<Call>, key: Key, w: Window, from: int, bound: int): nat {
    if calls == [] then 0
    else MatchedTightly(calls[..|calls| - 1], key, w, from, bound)
         + if LastCounts(calls, key, w, from, bound) then 1 else 0
  }

  lemma {:induction false} AdmittedTightlyPrefix(
    hits: seq<Hit>, more: seq<Hit>, n: nat, w: Window, from: int, bound: int)
    requires n <= |hits|
    ensures AdmittedTightly(hits + more, n, w, from, bound) == AdmittedTightly(hits, n, w, from, bound)
    decreases n
  {
    if n > 0 {
      AdmittedTightlyPrefix(hits, more, n - 1, w, from, bound);
      HitPrefix(hits, more, n - 1);
    }
  }

  lemma {:induction false} HitPrefix(hits: seq<Hit>, more: seq<Hit>, i: nat)
    requires i < |hits|
    ensures (hits + more)[i] == hits[i] && HitAdmitted(hits + more, i) == HitAdmitted(hits, i)
  {
    assert Times(hits + more)[..i + 1] == Times(hits)[..i + 1];
  }

  lemma {:induction false} OneMoreHit(front: seq<Hit>, last: Hit, w: Window, from: int, bound: int)
    ensures var hits := front + [last];
            AdmittedTightly(hits, |hits|, w, from, bound)
            == AdmittedTightly(front, |front|, w, from, bound)
               + if HitCounts(hits, |front|, w, from, bound) then 1 else 0
  {
    AdmittedTightlyPrefix(front, [last], |front|, w, from, bound);
  }

  lemma {:induction false} LastCountsExactly(calls: seq<Call>, key: Key, w: Window, from: int, bound: int)
    requires calls != []
    ensures var front, hits := HitsOf(calls[..|calls| - 1], key), HitsOf(calls, key);
            if MeteredBy(calls[|calls| - 1], key).Some?
            then hits == front + [hits[|front|]]
                 && (LastCounts(calls, key, w, from, bound) <==> HitCounts(hits, |front|, w, from, bound))
            else hits == front && !LastCounts(calls, key, w, from, bound)
  {
    if MeteredBy(calls[|calls| - 1], key).Some? {
      MatchIsAdmission(calls, key);
    }
  }

  lemma {:induction false} MatchesAreAdmissions(calls: seq<Call>, key: Key, w: Window, from: int, bound: int)
    ensures var hits := HitsOf(calls, key);
            MatchedTightly(calls, key, w, from, bound) == AdmittedTightly(hits, |hits|, w, from, bound)
    decreases |calls|
  {
    if calls != [] {
      var n := |calls| - 1;
      MatchesAreAdmissions(calls[..n], key, w, from, bound);
      LastCountsExactly(calls, key, w, from, bound);
      var front, hits := HitsOf(calls[..n], key), HitsOf(calls, key);
      if hits != front {
        OneMoreHit(front, hits[|front|], w, from, bound);
      }
    }
  }

  /**
   In every run of requests at non-decreasing times, of any users under any rules: under one key no window
   of a second, a minute or an hour has more matches, by rules whose limit is at most some bound, than the
   bound. Where the rules under the key share one limit that is the limit; where they differ, each keeps to
   its own, counting the others' requests, and all together to the largest. The run ends with the window.
   */
  lemma {:induction false} EveryKeyKeepsItsLimits(calls: seq<Call>, key: Key, w: Window, from: int, bound: nat)
    requires InOrder(calls) && (calls != [] ==> calls[|calls| - 1].req.now <= from + Width(w))
    ensures MatchedTightly(calls, key, w, from, bound) <= bound
  {
    var hits := HitsOf(calls, key);
    HitsAreInOrder(calls, key);
    MatchesAreAdmissions(calls, key, w, from, bound);
    if hits != [] {
      assert hits[|hits| - 1] in hits;
    }
    TightRulesBindInWindow(hits, |hits|, w, from, bound);
  }
}
