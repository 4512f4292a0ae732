/**
 Input guards and the sliding-window rate limiter. A request is given by what the guards read off it:
 its body keys, the value at a path, whether it asks for a dry run. Regular expressions are a parameter.
 */
module InputGuards {
  import opened Wrappers
  import opened Json
  import opened CompiledRules

  const SECOND := 1000
  const MINUTE := 60_000
  const HOUR := 3_600_000

  // bodyKeys and inBody are None and false unless the body is a plain object; an undefined value is None.
  datatype Input = Input(
    bodyKeys: Option<seq<string>>,
    inBody: string -> bool,
    valueAt: string -> Option<Json>,
    dryRun: bool,
    regexTest: (string, string) -> bool)

  datatype Code = AllowedParams | DeniedParam | ValueRule | DryRunOnly | RateLimit

  datatype Key = Key(rulesHash: Hash, ruleId: string, userId: string)

  type Limiter = map<Key, seq<int>>

  datatype Limits = Limits(burst: Option<int>, perMin: Option<int>, perHour: Option<int>)

  function NumberOf(j: Json): Option<int> {
    if j.Num? then Some(j.n) else None
  }

  function LimitsOf(rateLimit: Json): Limits {
    Limits(NumberOf(Get(rateLimit, "burst")), NumberOf(Get(rateLimit, "perMin")), NumberOf(Get(rateLimit, "perHour")))
  }

  // ---------------------------------------------------------------- guards that only read

  predicate AllowParamsHold(guards: Json, input: Input) {
    var allow := Get(guards, "allowParams");
    Truthy(allow) && input.bodyKeys.Some? ==> forall k :: k in input.bodyKeys.value ==> HasString(allow, k)
  }

  // The first denied key that the body has.
  function FirstDenied(keys: seq<Json>, input: Input): Option<string> {
    if keys == [] then None
    else if keys[0].Str? && input.inBody(keys[0].s) then Some(keys[0].s)
    else FirstDenied(keys[1..], input)
  }

  // An empty name that is found first counts as nothing found.
  predicate DenyParamsHold(guards: Json, input: Input) {
    var deny := Get(guards, "denyParams");
    Truthy(deny) && input.bodyKeys.Some? && deny.Arr? ==>
      FirstDenied(deny.items, input) == None || FirstDenied(deny.items, input) == Some("")
  }

  predicate ValueRuleHolds(rule: Json, input: Input) {
    var path := Get(rule, "path");
    var value := if path.Str? then input.valueAt(path.s) else None;
    var text := if value.Some? && value.value.Str? then Some(value.value.s) else None;
    var oneOf := Get(rule, "oneOf");
    var pattern := Get(rule, "matches");
    var maxLen := NumberOf(Get(rule, "maxLen"));
    && (Truthy(oneOf) ==> value.Some? && Includes(oneOf, value.value))
    && (Truthy(pattern) && pattern.Str? && text.Some? ==> input.regexTest(pattern.s, text.value))
    && (maxLen.Some? && text.Some? ==> |text.value| <= maxLen.value)
  }

  predicate ValueRulesHold(guards: Json, input: Input) {
    var rules := Get(guards, "valueRules");
    rules.Arr? ==> forall r :: r in rules.items ==> ValueRuleHolds(r, input)
  }

  predicate DryRunHolds(guards: Json, input: Input) {
    Truthy(Get(guards, "dryRunOnly")) ==> input.dryRun
  }

  // The first of the guards before the rate limit to fail.
  function FirstFailure(guards: Json, input: Input): Option<Code> {
    if !Truthy(guards) then None
    else if !AllowParamsHold(guards, input) then Some(AllowedParams)
    else if !DenyParamsHold(guards, input) then Some(DeniedParam)
    else if !ValueRulesHold(guards, input) then Some(ValueRule)
    else if !DryRunHolds(guards, input) then Some(DryRunOnly)
    else None
  }

  // ---------------------------------------------------------------- the limiter

  // The timestamps at or after `since`.
  function Since(ts: seq<int>, since: int): seq<int> {
    if ts == [] then []
    else Since(ts[..|ts| - 1], since) + if ts[|ts| - 1] >= since then [ts[|ts| - 1]] else []
  }

  // No window that ends now holds more timestamps than its limit.
  predicate WithinLimits(limits: Limits, ts: seq<int>, now: int) {
    && (limits.burst.Some? ==> |Since(ts, now - SECOND)| <= limits.burst.value)
    && (limits.perMin.Some? ==> |Since(ts, now - MINUTE)| <= limits.perMin.value)
    && (limits.perHour.Some? ==> |Since(ts, now - HOUR)| <= limits.perHour.value)
  }

  function Entries(state: Limiter, key: Key): seq<int> {
    if key in state then state[key] else []
  }

  // What the limiter keeps for a key once a request has come at `now`, admitted or not.
  function Recorded(entries: seq<int>, now: int): seq<int> {
    Since(entries, now - HOUR) + [now]
  }

  function AfterRequest(state: Limiter, key: Key, now: int): Limiter {
    state[key := Recorded(Entries(state, key), now)]
  }

  class RateLimiter {
    var state: map<Key, seq<int>>

    constructor ()
      ensures state == map[]
    {
      state := map[];
    }

    method Filter(entries: seq<int>, since: int) returns (kept: seq<int>)
      ensures kept == Since(entries, since)
    {
      kept := [];
      for i := 0 to |entries|
        invariant kept == Since(entries[..i], since)
      {
        assert entries[..i + 1][..i] == entries[..i];
        if entries[i] >= since {
          kept := kept + [entries[i]];
        }
      }
      assert entries[..|entries|] == entries;
    }

    method Apply(limits: Limits, key: Key, now: int) returns (ok: bool)
      modifies this
      ensures state == AfterRequest(old(state), key, now)
      ensures ok == WithinLimits(limits, Recorded(Entries(old(state), key), now), now)
    {
      var entries := if key in state then state[key] else [];
      var filtered := Filter(entries, now - HOUR);
      filtered := filtered + [now];
      state := state[key := filtered];
      ok := CheckWindow(limits.burst, filtered, now - SECOND);
      if !ok { return; }
      ok := CheckWindow(limits.perMin, filtered, now - MINUTE);
      if !ok { return; }
      ok := CheckWindow(limits.perHour, filtered, now - HOUR);
    }

    // One window against its limit, if it has one.
    method CheckWindow(limit: Option<int>, entries: seq<int>, since: int) returns (ok: bool)
      ensures ok <==> (limit.Some? ==> |Since(entries, since)| <= limit.value)
    {
      if limit == None { return true; }
      var inWindow := Filter(entries, since);
      ok := |inWindow| <= limit.value;
    }

    method Evaluate(guards: Json, input: Input, key: Key, now: int) returns (failure: Option<Code>)
      modifies this
      ensures failure == Verdict(guards, input, Entries(old(state), key), now)
      ensures state == if Meters(guards, input) then AfterRequest(old(state), key, now) else old(state)
    {
      failure := FirstFailure(guards, input);
      if !Truthy(guards) || failure.Some? { return; }
      if Truthy(Get(guards, "rateLimit")) {
        var ok := Apply(LimitsOf(Get(guards, "rateLimit")), key, now);
        if !ok { return Some(RateLimit); }
      }
    }
  }

  // The request gets as far as the rate limit.
  predicate Meters(guards: Json, input: Input) {
    Truthy(guards) && FirstFailure(guards, input) == None && Truthy(Get(guards, "rateLimit"))
  }

  function Verdict(guards: Json, input: Input, entries: seq<int>, now: int): Option<Code> {
    if Meters(guards, input) then
      (if WithinLimits(LimitsOf(Get(guards, "rateLimit")), Recorded(entries, now), now) then None else Some(RateLimit))
    else FirstFailure(guards, input)
  }

  // ---------------------------------------------------------------- the limiter over whole runs

  predicate Sorted(ts: seq<int>) {
    forall i, j :: 0 <= i <= j < |ts| ==> ts[i] <= ts[j]
  }

  // What the limiter holds for one key after requests at the times ts.
  function StateAfter(ts: seq<int>): seq<int> {
    if ts == [] then [] else Recorded(StateAfter(ts[..|ts| - 1]), ts[|ts| - 1])
  }

  // Whether request i of a run is admitted.
  predicate Admitted(limits: Limits, ts: seq<int>, i: nat)
    requires i < |ts|
  {
    WithinLimits(limits, StateAfter(ts[..i + 1]), ts[i])
  }

  lemma {:induction false} SinceAppend(a: seq<int>, b: seq<int>, t: int)
    ensures Since(a + b, t) == Since(a, t) + Since(b, t)
    decreases |b|
  {
    if b == [] {
      assert a + b == a;
    } else {
      assert (a + b)[..|a + b| - 1] == a + b[..|b| - 1];
      SinceAppend(a, b[..|b| - 1], t);
    }
  }

  lemma {:induction false} SinceNested(ts: seq<int>, earlier: int, later: int)
    requires earlier <= later
    ensures Since(Since(ts, earlier), later) == Since(ts, later)
    decreases |ts|
  {
    if ts != [] {
      var n := |ts| - 1;
      SinceNested(ts[..n], earlier, later);
      SinceAppend(Since(ts[..n], earlier), if ts[n] >= earlier then [ts[n]] else [], later);
    }
  }

  lemma {:induction false} RecordedSince(entries: seq<int>, now: int, t: int)
    requires t >= now - HOUR
    ensures Since(Recorded(entries, now), t) == Since(entries, t) + Since([now], t)
  {
    SinceNested(entries, now - HOUR, t);
    SinceAppend(Since(entries, now - HOUR), [now], t);
  }

  /** Within an hour of the last request, the pruned timestamps are all the timestamps there were. */
  lemma {:induction false} PruningLosesNothing(ts: seq<int>, t: int)
    requires Sorted(ts) && (ts != [] ==> t >= ts[|ts| - 1] - HOUR)
    ensures Since(StateAfter(ts), t) == Since(ts, t)
    decreases |ts|
  {
    if ts != [] {
      var n := |ts| - 1;
      var before := StateAfter(ts[..n]);
      assert ts == ts[..n] + [ts[n]];
      PruningLosesNothing(ts[..n], t);
      RecordedSince(before, ts[n], t);
      SinceAppend(ts[..n], [ts[n]], t);
    }
  }

  /** Forgetting what is older than an hour never changes a verdict. */
  lemma {:induction false} PruningKeepsVerdicts(limits: Limits, ts: seq<int>, i: nat)
    requires Sorted(ts) && i < |ts|
    ensures Admitted(limits, ts, i) <==> WithinLimits(limits, ts[..i + 1], ts[i])
  {
    var prefix := ts[..i + 1];
    PruningLosesNothing(prefix, ts[i] - SECOND);
    PruningLosesNothing(prefix, ts[i] - MINUTE);
    PruningLosesNothing(prefix, ts[i] - HOUR);
  }

  // The requests up to the i-th that come no longer before it than this.
  function UpTo(ts: seq<int>, i: nat, width: int): set<nat>
    requires i < |ts|
  {
    set j | 0 <= j <= i && ts[j] >= ts[i] - width
  }

  lemma {:induction false} SinceCounts(ts: seq<int>, t: int)
    ensures |Since(ts, t)| == |set j | 0 <= j < |ts| && ts[j] >= t|
    decreases |ts|
  {
    var all := set j | 0 <= j < |ts| && ts[j] >= t;
    if ts == [] {
      assert all == {};
    } else {
      var n := |ts| - 1;
      var front := set j | 0 <= j < n && ts[..n][j] >= t;
      SinceCounts(ts[..n], t);
      assert all == front + if ts[n] >= t then {n} else {};
    }
  }

  /**
   In a run at non-decreasing times a request is admitted exactly when, itself included, no more requests
   than the limit came within the last second, the last minute and the last hour, where each has a limit.
   */
  lemma {:induction false} AdmittedExactly(limits: Limits, ts: seq<int>, i: nat)
    requires Sorted(ts) && i < |ts|
    ensures Admitted(limits, ts, i) <==>
            && (limits.burst.Some? ==> |UpTo(ts, i, 1000)| <= limits.burst.value)
            && (limits.perMin.Some? ==> |UpTo(ts, i, 60 * 1000)| <= limits.perMin.value)
            && (limits.perHour.Some? ==> |UpTo(ts, i, 60 * 60 * 1000)| <= limits.perHour.value)
  {
    PruningKeepsVerdicts(limits, ts, i);
    UpToIsSince(ts, i, SECOND);
    UpToIsSince(ts, i, MINUTE);
    UpToIsSince(ts, i, HOUR);
  }

  lemma {:induction false} UpToIsSince(ts: seq<int>, i: nat, width: int)
    requires i < |ts|
    ensures |UpTo(ts, i, width)| == |Since(ts[..i + 1], ts[i] - width)|
  {
    var prefix, t := ts[..i + 1], ts[i] - width;
    SinceCounts(prefix, t);
    assert UpTo(ts, i, width) == set j | 0 <= j < |prefix| && prefix[j] >= t;
  }

  // How many of the first n requests are admitted and come at or after `from`.
  function AdmittedFrom(limits: Limits, ts: seq<int>, n: nat, from: int): nat
    requires n <= |ts|
  {
    if n == 0 then 0
    else AdmittedFrom(limits, ts, n - 1, from) + if ts[n - 1] >= from && Admitted(limits, ts, n - 1) then 1 else 0
  }

  lemma {:induction false} AdmittedAreRequests(limits: Limits, ts: seq<int>, n: nat, from: int)
    requires n <= |ts|
    ensures AdmittedFrom(limits, ts, n, from) <= |Since(ts[..n], from)|
    decreases n
  {
    if n > 0 {
      AdmittedAreRequests(limits, ts, n - 1, from);
      assert ts[..n][..n - 1] == ts[..n - 1];
    }
  }

  lemma {:induction false} SinceShrinks(ts: seq<int>, earlier: int, later: int)
    requires earlier <= later
    ensures |Since(ts, later)| <= |Since(ts, earlier)|
    decreases |ts|
  {
    if ts != [] {
      SinceShrinks(ts[..|ts| - 1], earlier, later);
    }
  }

  // How many requests the window of the i-th holds.
  function InWindow(ts: seq<int>, i: nat, width: int): nat
    requires i < |ts|
  {
    |Since(ts[..i + 1], ts[i] - width)|
  }

  // Counting the admitted stops at the last one, whose own window bounds them all.
  lemma {:induction false} AdmittedInWindow(limits: Limits, ts: seq<int>, n: nat, from: int, width: int, bound: int)
    requires Sorted(ts) && n <= |ts| && 0 <= width <= HOUR && 0 <= bound
    requires n > 0 ==> ts[n - 1] <= from + width
    requires forall i :: 0 <= i < n && Admitted(limits, ts, i) ==> InWindow(ts, i, width) <= bound
    ensures AdmittedFrom(limits, ts, n, from) <= bound
    decreases n
  {
    if n > 0 {
      var i := n - 1;
      if ts[i] >= from && Admitted(limits, ts, i) {
        LastWindowBounds(limits, ts, n, from, width);
      } else {
        AdmittedInWindow(limits, ts, i, from, width, bound);
      }
    }
  }

  lemma {:induction false} LastWindowBounds(limits: Limits, ts: seq<int>, n: nat, from: int, width: int)
    requires 0 < n <= |ts| && ts[n - 1] <= from + width
    ensures AdmittedFrom(limits, ts, n, from) <= InWindow(ts, n - 1, width)
  {
    AdmittedAreRequests(limits, ts, n, from);
    SinceShrinks(ts[..n], ts[n - 1] - width, from);
  }

  /**
   For any run of requests at non-decreasing times, no window of one second, one minute or one hour
   admits more than its limit. The first n requests are those up to the end of the window.
   */
  lemma {:induction false} NoWindowExceedsItsLimit(limits: Limits, ts: seq<int>, n: nat, from: int)
    requires Sorted(ts) && n <= |ts|
    ensures limits.burst.Some? && limits.burst.value >= 0 && (n > 0 ==> ts[n - 1] <= from + SECOND) ==>
              AdmittedFrom(limits, ts, n, from) <= limits.burst.value
    ensures limits.perMin.Some? && limits.perMin.value >= 0 && (n > 0 ==> ts[n - 1] <= from + MINUTE) ==>
              AdmittedFrom(limits, ts, n, from) <= limits.perMin.value
    ensures limits.perHour.Some? && limits.perHour.value >= 0 && (n > 0 ==> ts[n - 1] <= from + HOUR) ==>
              AdmittedFrom(limits, ts, n, from) <= limits.perHour.value
  {
    forall i | 0 <= i < n && Admitted(limits, ts, i)
      ensures WithinLimits(limits, ts[..i + 1], ts[i])
    {
      PruningKeepsVerdicts(limits, ts, i);
    }
    if limits.burst.Some? && limits.burst.value >= 0 && (n > 0 ==> ts[n - 1] <= from + SECOND) {
      AdmittedInWindow(limits, ts, n, from, SECOND, limits.burst.value);
    }
    if limits.perMin.Some? && limits.perMin.value >= 0 && (n > 0 ==> ts[n - 1] <= from + MINUTE) {
      AdmittedInWindow(limits, ts, n, from, MINUTE, limits.perMin.value);
    }
    if limits.perHour.Some? && limits.perHour.value >= 0 && (n > 0 ==> ts[n - 1] <= from + HOUR) {
      AdmittedInWindow(limits, ts, n, from, HOUR, limits.perHour.value);
    }
  }

  // ---------------------------------------------------------------- one key under rules of different limits

  datatype Window = Second | Minute | Hour

  function Width(w: Window): int {
    match w
    case Second => SECOND
    case Minute => MINUTE
    case Hour => HOUR
  }

  function LimitOf(limits: Limits, w: Window): Option<int> {
    match w
    case Second => limits.burst
    case Minute => limits.perMin
    case Hour => limits.perHour
  }

  // A request metered under the key, with the limits of the rule that meters it.
  datatype Hit = Hit(at: int, limits: Limits)

  function Times(hits: seq<Hit>): (ts: seq<int>)
    ensures |ts| == |hits| && forall i :: 0 <= i < |hits| ==> ts[i] == hits[i].at
  {
    seq(|hits|, i requires 0 <= i < |hits| => hits[i].at)
  }

  predicate HitAdmitted(hits: seq<Hit>, i: nat)
    requires i < |hits|
  {
    Admitted(hits[i].limits, Times(hits), i)
  }

  predicate Tight(limits: Limits, w: Window, bound: int) {
    LimitOf(limits, w).Some? && LimitOf(limits, w).value <= bound
  }

  predicate HitCounts(hits: seq<Hit>, i: nat, w: Window, from: int, bound: int)
    requires i < |hits|
  {
    hits[i].at >= from && HitAdmitted(hits, i) && Tight(hits[i].limits, w, bound)
  }

  // How many of the hits from `from` on are admitted by a rule whose limit is at most `bound`.
  function AdmittedTightly(hits: seq<Hit>, n: nat, w: Window, from: int, bound: int): nat
    requires n <= |hits|
  {
    if n == 0 then 0
    else AdmittedTightly(hits, n - 1, w, from, bound)
         + if HitCounts(hits, n - 1, w, from, bound) then 1 else 0
  }

  lemma {:induction false} TightlyAdmittedAreHits(hits: seq<Hit>, n: nat, w: Window, from: int, bound: int)
    requires n <= |hits|
    ensures AdmittedTightly(hits, n, w, from, bound) <= |Since(Times(hits)[..n], from)|
    decreases n
  {
    if n > 0 {
      TightlyAdmittedAreHits(hits, n - 1, w, from, bound);
      assert Times(hits)[..n][..n - 1] == Times(hits)[..n - 1];
    }
  }

  lemma {:induction false} AdmittedIsWithin(hits: seq<Hit>, i: nat, w: Window)
    requires Sorted(Times(hits)) && i < |hits| && HitAdmitted(hits, i) && LimitOf(hits[i].limits, w).Some?
    ensures |Since(Times(hits)[..i + 1], hits[i].at - Width(w))| <= LimitOf(hits[i].limits, w).value
  {
    PruningKeepsVerdicts(hits[i].limits, Times(hits), i);
  }

  /**
   Whatever the limits of the rules that share a key: in any window, the requests admitted by rules whose
   limit for that width is at most some bound number no more than the bound.
   */
  lemma {:induction false} TightRulesBindInWindow(hits: seq<Hit>, n: nat, w: Window, from: int, bound: nat)
    requires Sorted(Times(hits)) && n <= |hits| && (n > 0 ==> hits[n - 1].at <= from + Width(w))
    ensures AdmittedTightly(hits, n, w, from, bound) <= bound
    decreases n
  {
    if n > 0 {
      var i := n - 1;
      if HitCounts(hits, i, w, from, bound) {
        TightlyAdmittedAreHits(hits, n, w, from, bound);
        SinceShrinks(Times(hits)[..n], hits[i].at - Width(w), from);
        AdmittedIsWithin(hits, i, w);
      } else {
        TightRulesBindInWindow(hits, i, w, from, bound);
      }
    }
  }
}
