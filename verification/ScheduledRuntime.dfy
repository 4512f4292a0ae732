/**
 The scheduled trigger: cron mode re-arms a timer after every emit, one-time mode arms one.
 The state includes the part of the event loop that the runtime uses: the timers still alive and
 the calls suspended while an emit is under way. Times are milliseconds, cron times whole minutes.
 */
module ScheduledRuntime {
  import opened Wrappers
  import opened Arithmetic
  import opened CronFields
  import opened CronSearch
  import Enumeration

  datatype Config = Cron(expr: CronExpr, emitOnStart: bool) | OneTime(runAt: int)

  datatype Job = CronJob(minute: int) | OnceJob(runAt: int)

  datatype Timer = Timer(job: Job, due: int)

  // What a suspended call does when its emit returns.
  datatype Suspended = ThenScheduleNext | ThenScheduleCron(minute: int)

  // The kind is what the event's metadata says: the mode of the configuration in force.
  datatype Kind = CronKind | OnceKind

  datatype Emit = Emit(scheduledFor: int, kind: Kind, immediate: bool, at: int)

  // One chain of cron emits: the minute it was scheduled from and the minutes emitted since.
  datatype Chain = Chain(expr: CronExpr, base: int, minutes: seq<int>)

  datatype State = State(
    config: Config,
    running: bool,
    timer: Option<nat>,
    nextRunAt: Option<int>,
    onceHasFired: bool,
    lastOnceRunAtMs: Option<int>,
    live: map<nat, Timer>,
    handles: nat,
    suspended: seq<Suspended>,
    emitted: seq<Emit>,
    chains: seq<Chain>)

  datatype Event =
    | Start(now: int)
    | Stop
    | ChangeConfig(config: Config, now: int)
    | TimerFires(handle: nat, now: int)
    | EmitReturns(index: nat, now: int)

  function Init(config: Config): State {
    State(config, false, None, None, false, if config.OneTime? then Some(config.runAt) else None,
          map[], 0, [], [], [])
  }

  function KindOf(c: Config): Kind {
    if c.Cron? then CronKind else OnceKind
  }

  function StopTimer(s: State): State {
    if s.timer == None then s else s.(timer := None, live := s.live - {s.timer.value})
  }

  function SetTimer(s: State, job: Job, due: int): State {
    s.(timer := Some(s.handles), live := s.live[s.handles := Timer(job, due)], handles := s.handles + 1)
  }

  function ScheduleCron(s: State, base: int, now: int): State {
    if s.config.OneTime? then s else
    match NextOccurrence(s.config.expr, base)
    case None => s.(running := false, nextRunAt := None)
    case Some(m) => SetTimer(s, CronJob(m), Max(now, m * MS_PER_MINUTE)).(nextRunAt := Some(m * MS_PER_MINUTE))
  }

  function ScheduleOneTime(s: State, now: int): State {
    if s.config.Cron? then s else
    var runAt := s.config.runAt;
    if s.onceHasFired && Some(runAt) == s.lastOnceRunAtMs then s.(nextRunAt := None) else
    var s1 := s.(lastOnceRunAtMs := Some(runAt));
    if runAt <= now then
      s1.(onceHasFired := true, nextRunAt := None, emitted := s1.emitted + [Emit(runAt, OnceKind, true, now)])
    else
      SetTimer(s1, OnceJob(runAt), runAt).(nextRunAt := Some(runAt))
  }

  function ScheduleNext(s: State, now: int): State {
    var s1 := StopTimer(s);
    if s1.config.Cron? then
      ScheduleCron(s1.(chains := s1.chains + [Chain(s1.config.expr, FloorMinute(now), [])]), FloorMinute(now), now)
    else
      ScheduleOneTime(s1, now)
  }

  // The emit of start and of a config change, or straight on to scheduling.
  function EmitThenSchedule(s: State, now: int): State {
    if s.config.Cron? && s.config.emitOnStart then
      s.(emitted := s.emitted + [Emit(now, CronKind, true, now)], suspended := s.suspended + [ThenScheduleNext])
    else
      ScheduleNext(s, now)
  }

  function WithConfig(s: State, c: Config): State {
    if c.OneTime? then
      s.(config := c, lastOnceRunAtMs := Some(c.runAt),
         onceHasFired := s.onceHasFired && s.lastOnceRunAtMs == Some(c.runAt))
    else
      s.(config := c, lastOnceRunAtMs := None, onceHasFired := false)
  }

  function Extend(chains: seq<Chain>, minute: int): seq<Chain> {
    if chains == [] then [] else
    var c := chains[|chains| - 1];
    chains[..|chains| - 1] + [c.(minutes := c.minutes + [minute])]
  }

  function RunJob(s: State, job: Job, now: int): State {
    if !s.running then s else
    match job
    case CronJob(m) =>
      s.(emitted := s.emitted + [Emit(m * MS_PER_MINUTE, KindOf(s.config), false, now)],
         chains := Extend(s.chains, m),
         suspended := s.suspended + [ThenScheduleCron(m)])
    case OnceJob(runAt) =>
      s.(onceHasFired := true, nextRunAt := None, emitted := s.emitted + [Emit(runAt, KindOf(s.config), false, now)])
  }

  function Continue(s: State, k: Suspended, now: int): State {
    match k
    case ThenScheduleNext => ScheduleNext(s, now)
    case ThenScheduleCron(m) => if s.running then ScheduleCron(s, m, now) else s
  }

  // Timers fire only while alive and due; calls return only while suspended.
  predicate Enabled(s: State, e: Event) {
    match e
    case TimerFires(h, now) => h in s.live && s.live[h].due <= now
    case EmitReturns(i, _) => i < |s.suspended|
    case _ => true
  }

  function Step(s: State, e: Event): State
    requires Enabled(s, e)
  {
    match e
    case Start(now) => if s.running then s else EmitThenSchedule(s.(running := true), now)
    case Stop => StopTimer(s.(running := false)).(nextRunAt := None)
    case ChangeConfig(c, now) =>
      var s1 := WithConfig(s, c);
      if s1.running then EmitThenSchedule(StopTimer(s1), now) else s1
    case TimerFires(h, now) => RunJob(s.(live := s.live - {h}), s.live[h].job, now)
    case EmitReturns(i, now) =>
      Continue(s.(suspended := s.suspended[..i] + s.suspended[i + 1..]), s.suspended[i], now)
  }

  predicate Runs(s: State, es: seq<Event>)
    decreases |es|
  {
    es == [] || (Enabled(s, es[0]) && Runs(Step(s, es[0]), es[1..]))
  }

  function Run(s: State, es: seq<Event>): State
    requires Runs(s, es)
    decreases |es|
  {
    if es == [] then s else Run(Step(s, es[0]), es[1..])
  }

  // ---------------------------------------------------------------- cron chains

  function ChainEnd(c: Chain): int {
    Enumeration.End(c.base, c.minutes)
  }

  // Each minute of the chain is what the search found from the one before it.
  ghost predicate Enumerates(c: Chain) {
    forall i {:trigger Enumeration.Previous(c.base, c.minutes, i)} :: 0 <= i < |c.minutes| ==>
      NextOccurrence(c.expr, Enumeration.Previous(c.base, c.minutes, i)) == Some(c.minutes[i])
  }

  // ---------------------------------------------------------------- one timer or one call at a time

  // Everything that can still act: timers alive and calls suspended.
  function Pending(s: State): nat {
    |s.live| + |s.suspended|
  }

  predicate EmitsFirst(c: Config) {
    c.Cron? && c.emitOnStart
  }

  // Whether scheduling at this time would leave a timer.
  predicate Arms(s: State, now: int) {
    match s.config
    case Cron(expr, _) => NextOccurrence(expr, FloorMinute(now)).Some?
    case OneTime(runAt) => runAt > now && !(s.onceHasFired && s.lastOnceRunAtMs == Some(runAt))
  }

  // A start or config change that adds a timer or a call to one that it does not clear.
  predicate Clashes(s: State, e: Event) {
    match e
    case Start(now) =>
      && !s.running
      && if EmitsFirst(s.config) then s.live != map[] || s.suspended != [] else s.suspended != [] && Arms(s, now)
    case ChangeConfig(c, now) => s.running && s.suspended != [] && (EmitsFirst(c) || Arms(WithConfig(s, c), now))
    case _ => false
  }

  predicate SomeClash(s: State, es: seq<Event>)
    requires Runs(s, es)
    decreases |es|
  {
    es != [] && (Clashes(s, es[0]) || SomeClash(Step(s, es[0]), es[1..]))
  }

  // At every point of the run at most one timer or call can still act.
  predicate OneAtATime(s: State, es: seq<Event>)
    requires Runs(s, es)
    decreases |es|
  {
    Pending(s) <= 1 && (es == [] || OneAtATime(Step(s, es[0]), es[1..]))
  }

  function JobTime(j: Job): int {
    match j
    case CronJob(m) => m * MS_PER_MINUTE
    case OnceJob(runAt) => runAt
  }

  // The one pending thing, if it is a timer, is the one that the runtime knows and would clear.
  ghost predicate Single(s: State) {
    && Pending(s) <= 1
    && s.live.Keys <= (if s.timer.Some? then {s.timer.value} else {})
    && (forall h :: h in s.live ==> h < s.handles && JobTime(s.live[h].job) <= s.live[h].due)
  }

  lemma {:induction false} StopTimerClears(s: State)
    requires s.live.Keys <= (if s.timer.Some? then {s.timer.value} else {})
    ensures StopTimer(s).live == map[]
  {
  }

  lemma {:induction false} ScheduleNextArms(s: State, now: int)
    requires s.live.Keys <= (if s.timer.Some? then {s.timer.value} else {})
    ensures var t := ScheduleNext(s, now);
            && t.suspended == s.suspended
            && (if Arms(s, now) then t.timer == Some(s.handles) && t.live.Keys == {s.handles} && t.running == s.running
                else t.live == map[])
            && t.handles == s.handles + (if Arms(s, now) then 1 else 0)
            && forall h :: h in t.live ==> h < t.handles && JobTime(t.live[h].job) <= t.live[h].due
  {
    StopTimerClears(s);
  }

  lemma {:induction false} AtMostOneKey<V>(m: map<nat, V>, h: nat)
    ensures m.Keys == {h} ==> |m| == 1
    ensures m.Keys <= {h} ==> |m| <= 1
    ensures m != map[] <==> |m| > 0
  {
    assert |m| == |m.Keys|;
    if m.Keys <= {h} {
      assert m.Keys == {} || m.Keys == {h};
    }
  }

  lemma {:induction false} ScheduleNextCount(s: State, now: int)
    requires s.live.Keys <= (if s.timer.Some? then {s.timer.value} else {}) && |s.suspended| <= 1
    ensures var t := ScheduleNext(s, now);
            && Pending(t) == |s.suspended| + (if Arms(s, now) then 1 else 0)
            && (s.suspended == [] || !Arms(s, now) ==> Single(t))
  {
    ScheduleNextArms(s, now);
    AtMostOneKey(ScheduleNext(s, now).live, s.handles);
  }

  lemma {:induction false} StartCount(s: State, now: int)
    requires Single(s)
    ensures var t := Step(s, Start(now));
            if Clashes(s, Start(now)) then Pending(t) > 1 else Single(t)
  {
    AtMostOneKey(s.live, if s.timer.Some? then s.timer.value else 0);
    if !s.running && !EmitsFirst(s.config) {
      ScheduleNextCount(s.(running := true), now);
    }
  }

  lemma {:induction false} ChangeConfigCount(s: State, c: Config, now: int)
    requires Single(s)
    ensures var t := Step(s, ChangeConfig(c, now));
            if Clashes(s, ChangeConfig(c, now)) then Pending(t) > 1 else Single(t)
  {
    var s1 := WithConfig(s, c);
    if s.running {
      StopTimerClears(s1);
      if !EmitsFirst(c) {
        ScheduleNextCount(StopTimer(s1), now);
      }
    }
  }

  lemma {:induction false} OnlyCall(s: State, i: nat)
    requires Single(s) && i < |s.suspended|
    ensures s.suspended == [s.suspended[i]] && s.live == map[] && s.suspended[..i] + s.suspended[i + 1..] == []
  {
    AtMostOneKey(s.live, 0);
  }

  lemma {:induction false} OnlyTimer(s: State, h: nat)
    requires Single(s) && h in s.live
    ensures s.suspended == [] && s.timer == Some(h) && s.live.Keys == {h} && s.live - {h} == map[]
  {
    AtMostOneKey(s.live, h);
  }

  lemma {:induction false} StepCount(s: State, e: Event)
    requires Single(s) && Enabled(s, e)
    ensures if Clashes(s, e) then Pending(Step(s, e)) > 1 else Single(Step(s, e))
  {
    match e
    case Start(now) => StartCount(s, now);
    case Stop => StopTimerClears(s.(running := false));
    case ChangeConfig(c, now) => ChangeConfigCount(s, c, now);
    case TimerFires(h, _) => OnlyTimer(s, h);
    case EmitReturns(i, now) => ContinueCount(s, i, now);
  }

  lemma {:induction false} ContinueCount(s: State, i: nat, now: int)
    requires Single(s) && i < |s.suspended|
    ensures Single(Step(s, EmitReturns(i, now)))
  {
    OnlyCall(s, i);
    var s1 := s.(suspended := []);
    match s.suspended[i]
    case ThenScheduleNext => ScheduleNextCount(s1, now);
    case ThenScheduleCron(m) => AtMostOneKey(ScheduleCron(s1, m, now).live, s.handles);
  }

  /**
   Throughout a run at most one timer is alive or call suspended, exactly when no start and no config
   change of the run meets one that it does not clear.
   */
  lemma {:induction false} OneAtATimeExactly(s: State, es: seq<Event>)
    requires Single(s) && Runs(s, es)
    ensures OneAtATime(s, es) <==> !SomeClash(s, es)
    decreases |es|
  {
    if es != [] {
      StepCount(s, es[0]);
      if !Clashes(s, es[0]) {
        OneAtATimeExactly(Step(s, es[0]), es[1..]);
      }
    }
  }

  // A start or config change that does not land on a call under way, nor a stop on the emit of a start.
  predicate Calm(s: State, e: Event) {
    match e
    case Start(_) => s.running || s.suspended == []
    case Stop => ThenScheduleNext !in s.suspended
    case ChangeConfig(_, _) => s.suspended == []
    case _ => true
  }

  predicate CalmRun(s: State, es: seq<Event>)
    requires Runs(s, es)
    decreases |es|
  {
    es == [] || (Calm(s, es[0]) && CalmRun(Step(s, es[0]), es[1..]))
  }

  // While stopped nothing of a calm run is alive; a start's own emit keeps the runtime running.
  ghost predicate CalmInv(s: State) {
    && Single(s)
    && (!s.running ==> s.live == map[] && ThenScheduleNext !in s.suspended)
  }

  lemma {:induction false} CalmStep(s: State, e: Event)
    requires CalmInv(s) && Enabled(s, e) && Calm(s, e)
    ensures !Clashes(s, e) && CalmInv(Step(s, e))
  {
    StepCount(s, e);
    match e
    case Start(now) =>
      if !s.running && !EmitsFirst(s.config) { ScheduleNextArms(s.(running := true), now); }
    case Stop => StopTimerClears(s.(running := false));
    case ChangeConfig(c, now) => CalmChange(s, c, now);
    case TimerFires(h, _) => OnlyTimer(s, h);
    case EmitReturns(i, now) => CalmReturn(s, i, now);
  }

  lemma {:induction false} CalmChange(s: State, c: Config, now: int)
    requires CalmInv(s) && s.suspended == []
    ensures var t := Step(s, ChangeConfig(c, now)); !t.running ==> t.live == map[] && t.suspended == []
  {
    if s.running {
      StopTimerClears(WithConfig(s, c));
      if !EmitsFirst(c) { ScheduleNextArms(StopTimer(WithConfig(s, c)), now); }
    }
  }

  lemma {:induction false} CalmReturn(s: State, i: nat, now: int)
    requires CalmInv(s) && i < |s.suspended|
    ensures var t := Step(s, EmitReturns(i, now)); !t.running ==> t.live == map[] && t.suspended == []
  {
    OnlyCall(s, i);
    if s.suspended[i].ThenScheduleNext? { ScheduleNextArms(s.(suspended := []), now); }
  }

  /** A run in which no restart and no config change lands on an emit never clashes; stops may land on cron emits. */
  lemma {:induction false} CalmRunsDoNotClash(s: State, es: seq<Event>)
    requires CalmInv(s) && Runs(s, es) && CalmRun(s, es)
    ensures !SomeClash(s, es)
    decreases |es|
  {
    if es != [] {
      CalmStep(s, es[0]);
      CalmRunsDoNotClash(Step(s, es[0]), es[1..]);
    }
  }

  // ---------------------------------------------------------------- what the chains emit

  ghost predicate Armed(s: State) {
    s.timer.Some? && s.live.Keys == {s.timer.value}
  }

  ghost predicate OnChain(s: State, end: int) {
    && s.config.Cron? && s.chains != []
    && s.chains[|s.chains| - 1].expr == s.config.expr && ChainEnd(s.chains[|s.chains| - 1]) == end
  }

  // The timer for the next minute of the chain.
  ghost predicate ArmedOnChain(s: State) {
    && Armed(s) && s.live[s.timer.value].job.CronJob?
    && var m := s.live[s.timer.value].job.minute;
       && s.chains != [] && OnChain(s, ChainEnd(s.chains[|s.chains| - 1]))
       && NextOccurrence(s.config.expr, ChainEnd(s.chains[|s.chains| - 1])) == Some(m)
       && s.nextRunAt == Some(m * MS_PER_MINUTE)
  }

  // Cron mode while running: the first emit, an armed timer for the next minute, or an emit under way.
  ghost predicate CronPhase(s: State) {
    || s.suspended == [ThenScheduleNext]
    || (s.suspended == [] && ArmedOnChain(s))
    || (|s.suspended| == 1 && s.suspended[0].ThenScheduleCron? && OnChain(s, s.suspended[0].minute))
  }

  ghost predicate Phase(s: State) {
    s.running ==>
      if s.config.Cron? then CronPhase(s) else forall h :: h in s.live ==> s.live[h].job.OnceJob?
  }

  // The times of the cron emits made by timers.
  function CronTimes(emits: seq<Emit>): seq<int> {
    if emits == [] then [] else
    var e := emits[|emits| - 1];
    CronTimes(emits[..|emits| - 1]) + if e.kind == CronKind && !e.immediate then [e.scheduledFor] else []
  }

  function Times(minutes: seq<int>): seq<int> {
    seq(|minutes|, i requires 0 <= i < |minutes| => minutes[i] * MS_PER_MINUTE)
  }

  // The times of all chains, one chain after the other.
  function ChainTimes(chains: seq<Chain>): seq<int> {
    if chains == [] then [] else ChainTimes(chains[..|chains| - 1]) + Times(chains[|chains| - 1].minutes)
  }

  ghost predicate Logged(chains: seq<Chain>, emitted: seq<Emit>) {
    && (forall c :: c in chains ==> Enumerates(c))
    && (forall e :: e in emitted ==> e.scheduledFor <= e.at)
    && CronTimes(emitted) == ChainTimes(chains)
  }

  ghost predicate Inv(s: State) {
    Single(s) && Phase(s) && Logged(s.chains, s.emitted)
  }

  lemma {:induction false} EmitLogged(chains: seq<Chain>, emitted: seq<Emit>, e: Emit)
    requires Logged(chains, emitted) && e.scheduledFor <= e.at && (e.kind == OnceKind || e.immediate)
    ensures Logged(chains, emitted + [e])
  {
    assert (emitted + [e])[..|emitted|] == emitted;
  }

  lemma {:induction false} NewChainLogged(chains: seq<Chain>, emitted: seq<Emit>, expr: CronExpr, base: int)
    requires Logged(chains, emitted)
    ensures Logged(chains + [Chain(expr, base, [])], emitted)
  {
    var c := Chain(expr, base, []);
    assert (chains + [c])[..|chains|] == chains;
  }

  lemma {:induction false} ExtendedChain(c: Chain, m: int)
    requires Enumerates(c) && NextOccurrence(c.expr, ChainEnd(c)) == Some(m)
    ensures Enumerates(c.(minutes := c.minutes + [m])) && ChainEnd(c.(minutes := c.minutes + [m])) == m
    ensures Times(c.minutes + [m]) == Times(c.minutes) + [m * MS_PER_MINUTE]
  {
    var d := c.(minutes := c.minutes + [m]);
    forall i {:trigger Enumeration.Previous(d.base, d.minutes, i)} | 0 <= i < |d.minutes|
      ensures NextOccurrence(d.expr, Enumeration.Previous(d.base, d.minutes, i)) == Some(d.minutes[i])
    {
      if i < |c.minutes| {
        assert Enumeration.Previous(c.base, c.minutes, i) == Enumeration.Previous(d.base, d.minutes, i);
      }
    }
  }

  lemma {:induction false} ExtendLogged(chains: seq<Chain>, emitted: seq<Emit>, m: int, now: int)
    requires Logged(chains, emitted) && chains != [] && m * MS_PER_MINUTE <= now
    requires var c := chains[|chains| - 1]; NextOccurrence(c.expr, ChainEnd(c)) == Some(m)
    ensures Logged(Extend(chains, m), emitted + [Emit(m * MS_PER_MINUTE, CronKind, false, now)])
    ensures Extend(chains, m) != []
    ensures var d := Extend(chains, m)[|Extend(chains, m)| - 1];
            d.expr == chains[|chains| - 1].expr && ChainEnd(d) == m
  {
    var n, e := |chains| - 1, Emit(m * MS_PER_MINUTE, CronKind, false, now);
    ExtendedChain(chains[n], m);
    assert Extend(chains, m)[..n] == chains[..n];
    assert (emitted + [e])[..|emitted|] == emitted;
  }

  // Scheduling with at most one call suspended, and then only if no timer comes of it.
  lemma {:induction false} ScheduleNextKeepsInv(s: State, now: int)
    requires s.live.Keys <= (if s.timer.Some? then {s.timer.value} else {}) && |s.suspended| <= 1
    requires s.suspended == [] || !Arms(s, now)
    requires Logged(s.chains, s.emitted)
    ensures Inv(ScheduleNext(s, now))
  {
    ScheduleNextCount(s, now);
    StopTimerClears(s);
    if s.config.Cron? { NextCron(s, now); } else { NextOnce(s, now); }
  }

  lemma {:induction false} NextCron(s: State, now: int)
    requires s.config.Cron? && StopTimer(s).live == map[] && Logged(s.chains, s.emitted)
    requires s.suspended == [] || !Arms(s, now)
    ensures Phase(ScheduleNext(s, now)) && Logged(ScheduleNext(s, now).chains, ScheduleNext(s, now).emitted)
  {
    var base := FloorMinute(now);
    NewChainLogged(s.chains, s.emitted, s.config.expr, base);
    CronFollowsChain(StopTimer(s).(chains := s.chains + [Chain(s.config.expr, base, [])]), base, now);
  }

  // Scheduling cron from the end of the chain arms its next minute, or stops where there is none.
  lemma {:induction false} CronFollowsChain(s: State, end: int, now: int)
    requires OnChain(s, end) && s.live == map[]
    requires s.suspended == [] || NextOccurrence(s.config.expr, end) == None
    ensures var t := ScheduleCron(s, end, now);
            Phase(t) && t.chains == s.chains && t.emitted == s.emitted
  {
    var next := NextOccurrence(s.config.expr, end);
    if next.Some? {
      var t := ScheduleCron(s, end, now);
      assert t.live.Keys == {s.handles} && t.live[s.handles].job == CronJob(next.value);
    }
  }

  lemma {:induction false} NextOnce(s: State, now: int)
    requires s.config.OneTime? && StopTimer(s).live == map[] && Logged(s.chains, s.emitted)
    ensures Phase(ScheduleNext(s, now)) && Logged(ScheduleNext(s, now).chains, ScheduleNext(s, now).emitted)
  {
    if s.config.runAt <= now {
      EmitLogged(s.chains, s.emitted, Emit(s.config.runAt, OnceKind, true, now));
    }
  }

  lemma {:induction false} RunJobKeepsInv(s: State, h: nat, now: int)
    requires Inv(s) && h in s.live && s.live[h].due <= now
    ensures Inv(RunJob(s.(live := s.live - {h}), s.live[h].job, now))
  {
    OnlyTimer(s, h);
    if s.running && s.config.Cron? {
      CronJobKeepsInv(s, h, now);
    } else if s.running {
      EmitLogged(s.chains, s.emitted, Emit(s.live[h].job.runAt, OnceKind, false, now));
    }
  }

  lemma {:induction false} CronJobKeepsInv(s: State, h: nat, now: int)
    requires Inv(s) && s.running && s.config.Cron? && s.live.Keys == {h} && s.timer == Some(h) && s.suspended == []
    requires s.live[h].due <= now && s.live - {h} == map[]
    ensures Inv(RunJob(s.(live := s.live - {h}), s.live[h].job, now))
  {
    ExtendLogged(s.chains, s.emitted, s.live[h].job.minute, now);
  }

  lemma {:induction false} StartKeepsInv(s: State, now: int)
    requires Inv(s) && !Clashes(s, Start(now))
    ensures Inv(Step(s, Start(now)))
  {
    StartCount(s, now);
    if !s.running {
      if EmitsFirst(s.config) {
        EmitLogged(s.chains, s.emitted, Emit(now, CronKind, true, now));
      } else {
        ScheduleNextKeepsInv(s.(running := true), now);
      }
    }
  }

  lemma {:induction false} ChangeConfigKeepsInv(s: State, c: Config, now: int)
    requires Inv(s) && !Clashes(s, ChangeConfig(c, now))
    ensures Inv(Step(s, ChangeConfig(c, now)))
  {
    ChangeConfigCount(s, c, now);
    if s.running {
      if EmitsFirst(c) {
        EmitLogged(s.chains, s.emitted, Emit(now, CronKind, true, now));
      } else {
        StopTimerClears(WithConfig(s, c));
        ScheduleNextKeepsInv(StopTimer(WithConfig(s, c)), now);
      }
    }
  }

  lemma {:induction false} ContinueKeepsInv(s: State, i: nat, now: int)
    requires Inv(s) && i < |s.suspended|
    ensures Inv(Step(s, EmitReturns(i, now)))
  {
    ReturnContinues(s, i, now);
    ContinueCount(s, i, now);
    match s.suspended[i]
    case ThenScheduleNext => ScheduleNextKeepsInv(s.(suspended := []), now);
    case ThenScheduleCron(m) => RearmKeepsInv(s, m, now);
  }

  lemma {:induction false} ReturnContinues(s: State, i: nat, now: int)
    requires Single(s) && i < |s.suspended|
    ensures Step(s, EmitReturns(i, now)) == Continue(s.(suspended := []), s.suspended[i], now)
    ensures s.suspended == [s.suspended[i]] && s.live == map[]
  {
    OnlyCall(s, i);
  }

  // After a cron emit: nothing, the next timer of the chain, or a stop because no minute is found.
  lemma {:induction false} RearmKeepsInv(s: State, m: int, now: int)
    requires Inv(s) && s.suspended == [ThenScheduleCron(m)] && s.live == map[]
    ensures var t := Continue(s.(suspended := []), ThenScheduleCron(m), now);
            Phase(t) && Logged(t.chains, t.emitted)
  {
    if s.running && s.config.Cron? {
      CronFollowsChain(s.(suspended := []), m, now);
    }
  }

  lemma {:induction false} StepKeepsInv(s: State, e: Event)
    requires Inv(s) && Enabled(s, e) && !Clashes(s, e)
    ensures Inv(Step(s, e))
  {
    StepCount(s, e);
    match e
    case Start(now) => StartKeepsInv(s, now);
    case Stop =>
    case ChangeConfig(c, now) => ChangeConfigKeepsInv(s, c, now);
    case TimerFires(h, now) => RunJobKeepsInv(s, h, now);
    case EmitReturns(i, now) => ContinueKeepsInv(s, i, now);
  }

  lemma {:induction false} RunKeepsInv(s: State, es: seq<Event>)
    requires Inv(s) && Runs(s, es) && !SomeClash(s, es)
    ensures Inv(Run(s, es))
    decreases |es|
  {
    if es != [] {
      StepKeepsInv(s, es[0]);
      RunKeepsInv(Step(s, es[0]), es[1..]);
    }
  }

  lemma {:induction false} ChainIsEnumeration(c: Chain)
    requires Enumerates(c)
    ensures Enumeration.Enumerates(Matching(c.expr), c.base, c.minutes)
  {
    forall i {:trigger Enumeration.Previous(c.base, c.minutes, i)} | 0 <= i < |c.minutes|
      ensures Enumeration.IsNext(Matching(c.expr), Enumeration.Previous(c.base, c.minutes, i), c.minutes[i])
    {
      NextIsLeast(c.expr, Enumeration.Previous(c.base, c.minutes, i));
    }
  }

  // Every matching minute from the chain's base to its end, in order, each once.
  ghost predicate IsFullEnumeration(c: Chain) {
    && (forall m :: m in c.minutes <==> MatchesExpression(c.expr, m) && c.base < m <= ChainEnd(c))
    && (forall i, j :: 0 <= i < j < |c.minutes| ==> c.minutes[i] < c.minutes[j])
  }

  lemma {:induction false} ChainIsFull(c: Chain)
    requires Enumerates(c)
    ensures IsFullEnumeration(c)
  {
    ChainIsEnumeration(c);
    Enumeration.IsComplete(Matching(c.expr), c.base, c.minutes);
    forall m ensures m in c.minutes <==> MatchesExpression(c.expr, m) && c.base < m <= ChainEnd(c) {
      assert m in Matching(c.expr) <==> MatchesExpression(c.expr, m);
    }
    forall i, j | 0 <= i < j < |c.minutes| ensures c.minutes[i] < c.minutes[j] {
      Enumeration.Ascends(Matching(c.expr), c.base, c.minutes, i, j);
    }
  }

  /**
   In every run without a clash, the cron emits made by timers are the minutes of the chains, one chain
   after the other; each chain is the ascending enumeration of all matching minutes since it was
   scheduled, none skipped and none repeated; and nothing is emitted before its time.
   */
  lemma {:induction false} CronChainsEnumerate(config: Config, es: seq<Event>)
    requires Runs(Init(config), es) && !SomeClash(Init(config), es)
    ensures var s := Run(Init(config), es);
            && CronTimes(s.emitted) == ChainTimes(s.chains)
            && (forall c :: c in s.chains ==> IsFullEnumeration(c))
            && (forall e :: e in s.emitted ==> e.scheduledFor <= e.at)
  {
    RunKeepsInv(Init(config), es);
    forall c | c in Run(Init(config), es).chains ensures IsFullEnumeration(c) {
      ChainIsFull(c);
    }
  }

  // ---------------------------------------------------------------- when timers are due

  function TimeOf(e: Event): Option<int> {
    match e
    case Start(now) => Some(now)
    case Stop => None
    case ChangeConfig(_, now) => Some(now)
    case TimerFires(_, now) => Some(now)
    case EmitReturns(_, now) => Some(now)
  }

  // Due when its job's time has come, or at once if that was past when the timer was set.
  predicate SetAt(timer: Timer, now: int) {
    timer.due == Max(now, JobTime(timer.job))
  }

  predicate HandlesAreNew(s: State) {
    forall h :: h in s.live ==> h < s.handles
  }

  // Timers alive afterwards were alive before or have been set now.
  predicate SetsTimersNow(s: State, t: State, now: int) {
    && s.handles <= t.handles && HandlesAreNew(t)
    && forall h :: h in t.live ==>
         if h < s.handles then h in s.live && t.live[h] == s.live[h] else SetAt(t.live[h], now)
  }

  lemma {:induction false} ScheduleSetsTimers(s: State, base: int, now: int)
    requires HandlesAreNew(s)
    ensures SetsTimersNow(s, ScheduleCron(s, base, now), now)
    ensures SetsTimersNow(s, ScheduleOneTime(s, now), now)
  {
  }

  lemma {:induction false} ScheduleNextSetsTimers(s: State, now: int)
    requires HandlesAreNew(s)
    ensures SetsTimersNow(s, ScheduleNext(s, now), now)
  {
    var s1, base := StopTimer(s), FloorMinute(now);
    ScheduleSetsTimers(s1, base, now);
    if s.config.Cron? {
      ScheduleSetsTimers(s1.(chains := s1.chains + [Chain(s.config.expr, base, [])]), base, now);
    }
  }

  lemma {:induction false} EmitThenScheduleSetsTimers(s: State, now: int)
    requires HandlesAreNew(s)
    ensures SetsTimersNow(s, EmitThenSchedule(s, now), now)
  {
    ScheduleNextSetsTimers(s, now);
  }

  lemma {:induction false} ContinueSetsTimers(s: State, k: Suspended, now: int)
    requires HandlesAreNew(s)
    ensures SetsTimersNow(s, Continue(s, k, now), now)
  {
    match k
    case ThenScheduleNext => ScheduleNextSetsTimers(s, now);
    case ThenScheduleCron(m) => ScheduleSetsTimers(s, m, now);
  }

  lemma {:induction false} StepSetsTimers(s: State, e: Event, now: int)
    requires HandlesAreNew(s) && Enabled(s, e)
    requires TimeOf(e).Some? ==> TimeOf(e).value == now
    ensures SetsTimersNow(s, Step(s, e), now)
    ensures TimeOf(e) == None ==> Step(s, e).live.Keys <= s.live.Keys
  {
    match e
    case Start(_) => if !s.running { EmitThenScheduleSetsTimers(s.(running := true), now); }
    case Stop =>
    case ChangeConfig(c, _) => ChangeSetsTimers(s, c, now);
    case TimerFires(_, _) =>
    case EmitReturns(i, _) =>
      ContinueSetsTimers(s.(suspended := s.suspended[..i] + s.suspended[i + 1..]), s.suspended[i], now);
  }

  lemma {:induction false} ChangeSetsTimers(s: State, c: Config, now: int)
    requires HandlesAreNew(s)
    ensures SetsTimersNow(s, Step(s, ChangeConfig(c, now)), now)
  {
    var s1 := WithConfig(s, c);
    if s1.running { EmitThenScheduleSetsTimers(StopTimer(s1), now); }
  }

  // The timer was alive at the start, or an event of the run has set it, at its own time.
  ghost predicate SetInRun(s: State, es: seq<Event>, h: nat, timer: Timer) {
    || (h in s.live && s.live[h] == timer)
    || exists e :: e in es && TimeOf(e).Some? && SetAt(timer, TimeOf(e).value)
  }

  lemma {:induction false} TimersAreSetInRun(s: State, es: seq<Event>, h: nat)
    requires HandlesAreNew(s) && Runs(s, es) && h in Run(s, es).live
    ensures SetInRun(s, es, h, Run(s, es).live[h])
    decreases |es|
  {
    if es != [] {
      StepSetsTimers(s, es[0], if TimeOf(es[0]).Some? then TimeOf(es[0]).value else 0);
      TimersAreSetInRun(Step(s, es[0]), es[1..], h);
      if h in Step(s, es[0]).live && h !in s.live {
        assert es[0] in es;
      }
    }
  }

  /**
   In every run, clashing or not, each live timer is due when its job's time comes, or at the time of the
   event that set it where that came later.
   */
  lemma {:induction false} TimersAreDueOnTime(config: Config, es: seq<Event>, h: nat)
    requires Runs(Init(config), es) && h in Run(Init(config), es).live
    ensures var timer := Run(Init(config), es).live[h];
            && JobTime(timer.job) <= timer.due
            && (timer.due == JobTime(timer.job) || exists e :: e in es && TimeOf(e) == Some(timer.due))
  {
    TimersAreSetInRun(Init(config), es, h);
  }

  predicate MinuteHas(minute: int, ms: int) {
    minute * 60 * 1000 <= ms < (minute + 1) * 60 * 1000
  }

  // The base is that of an earlier chain, or the minute an event of the run came in.
  ghost predicate StartsInRun(s: State, es: seq<Event>, base: int) {
    || (exists c :: c in s.chains && c.base == base)
    || exists e :: e in es && TimeOf(e).Some? && MinuteHas(base, TimeOf(e).value)
  }

  // What becomes of the chains: no more than one minute of the last or one new chain, from now on.
  ghost predicate ChainsGrow(before: seq<Chain>, after: seq<Chain>, time: Option<int>) {
    || after == before
    || (exists m :: after == Extend(before, m))
    || (time.Some? && exists expr :: after == before + [Chain(expr, FloorMinute(time.value), [])])
  }

  lemma {:induction false} ScheduleGrowsChains(s: State, now: int)
    ensures ChainsGrow(s.chains, ScheduleNext(s, now).chains, Some(now))
  {
    if s.config.Cron? {
      assert ScheduleNext(s, now).chains == s.chains + [Chain(s.config.expr, FloorMinute(now), [])];
    }
  }

  lemma {:induction false} ContinueGrowsChains(s: State, k: Suspended, now: int)
    ensures ChainsGrow(s.chains, Continue(s, k, now).chains, Some(now))
  {
    if k.ThenScheduleNext? { ScheduleGrowsChains(s, now); }
  }

  lemma {:induction false} StepGrowsChains(s: State, e: Event)
    requires Enabled(s, e)
    ensures ChainsGrow(s.chains, Step(s, e).chains, TimeOf(e))
  {
    match e
    case Start(now) => ScheduleGrowsChains(s.(running := true), now);
    case Stop =>
    case ChangeConfig(c, now) => ScheduleGrowsChains(StopTimer(WithConfig(s, c)), now);
    case TimerFires(_, _) =>
    case EmitReturns(i, now) =>
      ContinueGrowsChains(s.(suspended := s.suspended[..i] + s.suspended[i + 1..]), s.suspended[i], now);
  }

  lemma {:induction false} GrownChain(before: seq<Chain>, after: seq<Chain>, time: Option<int>, c: Chain)
    requires ChainsGrow(before, after, time) && c in after
    ensures (exists d :: d in before && d.base == c.base) || (time.Some? && MinuteHas(c.base, time.value))
  {
    if after == before {
      assert c in before;
    } else if m :| after == Extend(before, m) {
      if before != [] { assert before[|before| - 1] in before; }
    } else {
      FloorIsMinuteStart(time.value);
    }
  }

  /** In every run each chain starts from the minute of some event in the run, that of its scheduling. */
  lemma {:induction false} ChainsStartInRun(s: State, es: seq<Event>, c: Chain)
    requires Runs(s, es) && c in Run(s, es).chains
    ensures StartsInRun(s, es, c.base)
    decreases |es|
  {
    if es != [] {
      ChainsStartInRun(Step(s, es[0]), es[1..], c);
      if d :| d in Step(s, es[0]).chains && d.base == c.base {
        StepGrowsChains(s, es[0]);
        GrownChain(s.chains, Step(s, es[0]).chains, TimeOf(es[0]), d);
        assert es[0] in es;
      }
    }
  }

  lemma {:induction false} ScheduleFromNow(s: State, now: int)
    requires s.config.Cron?
    ensures var t := ScheduleNext(s, now);
            match NextOccurrence(s.config.expr, FloorMinute(now))
            case None => !t.running
            case Some(m) =>
              && t.running == s.running && t.timer == Some(s.handles) && s.handles in t.live
              && t.live[s.handles].job == CronJob(m) && t.nextRunAt == Some(m * MS_PER_MINUTE)
  {
  }

  /** A start, with no emit of its own, arms the least matching minute after the one it comes in. */
  lemma {:induction false} StartArmsNext(s: State, now: int)
    requires !s.running && s.config.Cron? && !s.config.emitOnStart
    ensures var t := Step(s, Start(now));
            if t.running
            then && t.timer.Some? && t.timer.value in t.live && t.live[t.timer.value].job.CronJob?
                 && var m := t.live[t.timer.value].job.minute;
                    t.nextRunAt == Some(m * 60 * 1000) && StartsNext(s.config.expr, now, m)
            else NoneWithinAYear(s.config.expr, FloorMinute(now))
  {
    NextStartsNext(s.config.expr, now);
    NextIsLeast(s.config.expr, FloorMinute(now));
    ScheduleFromNow(s.(running := true), now);
    assert Step(s, Start(now)) == ScheduleNext(s.(running := true), now);
  }

  lemma {:induction false} ArmedTimerEmits(s: State)
    requires s.running && s.timer.Some? && s.timer.value in s.live && s.live[s.timer.value].job.CronJob?
    ensures forall now :: s.live[s.timer.value].due <= now ==>
              && Enabled(s, TimerFires(s.timer.value, now))
              && Step(s, TimerFires(s.timer.value, now)).emitted
                 == s.emitted + [Emit(JobTime(s.live[s.timer.value].job), KindOf(s.config), false, now)]
  {
  }

  /**
   In a run without a clash, a running cron runtime with no emit under way has exactly one live timer, for the
   least matching minute after the last one of its chain, which is the next run it announces. It is due at
   that minute, or at once where a later event set it, and when it fires it emits the minute.
   */
  lemma {:induction false} RunningCronIsArmed(config: Config, es: seq<Event>)
    requires Runs(Init(config), es) && !SomeClash(Init(config), es)
    requires var s := Run(Init(config), es); s.running && s.config.Cron? && s.suspended == []
    ensures var s := Run(Init(config), es);
            && s.chains != [] && s.timer.Some? && s.live.Keys == {s.timer.value}
            && var c := s.chains[|s.chains| - 1];
               var job := s.live[s.timer.value].job;
               && c.expr == s.config.expr && job.CronJob?
               && Enumeration.IsNext(Matching(c.expr), ChainEnd(c), job.minute)
               && s.nextRunAt == Some(job.minute * MS_PER_MINUTE)
               && var due := s.live[s.timer.value].due;
                  && job.minute * MS_PER_MINUTE <= due
                  && (due == job.minute * MS_PER_MINUTE || exists e :: e in es && TimeOf(e) == Some(due))
                  && forall now :: due <= now ==>
                       && Enabled(s, TimerFires(s.timer.value, now))
                       && Step(s, TimerFires(s.timer.value, now)).emitted
                          == s.emitted + [Emit(job.minute * MS_PER_MINUTE, CronKind, false, now)]
  {
    RunKeepsInv(Init(config), es);
    var s := Run(Init(config), es);
    NextIsLeast(s.config.expr, ChainEnd(s.chains[|s.chains| - 1]));
    TimersAreDueOnTime(config, es, s.timer.value);
    ArmedTimerEmits(s);
  }

  // ---------------------------------------------------------------- runs that clash

  lemma {:induction false} FiresEveryYear(expr: CronExpr, base: int) returns (m: int)
    requires ValidExpr(expr) && RunsEveryYear(expr)
    ensures NextOccurrence(expr, base) == Some(m) && base < m
  {
    SearchFailsExactly(expr, base);
    NextIsLeast(expr, base);
    m := NextOccurrence(expr, base).value;
  }

  // One more event after the run es.
  lemma {:induction false} Then(s: State, es: seq<Event>, e: Event) returns (fs: seq<Event>)
    requires Runs(s, es) && Enabled(Run(s, es), e)
    ensures fs == es + [e] && Runs(s, fs) && Run(s, fs) == Step(Run(s, es), e)
    decreases |es|
  {
    fs := es + [e];
    if es == [] {
      assert [e][1..] == [];
    } else {
      assert fs[1..] == es[1..] + [e];
      var _ := Then(Step(s, es[0]), es[1..], e);
    }
  }

  lemma {:induction false} Append(s: State, es: seq<Event>, fs: seq<Event>)
    requires Runs(s, es) && Runs(Run(s, es), fs)
    ensures Runs(s, es + fs) && Run(s, es + fs) == Run(Run(s, es), fs)
    decreases |es|
  {
    if es == [] {
      assert es + fs == fs;
    } else {
      assert (es + fs)[1..] == es[1..] + fs;
      Append(Step(s, es[0]), es[1..], fs);
    }
  }

  // Two timers for minute m.
  predicate Doubled(s: State, m: int) {
    && s.running && s.config.Cron?
    && s.live == map[1 := Timer(CronJob(m), m * MS_PER_MINUTE), 2 := Timer(CronJob(m), m * MS_PER_MINUTE)]
  }

  function TimedEmit(m: int): Emit {
    Emit(m * MS_PER_MINUTE, CronKind, false, m * MS_PER_MINUTE)
  }

  lemma {:induction false} DoubledEmitsTwice(s: State, m: int) returns (es: seq<Event>)
    requires Doubled(s, m)
    ensures Runs(s, es) && Run(s, es).emitted == s.emitted + [TimedEmit(m), TimedEmit(m)]
  {
    es := Then(s, [], TimerFires(1, m * MS_PER_MINUTE));
    es := Then(s, es, TimerFires(2, m * MS_PER_MINUTE));
  }

  // What scheduling cron comes to when the search finds minute m, not yet past.
  lemma {:induction false} CronArms(s: State, base: int, now: int, m: int)
    requires s.config.Cron? && NextOccurrence(s.config.expr, base) == Some(m) && now <= m * MS_PER_MINUTE
    ensures ScheduleCron(s, base, now)
            == SetTimer(s, CronJob(m), m * MS_PER_MINUTE).(nextRunAt := Some(m * MS_PER_MINUTE))
  {
  }

  // The emit of minute `first` is under way.
  predicate Emitting(s: State, config: Config, first: int) {
    && s.config == config && s.running && s.suspended == [ThenScheduleCron(first)] && s.live == map[]
    && s.handles == 1 && s.timer == Some(0) && |s.emitted| == 1
  }

  lemma {:induction false} StartThenEmit(expr: CronExpr, now: int, first: int) returns (es: seq<Event>)
    requires NextOccurrence(expr, FloorMinute(now)) == Some(first) && first > FloorMinute(now)
    ensures Runs(Init(Cron(expr, false)), es)
    ensures Emitting(Run(Init(Cron(expr, false)), es), Cron(expr, false), first)
  {
    var s0 := Init(Cron(expr, false));
    es := Then(s0, [], Start(now));
    es := Then(s0, es, TimerFires(0, first * MS_PER_MINUTE));
  }

  lemma {:induction false} ChangeDoubles(s: State, expr: CronExpr, first: int, m: int) returns (es: seq<Event>)
    requires Emitting(s, Cron(expr, false), first) && NextOccurrence(expr, first) == Some(m) && m > first
    ensures Runs(s, es) && Doubled(Run(s, es), m) && |Run(s, es).emitted| == 1
  {
    var at := first * MS_PER_MINUTE;
    FloorOfMinute(first);
    var s1 := StopTimer(WithConfig(s, Cron(expr, false)));
    CronArms(s1.(chains := s1.chains + [Chain(expr, first, [])]), first, at, m);
    es := Then(s, [], ChangeConfig(Cron(expr, false), at));
    CronArms(Run(s, es).(suspended := []), first, at, m);
    es := Then(s, es, EmitReturns(0, at));
  }

  /**
   A config change that lands on a cron emit doubles the chain, even if it changes nothing: from the start
   on, for every expression that runs every year, the next minute is emitted twice.
   */
  lemma {:induction false} ChangeDuringEmitDoublesTheChain(expr: CronExpr, now: int) returns (es: seq<Event>, m: int)
    requires ValidExpr(expr) && RunsEveryYear(expr)
    ensures Runs(Init(Cron(expr, false)), es)
    ensures var emitted := Run(Init(Cron(expr, false)), es).emitted;
            |emitted| == 3 && emitted[1] == emitted[2] == TimedEmit(m)
  {
    var s0 := Init(Cron(expr, false));
    var first := FiresEveryYear(expr, FloorMinute(now));
    m := FiresEveryYear(expr, first);
    es := StartThenEmit(expr, now, first);
    var fs := ChangeDoubles(Run(s0, es), expr, first, m);
    Append(s0, es, fs);
    es := es + fs;
    var gs := DoubledEmitsTwice(Run(s0, es), m);
    Append(s0, es, gs);
    es := es + gs;
  }

  // A stopped cron runtime with a live timer.
  predicate Leftover(s: State, expr: CronExpr, first: int) {
    && s.config == Cron(expr, true) && !s.running && s.suspended == [] && s.handles == 1 && s.timer == Some(0)
    && s.live == map[0 := Timer(CronJob(first), first * MS_PER_MINUTE)] && |s.emitted| == 1
  }

  lemma {:induction false} StopLeavesATimer(expr: CronExpr, now: int, first: int) returns (es: seq<Event>)
    requires NextOccurrence(expr, FloorMinute(now)) == Some(first) && first > FloorMinute(now)
    ensures Runs(Init(Cron(expr, true)), es) && Leftover(Run(Init(Cron(expr, true)), es), expr, first)
  {
    var s0 := Init(Cron(expr, true));
    es := Then(s0, [], Start(now));
    es := Then(s0, es, Stop);
    es := Then(s0, es, EmitReturns(0, now));
  }

  // A start's emit and that of minute `first` are both under way.
  predicate BothEmitting(s: State, expr: CronExpr, first: int) {
    && s.config == Cron(expr, true) && s.running && s.suspended == [ThenScheduleNext, ThenScheduleCron(first)]
    && s.live == map[] && s.handles == 1 && s.timer == Some(0) && |s.emitted| == 3
  }

  lemma {:induction false} RestartBeside(s: State, expr: CronExpr, now: int, first: int) returns (es: seq<Event>)
    requires Leftover(s, expr, first)
    ensures Runs(s, es) && BothEmitting(Run(s, es), expr, first)
  {
    es := Then(s, [], Start(now));
    es := Then(s, es, TimerFires(0, first * MS_PER_MINUTE));
  }

  lemma {:induction false} BothSchedule(s: State, expr: CronExpr, first: int, m: int) returns (es: seq<Event>)
    requires BothEmitting(s, expr, first) && NextOccurrence(expr, first) == Some(m) && m > first
    ensures Runs(s, es) && Doubled(Run(s, es), m) && |Run(s, es).emitted| == 3
  {
    var at := first * MS_PER_MINUTE;
    FloorOfMinute(first);
    var s1 := StopTimer(s.(suspended := [ThenScheduleCron(first)]));
    CronArms(s1.(chains := s1.chains + [Chain(expr, first, [])]), first, at, m);
    assert s.suspended[..0] + s.suspended[1..] == [ThenScheduleCron(first)];
    es := Then(s, [], EmitReturns(0, at));
    CronArms(Run(s, es).(suspended := []), first, at, m);
    es := Then(s, es, EmitReturns(0, at));
  }

  /**
   A stop that lands on the emit of a start leaves a stopped runtime with a live timer; the next start runs
   beside it, and again a minute is emitted twice.
   */
  lemma {:induction false} StopDuringFirstEmitLeavesATimer(expr: CronExpr, now: int)
    returns (es: seq<Event>, fs: seq<Event>, m: int)
    requires ValidExpr(expr) && RunsEveryYear(expr)
    ensures Runs(Init(Cron(expr, true)), es) && Runs(Init(Cron(expr, true)), fs) && es <= fs
    ensures !Run(Init(Cron(expr, true)), es).running && |Run(Init(Cron(expr, true)), es).live| == 1
    ensures var emitted := Run(Init(Cron(expr, true)), fs).emitted;
            |emitted| == 5 && emitted[3] == emitted[4] == TimedEmit(m)
  {
    var s0 := Init(Cron(expr, true));
    var first := FiresEveryYear(expr, FloorMinute(now));
    m := FiresEveryYear(expr, first);
    es := StopLeavesATimer(expr, now, first);
    var gs := RestartBeside(Run(s0, es), expr, now, first);
    Append(s0, es, gs);
    fs := es + gs;
    gs := BothSchedule(Run(s0, fs), expr, first, m);
    Append(s0, fs, gs);
    fs := fs + gs;
    gs := DoubledEmitsTwice(Run(s0, fs), m);
    Append(s0, fs, gs);
    fs := fs + gs;
  }

  // ---------------------------------------------------------------- one-time mode

  // One live timer, for runAt and due then, which is what the runtime announces.
  predicate ArmedOnce(s: State, runAt: int) {
    && s.timer.Some? && s.live == map[s.timer.value := Timer(OnceJob(runAt), runAt)] && s.nextRunAt == Some(runAt)
  }

  // A timer is alive exactly while the runtime runs and has not fired.
  ghost predicate OnceInv(s: State) {
    && s.config.OneTime? && s.suspended == []
    && s.lastOnceRunAtMs == Some(s.config.runAt)
    && (if s.running && !s.onceHasFired then ArmedOnce(s, s.config.runAt) else s.live == map[] && s.nextRunAt == None)
    && (s.onceHasFired ==> EmittedLast(s, s.config.runAt))
  }

  predicate EmittedLast(s: State, time: int) {
    s.emitted != [] && s.emitted[|s.emitted| - 1].scheduledFor == time
  }

  // Every config change keeps one-time mode at the same time.
  predicate KeepsRunAt(es: seq<Event>, runAt: int) {
    forall e :: e in es && e.ChangeConfig? ==> e.config == OneTime(runAt)
  }

  predicate OneTimeOnly(es: seq<Event>) {
    forall e :: e in es && e.ChangeConfig? ==> e.config.OneTime?
  }

  lemma {:induction false} OnceStep(s: State, e: Event)
    requires OnceInv(s) && Enabled(s, e) && (e.ChangeConfig? ==> e.config.OneTime?)
    ensures OnceInv(Step(s, e))
  {
    if e.TimerFires? {
      assert s.live - {e.handle} == map[];
    }
  }

  lemma {:induction false} OnceRun(s: State, es: seq<Event>)
    requires OnceInv(s) && OneTimeOnly(es) && Runs(s, es)
    ensures OnceInv(Run(s, es))
    decreases |es|
  {
    if es != [] {
      OnceStep(s, es[0]);
      OnceRun(Step(s, es[0]), es[1..]);
    }
  }

  // How many emits a one-time state still has in it.
  function Budget(s: State): nat {
    if s.onceHasFired then 0 else 1
  }

  lemma {:induction false} StepSpendsBudget(s: State, e: Event)
    requires OnceInv(s) && Enabled(s, e) && KeepsRunAt([e], s.config.runAt)
    ensures var t := Step(s, e);
            && t.config == s.config
            && |t.emitted| + Budget(t) == |s.emitted| + Budget(s)
            && s.emitted <= t.emitted
            && (forall x :: x in t.emitted[|s.emitted|..] ==> x.scheduledFor == s.config.runAt)
            && (t.emitted != s.emitted ==> s.running || e.Start?)
  {
    if e.ChangeConfig? {
      assert e in [e];
    }
  }

  lemma {:induction false} RunSpendsBudget(s: State, es: seq<Event>)
    requires OnceInv(s) && Runs(s, es) && KeepsRunAt(es, s.config.runAt)
    ensures var t := Run(s, es);
            && |t.emitted| + Budget(t) == |s.emitted| + Budget(s)
            && s.emitted <= t.emitted
            && forall x :: x in t.emitted[|s.emitted|..] ==> x.scheduledFor == s.config.runAt
    decreases |es|
  {
    if es != [] {
      assert KeepsRunAt([es[0]], s.config.runAt);
      StepSpendsBudget(s, es[0]);
      OnceStep(s, es[0]);
      var u := Step(s, es[0]);
      RunSpendsBudget(u, es[1..]);
      var t := Run(s, es);
      assert t.emitted[|s.emitted|..] == u.emitted[|s.emitted|..] + t.emitted[|u.emitted|..];
    }
  }

  /**
   In one-time mode, whatever starts, stops, timers and config changes came before, a stretch in which
   runAt keeps its value emits at most one event, for that time, and none if it has fired already.
   */
  lemma {:induction false} OneTimeEmitsOnce(runAt: int, before: seq<Event>, stretch: seq<Event>)
    requires OneTimeOnly(before) && Runs(Init(OneTime(runAt)), before)
    requires var s := Run(Init(OneTime(runAt)), before);
             s.config.OneTime? ==> KeepsRunAt(stretch, s.config.runAt) && Runs(s, stretch)
    ensures var s := Run(Init(OneTime(runAt)), before);
            && s.config.OneTime?
            && var t := Run(s, stretch);
               && s.emitted <= t.emitted
               && |t.emitted| <= |s.emitted| + (if s.onceHasFired then 0 else 1)
               && (t.onceHasFired && !s.onceHasFired <==> |t.emitted| == |s.emitted| + 1)
               && forall x :: x in t.emitted[|s.emitted|..] ==> x.scheduledFor == s.config.runAt
  {
    OnceRun(Init(OneTime(runAt)), before);
    RunSpendsBudget(Run(Init(OneTime(runAt)), before), stretch);
  }

  /**
   In every one-time run: while running and not fired the runtime has one timer, due at runAt, which it
   announces, and from then on, not before, the timer may fire and emits that event; otherwise it has no
   timer and announces nothing. It has fired only if the last event emitted is for that time.
   */
  lemma {:induction false} OneTimeIsArmedExactly(runAt: int, es: seq<Event>, now: int)
    requires OneTimeOnly(es) && Runs(Init(OneTime(runAt)), es)
    ensures var s := Run(Init(OneTime(runAt)), es);
            && s.config.OneTime?
            && if s.running && !s.onceHasFired
               then && ArmedOnce(s, s.config.runAt)
                    && var e := TimerFires(s.timer.value, now);
                       && (Enabled(s, e) <==> s.config.runAt <= now)
                       && (s.config.runAt <= now ==>
                             && Step(s, e).emitted == s.emitted + [Emit(s.config.runAt, OnceKind, false, now)]
                             && Step(s, e).onceHasFired)
               else s.live == map[] && s.nextRunAt == None && (s.onceHasFired ==> EmittedLast(s, s.config.runAt))
  {
    OnceRun(Init(OneTime(runAt)), es);
  }

  // Whether a start or a config change finds an event of one-time mode still to be emitted.
  predicate StillToFire(s: State, e: Event) {
    match e
    case Start(_) => !s.running && !s.onceHasFired
    case ChangeConfig(OneTime(runAt), _) => s.running && !(s.onceHasFired && s.config == OneTime(runAt))
    case _ => false
  }

  /**
   A start, or a config change while running, in every one-time run: if the event has not been emitted, or
   not for this runAt, a past one is emitted at once, a coming one armed; otherwise nothing is emitted.
   */
  lemma {:induction false} OneTimeSchedules(runAt: int, es: seq<Event>, e: Event, now: int)
    requires OneTimeOnly(es) && Runs(Init(OneTime(runAt)), es)
    requires e == Start(now) || exists r :: e == ChangeConfig(OneTime(r), now)
    ensures var s := Run(Init(OneTime(runAt)), es);
            var t := Step(s, e);
            && s.config.OneTime?
            && var r := if e.ChangeConfig? then e.config.runAt else s.config.runAt;
            && t.config == OneTime(r)
            && if StillToFire(s, e) && r <= now
               then t.emitted == s.emitted + [Emit(r, OnceKind, true, now)] && t.onceHasFired && t.live == map[]
               else t.emitted == s.emitted && (StillToFire(s, e) ==> ArmedOnce(t, r) && !t.onceHasFired)
  {
    OnceRun(Init(OneTime(runAt)), es);
  }

  /** While stopped, a one-time runtime emits nothing but on a start: no cleared timer acts. */
  lemma {:induction false} StoppedIsSilent(runAt: int, before: seq<Event>, e: Event)
    requires OneTimeOnly(before) && Runs(Init(OneTime(runAt)), before)
    requires var s := Run(Init(OneTime(runAt)), before);
             !s.running && Enabled(s, e) && !e.Start?
    ensures var s := Run(Init(OneTime(runAt)), before);
            s.live == map[] && Step(s, e).emitted == s.emitted
  {
    OnceRun(Init(OneTime(runAt)), before);
  }

  // ---------------------------------------------------------------- the runtime object

  class Runtime {
    var config: Config
    var running: bool
    var timer: Option<nat>
    var nextRunAt: Option<int>
    var onceHasFired: bool
    var lastOnceRunAtMs: Option<int>
    // The event loop's side, and the history of what was emitted.
    var live: map<nat, Timer>
    var handles: nat
    var suspended: seq<Suspended>
    var emitted: seq<Emit>
    var chains: seq<Chain>

    function Now(): State
      reads this
    {
      State(config, running, timer, nextRunAt, onceHasFired, lastOnceRunAtMs,
            live, handles, suspended, emitted, chains)
    }

    constructor (config: Config)
      ensures Now() == Init(config)
    {
      this.config := config;
      running, timer, nextRunAt, onceHasFired := false, None, None, false;
      lastOnceRunAtMs := if config.OneTime? then Some(config.runAt) else None;
      live, handles, suspended, emitted, chains := map[], 0, [], [], [];
    }

    method ClearTimer()
      modifies this
      ensures Now() == StopTimer(old(Now()))
    {
      if timer.Some? {
        live := live - {timer.value};
        timer := None;
      }
    }

    method ArmTimer(job: Job, due: int)
      modifies this
      ensures Now() == SetTimer(old(Now()), job, due)
    {
      live := live[handles := Timer(job, due)];
      timer := Some(handles);
      handles := handles + 1;
    }

    method ArmCron(base: int, now: int)
      modifies this
      ensures Now() == ScheduleCron(old(Now()), base, now)
    {
      if config.OneTime? { return; }
      var next := ComputeNextOccurrence(config.expr, base * MS_PER_MINUTE);
      FloorOfMinute(base);
      ArmFound(next, now);
    }

    // The rest of ArmCron, with what the search found.
    method ArmFound(next: Option<int>, now: int)
      requires config.Cron?
      modifies this
      ensures Now() == match next
                       case None => old(Now()).(running := false, nextRunAt := None)
                       case Some(m) =>
                         var at := m * MS_PER_MINUTE;
                         SetTimer(old(Now()), CronJob(m), Max(now, at)).(nextRunAt := Some(at))
    {
      if next == None {
        running := false;
        nextRunAt := None;
        return;
      }
      nextRunAt := Some(next.value * MS_PER_MINUTE);
      ArmTimer(CronJob(next.value), now + Max(0, next.value * MS_PER_MINUTE - now));
    }

    method ArmOneTime(now: int)
      modifies this
      ensures Now() == ScheduleOneTime(old(Now()), now)
    {
      if config.Cron? { return; }
      var runAt := config.runAt;
      if onceHasFired && Some(runAt) == lastOnceRunAtMs {
        nextRunAt := None;
        return;
      }
      lastOnceRunAtMs := Some(runAt);
      var delay := runAt - now;
      nextRunAt := if delay > 0 then Some(runAt) else None;
      if delay <= 0 {
        onceHasFired := true;
        emitted := emitted + [Emit(runAt, OnceKind, true, now)];
        return;
      }
      ArmTimer(OnceJob(runAt), now + delay);
    }

    method ArmNext(now: int)
      modifies this
      ensures Now() == ScheduleNext(old(Now()), now)
    {
      ClearTimer();
      if config.Cron? {
        chains := chains + [Chain(config.expr, FloorMinute(now), [])];
        ArmCron(FloorMinute(now), now);
      } else {
        ArmOneTime(now);
      }
    }

    method Start(now: int)
      modifies this
      ensures Now() == Step(old(Now()), Event.Start(now))
    {
      if running { return; }
      running := true;
      if config.Cron? && config.emitOnStart {
        emitted := emitted + [Emit(now, CronKind, true, now)];
        suspended := suspended + [ThenScheduleNext];
        return;
      }
      ArmNext(now);
    }

    method Stop()
      modifies this
      ensures Now() == Step(old(Now()), Event.Stop)
    {
      running := false;
      ClearTimer();
      nextRunAt := None;
    }

    method OnConfigChange(newConfig: Config, now: int)
      modifies this
      ensures Now() == Step(old(Now()), ChangeConfig(newConfig, now))
    {
      config := newConfig;
      if config.OneTime? {
        if Some(config.runAt) != lastOnceRunAtMs {
          onceHasFired := false;
        }
        lastOnceRunAtMs := Some(config.runAt);
      } else {
        onceHasFired := false;
        lastOnceRunAtMs := None;
      }
      if !running { return; }
      ClearTimer();
      if config.Cron? && config.emitOnStart {
        emitted := emitted + [Emit(now, CronKind, true, now)];
        suspended := suspended + [ThenScheduleNext];
        return;
      }
      ArmNext(now);
    }

    // The timer callback, up to its emit.
    method OnTimer(handle: nat, now: int)
      requires Enabled(Now(), TimerFires(handle, now))
      modifies this
      ensures Now() == Step(old(Now()), TimerFires(handle, now))
    {
      var job := live[handle].job;
      live := live - {handle};
      if !running { return; }
      match job
      case CronJob(m) =>
        emitted := emitted + [Emit(m * MS_PER_MINUTE, KindOf(config), false, now)];
        chains := Extend(chains, m);
        suspended := suspended + [ThenScheduleCron(m)];
      case OnceJob(runAt) =>
        onceHasFired := true;
        nextRunAt := None;
        emitted := emitted + [Emit(runAt, KindOf(config), false, now)];
    }

    // What follows an awaited emit.
    method OnEmitReturned(index: nat, now: int)
      requires Enabled(Now(), EmitReturns(index, now))
      modifies this
      ensures Now() == Step(old(Now()), EmitReturns(index, now))
    {
      var k := suspended[index];
      suspended := suspended[..index] + suspended[index + 1..];
      match k
      case ThenScheduleNext => ArmNext(now);
      case ThenScheduleCron(m) =>
        if running {
          ArmCron(m, now);
        }
    }
  }
}
