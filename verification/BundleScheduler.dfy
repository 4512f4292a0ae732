/**
 Bundle rebuilds: a per-bundle debounced scheduler and builders that run between its steps. Each
 read and write of a builder is a step of its own, so composition changes, requests, timers and
 builders of any number of bundles interleave freely.
 */
module BundleScheduler {
  import opened Wrappers
  import opened BundleDigest

  type Id = string

  datatype Outcome = Built | Skipped | Failed

  // ---------------------------------------------------------------- the scheduler's own state

  datatype Sched = Sched(
    timers: set<Id>, running: set<Id>, queued: set<Id>, forceFlags: set<Id>, last: map<Id, Outcome>)

  // Debounce: the pending timer, if any, is replaced.
  function Schedule(s: Sched, b: Id, force: bool): Sched {
    s.(timers := s.timers + {b}, forceFlags := if force then s.forceFlags + {b} else s.forceFlags)
  }

  // A timer fires: a running bundle is marked for another round, an idle one starts its build.
  function Fire(s: Sched, b: Id): Sched {
    var s1 := s.(timers := s.timers - {b});
    if b in s.running then s1.(queued := s1.queued + {b})
    else s1.(running := s1.running + {b}, forceFlags := s1.forceFlags - {b})
  }

  // A build has ended.
  function Finish(s: Sched, b: Id, o: Outcome): Sched {
    var s1 := s.(last := s.last[b := o], running := s.running - {b});
    if b in s1.queued then Schedule(s1.(queued := s1.queued - {b}), b, false) else s1
  }

  datatype Status = Idle | Queued | Running

  function GetStatus(s: Sched, b: Id): Status {
    if b in s.running then Running else if b in s.timers then Queued else Idle
  }

  class RebuildScheduler {
    var timers: set<Id>
    var running: set<Id>
    var queued: set<Id>
    var forceFlags: set<Id>
    var last: map<Id, Outcome>

    function Now(): Sched
      reads this
    {
      Sched(timers, running, queued, forceFlags, last)
    }

    constructor ()
      ensures Now() == Sched({}, {}, {}, {}, map[])
    {
      timers, running, queued, forceFlags, last := {}, {}, {}, {}, map[];
    }

    method Request(b: Id, force: bool)
      modifies this
      ensures Now() == Schedule(old(Now()), b, force)
    {
      if b in timers {
        timers := timers - {b};
      }
      if force {
        forceFlags := forceFlags + {b};
      }
      timers := timers + {b};
    }

    // Every bundle that holds one of some files; an empty id is passed over.
    method RequestForFiles(bundlesOfFiles: seq<Id>, force: bool)
      modifies this
      ensures var asked := set b | b in bundlesOfFiles && b != "";
              && timers == old(timers) + asked
              && forceFlags == old(forceFlags) + (if force then asked else {})
      ensures running == old(running) && queued == old(queued) && last == old(last)
    {
      for i := 0 to |bundlesOfFiles|
        invariant timers == old(timers) + (set b | b in bundlesOfFiles[..i] && b != "")
        invariant forceFlags == old(forceFlags) + (if force then set b | b in bundlesOfFiles[..i] && b != "" else {})
        invariant running == old(running) && queued == old(queued) && last == old(last)
      {
        if bundlesOfFiles[i] != "" {
          Request(bundlesOfFiles[i], force);
        }
      }
      assert bundlesOfFiles[..|bundlesOfFiles|] == bundlesOfFiles;
    }

    // The timer callback; `started` holds the force flag of the build it starts, if it starts one.
    method OnTimer(b: Id) returns (started: Option<bool>)
      requires b in timers
      modifies this
      ensures Now() == Fire(old(Now()), b)
      ensures started == if b in old(running) then None else Some(b in old(forceFlags))
    {
      timers := timers - {b};
      if b in running {
        queued := queued + {b};
        return None;
      }
      running := running + {b};
      started := Some(b in forceFlags);
      forceFlags := forceFlags - {b};
    }

    method OnBuildEnd(b: Id, outcome: Outcome)
      modifies this
      ensures Now() == Finish(old(Now()), b, outcome)
    {
      last := last[b := outcome];
      running := running - {b};
      if b in queued {
        queued := queued - {b};
        Request(b, false);
      }
    }
  }

  // ---------------------------------------------------------------- scheduler, builders and database

  // Where a builder stands, with what it has read. `seen` is the composition behind its digest.
  datatype Pc =
    | ReadRecord
    | ReadComposition(stored: Digest)
    | ReadRows(digest: Digest, seen: Composition)
    | WritePointer(digest: Digest, seen: Composition, rows: Composition)
    | Ended(outcome: Outcome)

  datatype Build = Build(bundle: Id, force: bool, pc: Pc)

  datatype Record = Record(digest: Digest, archive: seq<Entry>)

  // Where a pointer write came from: the build, unless an earlier process had it, and what its two reads gave.
  datatype Source = Source(build: Option<nat>, seen: Composition, rows: Composition)

  // `written` remembers the source of the last pointer write.
  datatype Db = Db(compositions: map<Id, Composition>, records: map<Id, Record>, written: map<Id, Source>)

  // When requests came and builds started.
  datatype History = History(
    clock: nat, requestedAt: map<Id, nat>, forcedAt: map<Id, nat>, startedAt: map<Id, nat>)

  // `unscheduled` holds the changed bundles whose schedule call is still to come.
  datatype State = State(
    sched: Sched, builds: map<nat, Build>, nextBuild: nat, db: Db, unscheduled: set<Id>, history: History)

  datatype Event =
    | Change(b: Id, composition: Composition)
    | Request(b: Id, force: bool)
    | TimerFires(b: Id)
    | Advance(i: nat)
    | Fail(i: nat)
    | End(i: nat)

  predicate Enabled(s: State, e: Event) {
    match e
    case Change(b, _) => b in s.db.compositions
    case Request(_, _) => true
    case TimerFires(b) => b in s.sched.timers
    case Advance(i) => i in s.builds && !s.builds[i].pc.Ended?
    case Fail(i) => i in s.builds && !s.builds[i].pc.Ended?
    case End(i) => i in s.builds && s.builds[i].pc.Ended?
  }

  // The next read of a builder, and what it decides.
  function NextPc(db: Db, build: Build): Pc {
    var b := build.bundle;
    if b !in db.records || b !in db.compositions then Ended(Failed) else
    match build.pc
    case ReadRecord => ReadComposition(db.records[b].digest)
    case ReadComposition(stored) =>
      var digest := DigestOf(db.compositions[b]);
      if !build.force && stored != NoDigest && stored == digest then Ended(Skipped)
      else ReadRows(digest, db.compositions[b])
    case ReadRows(digest, seen) => WritePointer(digest, seen, db.compositions[b])
    case WritePointer(_, _, _) => Ended(Built)
    case Ended(o) => Ended(o)
  }

  // What the same step writes.
  function NextDb(db: Db, i: nat, build: Build): Db {
    var b := build.bundle;
    if !build.pc.WritePointer? || b !in db.records || b !in db.compositions then db else
    var pc := build.pc;
    db.(records := db.records[b := Record(pc.digest, Entries(pc.rows))],
        written := db.written[b := Source(Some(i), pc.seen, pc.rows)])
  }

  function NoteRequest(h: History, b: Id, force: bool): History {
    var now := h.clock + 1;
    h.(clock := now, requestedAt := h.requestedAt[b := now],
       forcedAt := if force then h.forcedAt[b := now] else h.forcedAt)
  }

  function NoteStart(h: History, b: Id): History {
    h.(clock := h.clock + 1, startedAt := h.startedAt[b := h.clock + 1])
  }

  function FireTimer(s: State, b: Id): State {
    var s1 := s.(sched := Fire(s.sched, b));
    if b in s.sched.running then s1 else
    s1.(builds := s.builds[s.nextBuild := Build(b, b in s.sched.forceFlags, ReadRecord)],
        nextBuild := s.nextBuild + 1, history := NoteStart(s.history, b))
  }

  function Step(s: State, e: Event): State
    requires Enabled(s, e)
  {
    match e
    case Change(b, c) =>
      s.(db := s.db.(compositions := s.db.compositions[b := c]), unscheduled := s.unscheduled + {b})
    case Request(b, force) =>
      s.(sched := Schedule(s.sched, b, force), unscheduled := s.unscheduled - {b},
         history := NoteRequest(s.history, b, force))
    case TimerFires(b) => FireTimer(s, b)
    case Advance(i) =>
      s.(builds := s.builds[i := s.builds[i].(pc := NextPc(s.db, s.builds[i]))], db := NextDb(s.db, i, s.builds[i]))
    case Fail(i) => s.(builds := s.builds[i := s.builds[i].(pc := Ended(Failed))])
    case End(i) =>
      s.(sched := Finish(s.sched, s.builds[i].bundle, s.builds[i].pc.outcome), builds := s.builds - {i})
  }

  predicate Runs(s: State, es: seq<Event>)
    decreases |es|
  {
    es == [] || (Enabled(s, es[0]) && Runs(Step(s, es[0]), es[1..]))
  }

  function Run(s: State, es: seq<Event>): State
    requires Runs(s, es)
    decreases |es|
  {
    if es == [] then s else Run(Step(s, es[0]), es[1..])
  }

  // The process has just started: nothing is scheduled, and every stored pointer was written by some build.
  ghost predicate Initial(s: State) {
    && s.sched == Sched({}, {}, {}, {}, map[])
    && s.builds == map[] && s.unscheduled == {}
    && s.history == History(0, map[], map[], map[])
    && RecordsWritten(s.db) && (forall b :: b in s.db.written ==> s.db.written[b].build == None)
  }

  ghost predicate RecordsWritten(db: Db) {
    && db.records.Keys == db.compositions.Keys
    && forall b :: b in db.records && db.records[b].digest != NoDigest ==>
      && b in db.written
      && db.records[b].digest == DigestOf(db.written[b].seen)
      && db.records[b].archive == Entries(db.written[b].rows)
  }

  // ---------------------------------------------------------------- invariants

  // A rebuild of b is still to come.
  predicate Owed(s: State, b: Id) {
    b in s.unscheduled || b in s.sched.timers || (b in s.sched.running && b in s.sched.queued)
  }

  function At(m: map<Id, nat>, b: Id): nat {
    if b in m then m[b] else 0
  }

  // The running bundles are those of the builds, one build each.
  ghost predicate OneBuildEach(s: State) {
    && (forall i :: i in s.builds ==> i < s.nextBuild && s.builds[i].bundle in s.sched.running)
    && (forall i, j :: i in s.builds && j in s.builds && s.builds[i].bundle == s.builds[j].bundle ==> i == j)
    && (forall b :: b in s.sched.running ==> exists i :: i in s.builds && s.builds[i].bundle == b)
    && s.sched.queued <= s.sched.running
  }

  // Another build of b is to come: its timer is set, or its running build is marked.
  predicate Pending(sched: Sched, b: Id) {
    b in sched.timers || (b in sched.running && b in sched.queued)
  }

  ghost predicate RequestsKept(sched: Sched, h: History) {
    && (forall b :: At(h.requestedAt, b) <= h.clock && At(h.forcedAt, b) <= h.clock && At(h.startedAt, b) <= h.clock)
    && (forall b :: At(h.requestedAt, b) > At(h.startedAt, b) <==> Pending(sched, b))
    && (forall b :: b in sched.forceFlags <==> At(h.forcedAt, b) > At(h.startedAt, b))
  }

  // d is the digest of the current composition, or a rebuild is owed.
  predicate Settled(s: State, b: Id, d: Digest)
    requires b in s.db.compositions
  {
    d == DigestOf(s.db.compositions[b]) || Owed(s, b)
  }

  ghost predicate BuildSound(s: State, build: Build) {
    var b := build.bundle;
    if b !in s.db.records || b !in s.db.compositions then build.pc == ReadRecord || build.pc == Ended(Failed) else
    match build.pc
    case ReadRecord => true
    case ReadComposition(stored) => stored == s.db.records[b].digest
    case ReadRows(digest, seen) => digest == DigestOf(seen) && Settled(s, b, digest)
    case WritePointer(digest, seen, _) => digest == DigestOf(seen) && Settled(s, b, digest)
    case Ended(o) => o == Failed || Settled(s, b, s.db.records[b].digest)
  }

  ghost predicate RecordSound(s: State, b: Id)
    requires b in s.db.records && b in s.db.compositions
  {
    LastSucceeded(s, b) ==> b in s.sched.running || Settled(s, b, s.db.records[b].digest)
  }

  ghost predicate DigestsSound(s: State) {
    && RecordsWritten(s.db)
    && (forall i :: i in s.builds ==> BuildSound(s, s.builds[i]))
    && (forall b :: b in s.db.records ==> RecordSound(s, b))
  }

  predicate LastSucceeded(s: State, b: Id) {
    b in s.sched.last && s.sched.last[b] != Failed
  }

  ghost predicate Inv(s: State) {
    OneBuildEach(s) && RequestsKept(s.sched, s.history) && DigestsSound(s)
  }

  lemma {:induction false} StepKeepsOneBuildEach(s: State, e: Event)
    requires OneBuildEach(s) && Enabled(s, e)
    ensures OneBuildEach(Step(s, e))
  {
    match e
    case Change(_, _) =>
    case Request(_, _) =>
    case TimerFires(b) => FireKeepsOneBuildEach(s, b);
    case Advance(i) =>
      SameBundlesKeepOneBuildEach(s, Step(s, e));
    case Fail(i) =>
      SameBundlesKeepOneBuildEach(s, Step(s, e));
    case End(i) => EndKeepsOneBuildEach(s, i);
  }

  lemma {:induction false} SameBundlesKeepOneBuildEach(s: State, t: State)
    requires OneBuildEach(s) && t.sched == s.sched && t.nextBuild == s.nextBuild && t.builds.Keys == s.builds.Keys
    requires forall i :: i in s.builds ==> t.builds[i].bundle == s.builds[i].bundle
    ensures OneBuildEach(t)
  {
    forall b | b in t.sched.running
      ensures exists i :: i in t.builds && t.builds[i].bundle == b
    {
      var i :| i in s.builds && s.builds[i].bundle == b;
      assert t.builds[i].bundle == b;
    }
  }

  lemma {:induction false} FireKeepsOneBuildEach(s: State, b: Id)
    requires OneBuildEach(s) && b in s.sched.timers
    ensures OneBuildEach(Step(s, TimerFires(b)))
  {
    var t := Step(s, TimerFires(b));
    if b !in s.sched.running {
      forall c | c in t.sched.running
        ensures exists i :: i in t.builds && t.builds[i].bundle == c
      {
        if c == b {
          assert t.builds[s.nextBuild].bundle == b;
        } else {
          var i :| i in s.builds && s.builds[i].bundle == c;
          assert t.builds[i].bundle == c;
        }
      }
    }
  }

  lemma {:induction false} EndKeepsOneBuildEach(s: State, i: nat)
    requires OneBuildEach(s) && Enabled(s, End(i))
    ensures OneBuildEach(Step(s, End(i)))
  {
    var t := Step(s, End(i));
    forall c | c in t.sched.running
      ensures exists j :: j in t.builds && t.builds[j].bundle == c
    {
      var j :| j in s.builds && s.builds[j].bundle == c;
      assert t.builds[j].bundle == c;
    }
  }

  lemma {:induction false} StepKeepsRequests(s: State, e: Event)
    requires OneBuildEach(s) && RequestsKept(s.sched, s.history) && Enabled(s, e)
    ensures var t := Step(s, e); RequestsKept(t.sched, t.history)
  {
    match e
    case Change(_, _) =>
    case Request(b, force) => RequestKeepsRequests(s.sched, s.history, b, force);
    case TimerFires(b) => FireKeepsRequests(s.sched, s.history, b);
    case Advance(_) =>
    case Fail(_) =>
    case End(i) => EndKeepsRequests(s.sched, s.history, s.builds[i].bundle, s.builds[i].pc.outcome);
  }

  lemma {:induction false} RequestKeepsRequests(sched: Sched, h: History, b: Id, force: bool)
    requires RequestsKept(sched, h)
    ensures RequestsKept(Schedule(sched, b, force), NoteRequest(h, b, force))
  {
  }

  lemma {:induction false} FireKeepsRequests(sched: Sched, h: History, b: Id)
    requires RequestsKept(sched, h) && b in sched.timers && sched.queued <= sched.running
    ensures RequestsKept(Fire(sched, b), if b in sched.running then h else NoteStart(h, b))
  {
    var t, g := Fire(sched, b), if b in sched.running then h else NoteStart(h, b);
    forall c
      ensures At(g.requestedAt, c) > At(g.startedAt, c) <==> Pending(t, c)
      ensures c in t.forceFlags <==> At(g.forcedAt, c) > At(g.startedAt, c)
    {
      assert At(h.requestedAt, c) <= h.clock && At(h.forcedAt, c) <= h.clock;
      assert At(g.startedAt, c) == if c == b && b !in sched.running then h.clock + 1 else At(h.startedAt, c);
    }
  }

  lemma {:induction false} EndKeepsRequests(sched: Sched, h: History, b: Id, o: Outcome)
    requires RequestsKept(sched, h) && b in sched.running && sched.queued <= sched.running
    ensures RequestsKept(Finish(sched, b, o), h)
  {
    var t := Finish(sched, b, o);
    forall c
      ensures At(h.requestedAt, c) > At(h.startedAt, c) <==> Pending(t, c)
    {
    }
  }

  lemma {:induction false} StepKeepsDigests(s: State, e: Event)
    requires OneBuildEach(s) && DigestsSound(s) && Enabled(s, e)
    ensures DigestsSound(Step(s, e))
  {
    match e
    case Change(b, c) => ChangeKeepsDigests(s, b, c);
    case Request(b, force) => RequestKeepsDigests(s, b, force);
    case TimerFires(b) => FireKeepsDigests(s, b);
    case Advance(i) => AdvanceKeepsDigests(s, i);
    case Fail(i) => FailKeepsDigests(s, i);
    case End(i) => EndKeepsDigests(s, i);
  }

  lemma {:induction false} ChangeKeepsDigests(s: State, b: Id, c: Composition)
    requires DigestsSound(s) && Enabled(s, Change(b, c))
    ensures DigestsSound(Step(s, Change(b, c)))
  {
  }

  lemma {:induction false} RequestKeepsDigests(s: State, b: Id, force: bool)
    requires DigestsSound(s)
    ensures DigestsSound(Step(s, Request(b, force)))
  {
  }

  lemma {:induction false} FireKeepsDigests(s: State, b: Id)
    requires OneBuildEach(s) && DigestsSound(s) && b in s.sched.timers
    ensures DigestsSound(FireTimer(s, b))
  {
    var t := FireTimer(s, b);
    forall i | i in t.builds ensures BuildSound(t, t.builds[i]) {
      assert i in s.builds ==> BuildSound(s, s.builds[i]) && s.builds[i].bundle in s.sched.running;
    }
    forall c | c in t.db.records ensures RecordSound(t, c) {
      assert RecordSound(s, c);
    }
  }

  lemma {:induction false} AdvanceKeepsDigests(s: State, i: nat)
    requires OneBuildEach(s) && DigestsSound(s) && Enabled(s, Advance(i))
    ensures DigestsSound(Step(s, Advance(i)))
  {
    var t, build := Step(s, Advance(i)), s.builds[i];
    assert BuildSound(s, build);
    AdvancedBuild(s, t, i, build);
    forall j | j in t.builds ensures BuildSound(t, t.builds[j]) {
      assert BuildSound(s, s.builds[j]);
    }
    forall c | c in t.db.records ensures RecordSound(t, c) {
      assert RecordSound(s, c);
    }
  }

  // The builder's next step leaves its own build and the stored records in order.
  lemma {:induction false} AdvancedBuild(s: State, t: State, i: nat, build: Build)
    requires RecordsWritten(s.db) && BuildSound(s, build)
    requires t.sched == s.sched && t.unscheduled == s.unscheduled && t.db == NextDb(s.db, i, build)
    ensures BuildSound(t, build.(pc := NextPc(s.db, build)))
    ensures RecordsWritten(t.db)
  {
  }

  lemma {:induction false} FailKeepsDigests(s: State, i: nat)
    requires DigestsSound(s) && Enabled(s, Fail(i))
    ensures DigestsSound(Step(s, Fail(i)))
  {
  }

  lemma {:induction false} EndKeepsDigests(s: State, i: nat)
    requires OneBuildEach(s) && DigestsSound(s) && Enabled(s, End(i))
    ensures DigestsSound(Step(s, End(i)))
  {
    var t := Step(s, End(i));
    forall j | j in t.builds ensures BuildSound(t, t.builds[j]) {
      assert BuildSound(s, s.builds[j]);
    }
    forall c | c in t.db.records ensures RecordSound(t, c) {
      assert RecordSound(s, c) && BuildSound(s, s.builds[i]);
    }
  }

  lemma {:induction false} RunKeepsInv(s: State, es: seq<Event>)
    requires Inv(s) && Runs(s, es)
    ensures Inv(Run(s, es))
    decreases |es|
  {
    if es != [] {
      StepKeepsOneBuildEach(s, es[0]);
      StepKeepsRequests(s, es[0]);
      StepKeepsDigests(s, es[0]);
      RunKeepsInv(Step(s, es[0]), es[1..]);
    }
  }

  lemma {:induction false} ReachableInv(s: State, es: seq<Event>)
    requires Initial(s) && Runs(s, es)
    ensures Inv(Run(s, es))
  {
    RunKeepsInv(s, es);
  }

  // ---------------------------------------------------------------- what the protocol guarantees

  /** At most one build of a bundle is under way, and only while the bundle is marked running. */
  lemma {:induction false} OneBuildAtATime(s: State, es: seq<Event>, i: nat, j: nat)
    requires Initial(s) && Runs(s, es)
    requires var t := Run(s, es); i in t.builds && j in t.builds && t.builds[i].bundle == t.builds[j].bundle
    ensures i == j && Run(s, es).builds[i].bundle in Run(s, es).sched.running
  {
    ReachableInv(s, es);
  }

  /**
   Exactly the bundles with a request newer than their last build start have a timer pending or a mark on
   their running build: no request is lost, and no build comes unasked. What is reported is so: running while
   a build is under way, else queued while a request is outstanding, else idle.
   */
  lemma {:induction false} NoRequestIsLost(s: State, es: seq<Event>, b: Id)
    requires Initial(s) && Runs(s, es)
    ensures var t := Run(s, es);
            var outstanding := At(t.history.requestedAt, b) > At(t.history.startedAt, b);
            var underWay := exists i :: i in t.builds && t.builds[i].bundle == b;
            && (outstanding <==> b in t.sched.timers || (b in t.sched.running && b in t.sched.queued))
            && (GetStatus(t.sched, b) == Running <==> underWay)
            && (GetStatus(t.sched, b) == Queued <==> !underWay && outstanding)
            && (GetStatus(t.sched, b) == Idle <==> !underWay && !outstanding)
  {
    ReachableInv(s, es);
  }

  /** The next build to start is forced exactly when a forced request came since the last start. */
  lemma {:induction false} ForceReachesNextBuild(s: State, es: seq<Event>, b: Id)
    requires Initial(s) && Runs(s, es)
    requires b in Run(s, es).sched.timers && b !in Run(s, es).sched.running
    ensures var t := Run(s, es);
            var u := Step(t, TimerFires(b));
            && u.builds[t.nextBuild].bundle == b
            && (u.builds[t.nextBuild].force <==> At(t.history.forcedAt, b) > At(t.history.startedAt, b))
  {
    ReachableInv(s, es);
  }

  // Nothing about b is scheduled, running or still to be scheduled.
  predicate Quiescent(s: State, b: Id) {
    b !in s.unscheduled && b !in s.sched.timers && b !in s.sched.running
  }

  /**
   Whatever the interleaving: once a bundle is quiescent and its last build did not fail, the stored
   digest is that of its current composition.
   */
  lemma {:induction false} DigestConverges(s: State, es: seq<Event>, b: Id)
    requires Initial(s) && Runs(s, es)
    requires var t := Run(s, es); b in t.db.compositions && Quiescent(t, b) && LastSucceeded(t, b)
    ensures var t := Run(s, es);
            b in t.db.records && t.db.records[b].digest == DigestOf(t.db.compositions[b])
  {
    ReachableInv(s, es);
    assert RecordSound(Run(s, es), b);
  }

  /**
   In the same states the stored archive is that of the current composition exactly when the last
   build that wrote it got the same entries from its two reads.
   */
  lemma {:induction false} ArchiveConvergesExactly(prefix: string, s: State, es: seq<Event>, b: Id)
    requires Initial(s) && Runs(s, es)
    requires var t := Run(s, es); b in t.db.compositions && Quiescent(t, b) && LastSucceeded(t, b)
    requires var t := Run(s, es); Stored(prefix, t.db.compositions[b]) && PathsGiven(t.db.compositions[b])
    requires var t := Run(s, es); b in t.db.written ==> Stored(prefix, t.db.written[b].seen)
    ensures var t := Run(s, es);
            && b in t.db.written && b in t.db.records
            && (t.db.records[b].archive == Entries(t.db.compositions[b])
                <==> Entries(t.db.written[b].rows) == Entries(t.db.written[b].seen))
  {
    ReachableInv(s, es);
    DigestConverges(s, es, b);
    var t := Run(s, es);
    assert t.db.records[b].digest != NoDigest;
    EqualDigestsEqualEntries(prefix, t.db.compositions[b], t.db.written[b].seen);
  }

  // ---------------------------------------------------------------- what force does

  // A build skips only without force; one that has built is the source of its bundle's record.
  ghost predicate OutcomeSound(s: State, i: nat, build: Build) {
    && (build.pc == Ended(Skipped) ==> !build.force)
    && (build.pc == Ended(Built) ==>
          && build.bundle in s.db.written && build.bundle in s.db.records
          && s.db.written[build.bundle].build == Some(i) && s.db.records[build.bundle].digest != NoDigest)
  }

  ghost predicate OutcomesSound(s: State) {
    forall i :: i in s.builds ==> OutcomeSound(s, i, s.builds[i])
  }

  lemma {:induction false} StepKeepsOutcomes(s: State, e: Event)
    requires OneBuildEach(s) && OutcomesSound(s) && DigestsSound(s) && Enabled(s, e)
    ensures OutcomesSound(Step(s, e))
  {
    var t := Step(s, e);
    forall i | i in t.builds ensures OutcomeSound(t, i, t.builds[i]) {
      assert i in s.builds ==> OutcomeSound(s, i, s.builds[i]);
      if e.Advance? && i in s.builds {
        assert BuildSound(s, s.builds[i]);
      }
    }
  }

  lemma {:induction false} RunKeepsOutcomes(s: State, es: seq<Event>)
    requires Inv(s) && OutcomesSound(s) && Runs(s, es)
    ensures OutcomesSound(Run(s, es))
    decreases |es|
  {
    if es != [] {
      RunKeepsInv(s, [es[0]]);
      assert Run(s, [es[0]]) == Step(s, es[0]) by { assert [es[0]][1..] == []; }
      StepKeepsOutcomes(s, es[0]);
      RunKeepsOutcomes(Step(s, es[0]), es[1..]);
    }
  }

  /**
   In every run: a forced build never ends skipped; a build that has ended built is the source of the record,
   which holds the digest of its first read and the archive of its second.
   */
  lemma {:induction false} EndedBuildsDidTheirWork(s: State, es: seq<Event>, i: nat)
    requires Initial(s) && Runs(s, es)
    requires i in Run(s, es).builds && Run(s, es).builds[i].pc.Ended?
    ensures var t := Run(s, es);
            var build := t.builds[i];
            && (build.force ==> build.pc != Ended(Skipped))
            && (build.pc == Ended(Built) ==>
                  && build.bundle in t.db.written && build.bundle in t.db.records
                  && var source := t.db.written[build.bundle];
                     && source.build == Some(i)
                     && t.db.records[build.bundle] == Record(DigestOf(source.seen), Entries(source.rows)))
  {
    ReachableInv(s, es);
    RunKeepsOutcomes(s, es);
    assert OutcomeSound(Run(s, es), i, Run(s, es).builds[i]);
  }

  /**
   A build about to compare digests skips exactly when it is not forced and the stored digest is that of the
   composition it reads now, and not empty; otherwise it goes on with what it reads.
   */
  lemma {:induction false} SkipsExactly(s: State, es: seq<Event>, i: nat)
    requires Initial(s) && Runs(s, es) && i in Run(s, es).builds && Run(s, es).builds[i].pc.ReadComposition?
    ensures var t := Run(s, es);
            var b, force := t.builds[i].bundle, t.builds[i].force;
            && b in t.db.records && b in t.db.compositions
            && var stored, current := t.db.records[b].digest, DigestOf(t.db.compositions[b]);
               var pc := Step(t, Advance(i)).builds[i].pc;
               && (pc == Ended(Skipped) <==> !force && stored != NoDigest && stored == current)
               && (pc != Ended(Skipped) ==> pc == ReadRows(current, t.db.compositions[b]))
  {
    ReachableInv(s, es);
    assert BuildSound(Run(s, es), Run(s, es).builds[i]);
  }

  // A stretch of a run in which b keeps its composition and build i does not fail.
  predicate Undisturbed(es: seq<Event>, b: Id, i: nat) {
    forall e :: e in es ==> !(e.Change? && e.b == b) && e != Fail(i)
  }

  // What a build has read of a bundle whose composition is c.
  predicate ReadsOnly(pc: Pc, c: Composition) {
    match pc
    case ReadRows(digest, seen) => digest == DigestOf(c) && seen == c
    case WritePointer(digest, seen, rows) => digest == DigestOf(c) && seen == c && rows == c
    case _ => true
  }

  predicate IsCurrent(s: State, b: Id, c: Composition) {
    b in s.db.records && s.db.records[b] == Record(DigestOf(c), Entries(c))
  }

  // Build i of b has read nothing but c, and once it has ended the record is that of c.
  ghost predicate Rebuilding(s: State, b: Id, i: nat, c: Composition) {
    && i < s.nextBuild && b in s.db.records && b in s.db.compositions && s.db.compositions[b] == c
    && (forall j :: j in s.builds && s.builds[j].bundle == b ==> ReadsOnly(s.builds[j].pc, c))
    && (if i in s.builds && !s.builds[i].pc.Ended? then s.builds[i].bundle == b && s.builds[i].force
        else IsCurrent(s, b, c))
    && (i in s.builds ==> s.builds[i].bundle == b && s.builds[i].pc != Ended(Failed))
  }

  lemma {:induction false} StepKeepsRebuilding(s: State, e: Event, b: Id, i: nat, c: Composition)
    requires OneBuildEach(s) && Rebuilding(s, b, i, c) && Enabled(s, e) && Undisturbed([e], b, i)
    ensures Rebuilding(Step(s, e), b, i, c)
  {
    assert e in [e];
  }

  lemma {:induction false} RunKeepsRebuilding(s: State, es: seq<Event>, b: Id, i: nat, c: Composition)
    requires OneBuildEach(s) && Rebuilding(s, b, i, c) && Runs(s, es) && Undisturbed(es, b, i)
    ensures Rebuilding(Run(s, es), b, i, c)
    decreases |es|
  {
    if es != [] {
      assert Undisturbed([es[0]], b, i) && Undisturbed(es[1..], b, i);
      StepKeepsOneBuildEach(s, es[0]);
      StepKeepsRebuilding(s, es[0], b, i, c);
      RunKeepsRebuilding(Step(s, es[0]), es[1..], b, i, c);
    }
  }

  /**
   Where force was asked since the last start, the build that starts next makes the stored archive and digest
   those of the bundle's composition, whatever they were before and whatever else goes on, if the composition
   stays as it is and the build does not fail.
   */
  lemma {:induction false} ForcedBuildMakesCurrent(s: State, es: seq<Event>, b: Id, more: seq<Event>)
    requires Initial(s) && Runs(s, es) && b in Run(s, es).db.compositions
    requires var t := Run(s, es); b in t.sched.timers && b !in t.sched.running
    requires var h := Run(s, es).history; At(h.forcedAt, b) > At(h.startedAt, b)
    requires var t := Run(s, es);
             var u := Step(t, TimerFires(b));
             && Runs(u, more) && Undisturbed(more, b, t.nextBuild)
             && (t.nextBuild in Run(u, more).builds ==> Run(u, more).builds[t.nextBuild].pc.Ended?)
    ensures var t := Run(s, es);
            var v := Run(Step(t, TimerFires(b)), more);
            && b in v.db.records && b in v.db.compositions && v.db.compositions[b] == t.db.compositions[b]
            && v.db.records[b] == Record(DigestOf(v.db.compositions[b]), Entries(v.db.compositions[b]))
  {
    ReachableInv(s, es);
    var t := Run(s, es);
    var c, u := t.db.compositions[b], Step(t, TimerFires(b));
    StepKeepsOneBuildEach(t, TimerFires(b));
    assert Rebuilding(u, b, t.nextBuild, c);
    RunKeepsRebuilding(u, more, b, t.nextBuild, c);
  }

  // ---------------------------------------------------------------- a torn build

  // One more event after the run es.
  lemma {:induction false} Then(s: State, es: seq<Event>, e: Event) returns (fs: seq<Event>)
    requires Runs(s, es) && Enabled(Run(s, es), e)
    ensures Runs(s, fs) && Run(s, fs) == Step(Run(s, es), e)
    ensures fs == es + [e]
    decreases |es|
  {
    fs := es + [e];
    if es == [] {
      assert [e][1..] == [];
    } else {
      assert fs[1..] == es[1..] + [e];
      var _ := Then(Step(s, es[0]), es[1..], e);
    }
  }

  function NewBundle(b: Id, c: Composition): State {
    State(Sched({}, {}, {}, {}, map[]), map[], 0, Db(map[b := c], map[b := Record(NoDigest, [])], map[]), {},
          History(0, map[], map[], map[]))
  }

  // What the torn run needs to know of the state: bundle b's place in the scheduler and in the database.
  predicate View(s: State, b: Id, timer: bool, running: bool, c: Composition, r: Record) {
    && (b in s.sched.timers <==> timer) && (b in s.sched.running <==> running)
    && b !in s.sched.queued && b !in s.sched.forceFlags
    && b in s.db.compositions && s.db.compositions[b] == c
    && b in s.db.records && s.db.records[b] == r
  }

  predicate HasBuild(s: State, b: Id, i: nat, pc: Pc) {
    i in s.builds && s.builds[i] == Build(b, false, pc) && s.nextBuild == i + 1
  }

  // The first build: its pointer write comes after the composition is x again.
  lemma {:induction false} TornWrite(b: Id, x: Composition, y: Composition) returns (es: seq<Event>)
    ensures Runs(NewBundle(b, x), es)
    ensures var t := Run(NewBundle(b, x), es);
            && View(t, b, true, false, x, Record(DigestOf(x), Entries(y))) && t.unscheduled == {} && t.nextBuild == 1
  {
    var s := NewBundle(b, x);
    es := TornReads(b, x, y);
    es := Then(s, es, Change(b, x));
    es := Then(s, es, Request(b, false));
    es := Then(s, es, Advance(0));
    assert View(Run(s, es), b, true, true, x, Record(DigestOf(x), Entries(y)));
    assert HasBuild(Run(s, es), b, 0, Ended(Built));
    es := Then(s, es, End(0));
  }

  /** Changing x to y and back between a builder's two reads leaves the digest of x beside the archive of y. */
  lemma {:induction false} TornBuild(b: Id, x: Composition, y: Composition) returns (es: seq<Event>)
    ensures Initial(NewBundle(b, x)) && Runs(NewBundle(b, x), es)
    ensures var t := Run(NewBundle(b, x), es);
            && Quiescent(t, b) && LastSucceeded(t, b)
            && b in t.db.compositions && t.db.compositions[b] == x
            && b in t.db.records && t.db.records[b] == Record(DigestOf(x), Entries(y))
  {
    var s, torn := NewBundle(b, x), Record(DigestOf(x), Entries(y));
    es := TornWrite(b, x, y);
    es := Then(s, es, TimerFires(b));
    assert View(Run(s, es), b, false, true, x, torn) && HasBuild(Run(s, es), b, 1, ReadRecord);
    es := Then(s, es, Advance(1));
    assert View(Run(s, es), b, false, true, x, torn) && HasBuild(Run(s, es), b, 1, ReadComposition(DigestOf(x)));
    es := Then(s, es, Advance(1));
    assert View(Run(s, es), b, false, true, x, torn) && HasBuild(Run(s, es), b, 1, Ended(Skipped));
    es := Then(s, es, End(1));
    assert View(Run(s, es), b, false, false, x, torn);
  }

  lemma {:induction false} FirstRead(b: Id, x: Composition) returns (es: seq<Event>)
    ensures Runs(NewBundle(b, x), es)
    ensures var t := Run(NewBundle(b, x), es);
            && View(t, b, false, true, x, Record(NoDigest, [])) && t.unscheduled == {}
            && HasBuild(t, b, 0, ReadRows(DigestOf(x), x))
  {
    var s := NewBundle(b, x);
    var none := Record(NoDigest, []);
    es := [];
    es := Then(s, es, Request(b, false));
    assert View(Run(s, es), b, true, false, x, none);
    es := Then(s, es, TimerFires(b));
    assert View(Run(s, es), b, false, true, x, none) && HasBuild(Run(s, es), b, 0, ReadRecord);
    es := Then(s, es, Advance(0));
    assert View(Run(s, es), b, false, true, x, none) && HasBuild(Run(s, es), b, 0, ReadComposition(NoDigest));
    es := Then(s, es, Advance(0));
  }

  // The first half: the builder has read x for its digest and y for its rows.
  lemma {:induction false} TornReads(b: Id, x: Composition, y: Composition) returns (es: seq<Event>)
    ensures Runs(NewBundle(b, x), es)
    ensures var t := Run(NewBundle(b, x), es);
            && View(t, b, true, true, y, Record(NoDigest, [])) && t.unscheduled == {}
            && HasBuild(t, b, 0, WritePointer(DigestOf(x), x, y))
  {
    var s := NewBundle(b, x);
    var none := Record(NoDigest, []);
    es := FirstRead(b, x);
    es := Then(s, es, Change(b, y));
    es := Then(s, es, Request(b, false));
    assert View(Run(s, es), b, true, true, y, none) && HasBuild(Run(s, es), b, 0, ReadRows(DigestOf(x), x));
    es := Then(s, es, Advance(0));
  }
}
