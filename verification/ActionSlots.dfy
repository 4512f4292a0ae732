/**
 The counting semaphore around action execution. A release wakes the first waiter, which takes its
 slot only when it resumes: between the two it is woken.
 */
module ActionSlots {
  import opened Arithmetic

  type Id = nat

  datatype State = State(limit: Positive, inFlight: int, waiters: seq<Id>, woken: set<Id>, holders: set<Id>)

  datatype Event = Acquire(p: Id) | Resume(p: Id) | Release(p: Id)

  function Init(limit: Positive): State {
    State(limit, 0, [], {}, {})
  }

  predicate Enabled(s: State, e: Event) {
    match e
    case Acquire(p) => p !in s.holders && p !in s.woken && p !in s.waiters
    case Resume(p) => p in s.woken
    case Release(p) => p in s.holders
  }

  function AcquireStep(s: State, p: Id): State {
    if s.inFlight < s.limit then s.(inFlight := s.inFlight + 1, holders := s.holders + {p})
    else s.(waiters := s.waiters + [p])
  }

  function ResumeStep(s: State, p: Id): State {
    s.(woken := s.woken - {p}, inFlight := s.inFlight + 1, holders := s.holders + {p})
  }

  function ReleaseStep(s: State, p: Id): State {
    var s1 := s.(inFlight := if s.inFlight - 1 < 0 then 0 else s.inFlight - 1, holders := s.holders - {p});
    if s.waiters == [] then s1 else s1.(waiters := s.waiters[1..], woken := s.woken + {s.waiters[0]})
  }

  function Step(s: State, e: Event): State {
    match e
    case Acquire(p) => AcquireStep(s, p)
    case Resume(p) => ResumeStep(s, p)
    case Release(p) => ReleaseStep(s, p)
  }

  class Slots {
    const limit: Positive
    var inFlight: int
    var waiters: seq<Id>
    // Woken waiters and slot holders, as the event loop knows them.
    var woken: set<Id>
    var holders: set<Id>

    function Now(): State
      reads this
    {
      State(limit, inFlight, waiters, woken, holders)
    }

    constructor (limit: Positive)
      ensures Now() == Init(limit)
    {
      this.limit := limit;
      inFlight, waiters, woken, holders := 0, [], {}, {};
    }

    // Up to the await: `granted` when there is no need to wait.
    method AcquireSlot(p: Id) returns (granted: bool)
      modifies this
      ensures Now() == AcquireStep(old(Now()), p)
      ensures granted <==> old(inFlight) < limit
    {
      if inFlight < limit {
        inFlight := inFlight + 1;
        holders := holders + {p};
        return true;
      }
      waiters := waiters + [p];
      granted := false;
    }

    // After the await.
    method ResumeWaiter(p: Id)
      modifies this
      ensures Now() == ResumeStep(old(Now()), p)
    {
      woken := woken - {p};
      inFlight := inFlight + 1;
      holders := holders + {p};
    }

    method ReleaseSlot(p: Id)
      modifies this
      ensures Now() == ReleaseStep(old(Now()), p)
    {
      inFlight := if inFlight - 1 < 0 then 0 else inFlight - 1;
      holders := holders - {p};
      if waiters != [] {
        var next := waiters[0];
        waiters := waiters[1..];
        woken := woken + {next};
      }
    }
  }

  predicate Runs(s: State, es: seq<Event>)
    decreases |es|
  {
    es == [] || (Enabled(s, es[0]) && Runs(Step(s, es[0]), es[1..]))
  }

  function Run(s: State, es: seq<Event>): State
    decreases |es|
  {
    if es == [] then s else Run(Step(s, es[0]), es[1..])
  }

  function Committed(s: State): int {
    s.inFlight + |s.woken|
  }

  predicate Inv(s: State) {
    && s.inFlight == |s.holders|
    && (s.waiters != [] ==> Committed(s) >= s.limit)
    && s.woken !! s.holders
    && (forall p :: p in s.waiters ==> p !in s.woken && p !in s.holders)
    && (forall i, j :: 0 <= i < j < |s.waiters| ==> s.waiters[i] != s.waiters[j])
  }

  // An acquire that takes the slot a woken waiter is about to take.
  predicate Barges(s: State, e: Event) {
    e.Acquire? && s.inFlight < s.limit && Committed(s) >= s.limit
  }

  lemma {:induction false} ResumeKeepsInv(s: State, p: Id)
    requires Inv(s) && p in s.woken
    ensures Inv(ResumeStep(s, p)) && Committed(ResumeStep(s, p)) == Committed(s)
  {
    assert |s.woken - {p}| == |s.woken| - 1;
  }

  lemma {:induction false} ReleaseKeepsInv(s: State, p: Id)
    requires Inv(s) && p in s.holders
    ensures Inv(ReleaseStep(s, p))
    ensures Committed(ReleaseStep(s, p)) == Committed(s) - if s.waiters == [] then 1 else 0
  {
    assert |s.holders - {p}| == |s.holders| - 1;
    if s.waiters != [] {
      assert s.waiters[0] in s.waiters;
      assert s.waiters[0] !in s.waiters[1..];
    }
  }

  lemma {:induction false} StepKeepsInv(s: State, e: Event)
    requires Inv(s) && Enabled(s, e)
    ensures Inv(Step(s, e)) && Step(s, e).limit == s.limit
    ensures Committed(Step(s, e)) == Committed(s)
              + (if e.Acquire? && s.inFlight < s.limit then 1 else if e.Release? && s.waiters == [] then -1 else 0)
  {
    match e
    case Acquire(p) =>
    case Resume(p) => ResumeKeepsInv(s, p);
    case Release(p) => ReleaseKeepsInv(s, p);
  }

  lemma {:induction false} RunKeepsInv(s: State, es: seq<Event>)
    requires Inv(s) && Runs(s, es)
    ensures Inv(Run(s, es)) && Run(s, es).limit == s.limit
    decreases |es|
  {
    if es != [] {
      StepKeepsInv(s, es[0]);
      RunKeepsInv(Step(s, es[0]), es[1..]);
    }
  }

  /**
   In every run: the counter is the number of holders, so the clamp at zero never acts; and no wake-up
   is lost, for someone waits only while the holders and the woken together fill the limit.
   */
  lemma {:induction false} NoLostWakeUp(limit: Positive, es: seq<Event>)
    requires Runs(Init(limit), es)
    ensures var s := Run(Init(limit), es);
            && s.inFlight == |s.holders|
            && (forall p :: p in s.holders ==> s.inFlight - 1 >= 0)
            && (s.waiters != [] ==> s.inFlight + |s.woken| >= limit)
  {
    RunKeepsInv(Init(limit), es);
    var s := Run(Init(limit), es);
    if p :| p in s.holders {
      assert |s.holders - {p}| == |s.holders| - 1;
    }
  }

  // Some acquire of the run barges.
  predicate SomeBarge(s: State, es: seq<Event>)
    decreases |es|
  {
    es != [] && (Barges(s, es[0]) || SomeBarge(Step(s, es[0]), es[1..]))
  }

  // At every point of the run, holders and woken waiters together stay within the limit.
  predicate WithinLimit(s: State, es: seq<Event>)
    decreases |es|
  {
    Committed(s) <= s.limit && (es == [] || WithinLimit(Step(s, es[0]), es[1..]))
  }

  /** Holders and woken waiters stay within the limit throughout a run exactly when no acquire barges. */
  lemma {:induction false} BoundedExactly(s: State, es: seq<Event>)
    requires Inv(s) && Committed(s) <= s.limit && Runs(s, es)
    ensures WithinLimit(s, es) <==> !SomeBarge(s, es)
    decreases |es|
  {
    if es != [] {
      StepKeepsInv(s, es[0]);
      var t := Step(s, es[0]);
      if Barges(s, es[0]) {
        assert Committed(t) > t.limit;
      } else {
        BoundedExactly(t, es[1..]);
      }
    }
  }

  /** A run in which one acquire barges: two actions are in flight under a limit of one. */
  lemma {:induction false} BargingExceedsTheLimit()
    ensures var es := [Acquire(0), Acquire(1), Release(0), Acquire(2), Resume(1)];
            && Runs(Init(1), es)
            && Run(Init(1), es).inFlight == 2
  {
    var s1 := Step(Init(1), Acquire(0));
    assert s1 == State(1, 1, [], {}, {0});
    var s2 := Step(s1, Acquire(1));
    assert s2 == State(1, 1, [1], {}, {0});
    var s3 := Step(s2, Release(0));
    assert s3 == State(1, 0, [], {1}, {});
    var s4 := Step(s3, Acquire(2));
    assert s4 == State(1, 1, [], {1}, {2});
    var s5 := Step(s4, Resume(1));
    assert s5 == State(1, 2, [], {}, {1, 2});
    var e5, e4, e3, e2 := [Resume(1)], [Acquire(2), Resume(1)], [Release(0), Acquire(2), Resume(1)],
                          [Acquire(1), Release(0), Acquire(2), Resume(1)];
    assert e5[1..] == [] && e4[1..] == e5 && e3[1..] == e4 && e2[1..] == e3;
    assert Runs(s4, e5) && Run(s4, e5) == s5;
    assert Runs(s3, e4) && Run(s3, e4) == s5;
    assert Runs(s2, e3) && Run(s2, e3) == s5;
    assert Runs(s1, e2) && Run(s1, e2) == s5;
    assert [Acquire(0), Acquire(1), Release(0), Acquire(2), Resume(1)][1..] == e2;
  }

  // ---------------------------------------------------------------- the order of waking

  // The one that a step wakes, if it wakes one.
  ghost function Woken(s: State, t: State): seq<Id> {
    if t.woken <= s.woken then [] else
    var p :| p in t.woken && p !in s.woken;
    [p]
  }

  // Those that a run wakes, in the order of waking.
  ghost function AllWoken(s: State, es: seq<Event>): seq<Id>
    decreases |es|
  {
    if es == [] then [] else Woken(s, Step(s, es[0])) + AllWoken(Step(s, es[0]), es[1..])
  }

  // Those that a run leaves to wait, in the order of asking.
  function AllQueued(s: State, es: seq<Event>): seq<Id>
    decreases |es|
  {
    if es == [] then []
    else (if es[0].Acquire? && es[0].p !in Step(s, es[0]).holders then [es[0].p] else [])
         + AllQueued(Step(s, es[0]), es[1..])
  }

  lemma {:induction false} StepWakesTheFirst(s: State, e: Event)
    requires Inv(s) && Enabled(s, e)
    ensures var t := Step(s, e);
            s.waiters + (if e.Acquire? && e.p !in t.holders then [e.p] else []) == Woken(s, t) + t.waiters
  {
    var t := Step(s, e);
    if e.Release? && s.waiters != [] {
      assert s.waiters[0] in s.waiters;
      assert s.waiters == [s.waiters[0]] + t.waiters;
      assert Woken(s, t) == [s.waiters[0]];
    }
  }

  lemma {:induction false} Regroup(
    a: seq<Id>, asked: seq<Id>, later: seq<Id>, woken: seq<Id>, b: seq<Id>, next: seq<Id>, c: seq<Id>)
    requires a + asked == woken + b && b + later == next + c
    ensures a + (asked + later) == (woken + next) + c
  {
    assert a + (asked + later) == (a + asked) + later;
    assert (woken + b) + later == woken + (b + later);
    assert woken + (next + c) == (woken + next) + c;
  }

  /** In every run waiters are woken in the order in which they asked: those woken are the first to have queued up. */
  lemma {:induction false} FirstToAskFirstWoken(s: State, es: seq<Event>)
    requires Inv(s) && Runs(s, es)
    ensures s.waiters + AllQueued(s, es) == AllWoken(s, es) + Run(s, es).waiters
    decreases |es|
  {
    if es != [] {
      var t := Step(s, es[0]);
      StepKeepsInv(s, es[0]);
      StepWakesTheFirst(s, es[0]);
      FirstToAskFirstWoken(t, es[1..]);
      Regroup(s.waiters, if es[0].Acquire? && es[0].p !in t.holders then [es[0].p] else [], AllQueued(t, es[1..]),
              Woken(s, t), t.waiters, AllWoken(t, es[1..]), Run(t, es[1..]).waiters);
    }
  }
}
