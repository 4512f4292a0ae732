/**
 The queue, its pump and the action consumer together: each message the pump hands over begins one
 invocation, and the pump goes on once that invocation is done. Invocations are numbered in that order.
 The timer of a follow-up enqueues it once, as a message like any other.
 */
module ExecutionRuntime {
  import opened Wrappers
  import opened Arithmetic
  import opened Messages
  import MemoryQueue
  import ActionConsumer
  import TriggerRunner

  // `fired` are the follow-ups whose timers have fired, by number; `origins` says for each enqueued message
  // which follow-up it is, if it is one.
  datatype State = State(
    queue: MemoryQueue.State, work: ActionConsumer.State, fired: set<nat>, origins: seq<Option<nat>>)

  datatype Event =
    | Enqueue(m: Msg)
    | RetryFires(i: nat)
    | Consume(h: MemoryQueue.Handler)
    | Stop
    | Pump
    | Work(e: ActionConsumer.Event)
    | HandlerDone

  function Init(limit: Positive): State {
    State(MemoryQueue.Init(), ActionConsumer.Init(limit), {}, [])
  }

  function HandedOver(s: State): nat {
    |s.queue.log.deliveries|
  }

  // The invocation of the message handed over last.
  predicate CurrentIsDone(s: State) {
    var p := HandedOver(s) - 1;
    p in s.work.rows && s.work.rows[p].stage == ActionConsumer.Done
  }

  predicate Enabled(s: State, e: Event) {
    match e
    case RetryFires(i) => i < |s.work.followUps| && i !in s.fired
    case Pump => s.queue.pc == MemoryQueue.Ready
    case Work(w) => !w.Begin? && ActionConsumer.Enabled(s.work, w)
    case HandlerDone => s.queue.pc == MemoryQueue.Handling && CurrentIsDone(s)
    case _ => true
  }

  function Begun(work: ActionConsumer.State, p: nat, m: Msg): ActionConsumer.State {
    var begin := ActionConsumer.Begin(p, m);
    if ActionConsumer.Enabled(work, begin) then ActionConsumer.Step(work, begin) else work
  }

  // The pump's next run; a message handed over begins its invocation.
  function PumpStep(s: State): State
    requires s.queue.pc == MemoryQueue.Ready
  {
    var queue := MemoryQueue.PumpStep(s.queue);
    s.(queue := queue,
       work := if queue.pc == MemoryQueue.Handling
               then Begun(s.work, HandedOver(s), queue.log.deliveries[HandedOver(s)].msg) else s.work)
  }

  function EnqueueFrom(s: State, m: Msg, origin: Option<nat>): State {
    s.(queue := MemoryQueue.Step(s.queue, MemoryQueue.Enqueue(m)), origins := s.origins + [origin])
  }

  function Step(s: State, e: Event): State
    requires Enabled(s, e)
  {
    match e
    case Enqueue(m) => EnqueueFrom(s, m, None)
    case RetryFires(i) => EnqueueFrom(s, s.work.followUps[i].msg, Some(i)).(fired := s.fired + {i})
    case Consume(h) => s.(queue := MemoryQueue.Step(s.queue, MemoryQueue.Consume(h)))
    case Stop => s.(queue := MemoryQueue.Step(s.queue, MemoryQueue.Stop))
    case Pump => PumpStep(s)
    case Work(w) => s.(work := ActionConsumer.Step(s.work, w))
    case HandlerDone => s.(queue := MemoryQueue.Step(s.queue, MemoryQueue.HandlerDone))
  }

  predicate Runs(s: State, es: seq<Event>)
    decreases |es|
  {
    es == [] || (Enabled(s, es[0]) && Runs(Step(s, es[0]), es[1..]))
  }

  function Run(s: State, es: seq<Event>): State
    requires Runs(s, es)
    decreases |es|
  {
    if es == [] then s else Run(Step(s, es[0]), es[1..])
  }

  // ---------------------------------------------------------------- over whole runs

  // Invocation p is that of message p; it is done unless the pump still waits for it, and never waits for a slot.
  predicate RowFits(s: State, p: nat) {
    && (p in s.work.rows <==> p < HandedOver(s))
    && (p in s.work.rows ==>
          var row := s.work.rows[p];
          && row.msg == s.queue.log.deliveries[p].msg
          && row.stage != ActionConsumer.Waiting
          && (row.stage == ActionConsumer.Done || (p == HandedOver(s) - 1 && s.queue.pc == MemoryQueue.Handling)))
  }

  predicate IsFiring(s: State, k: nat) {
    k < |s.origins| && s.origins[k].Some?
  }

  // Every follow-up that has fired is one enqueued message, and every such message one that has fired.
  ghost predicate RetriesFit(s: State) {
    && |s.origins| == |s.queue.log.enqueued|
    && (forall i :: i in s.fired ==> i < |s.work.followUps| && Some(i) in s.origins)
    && (forall k: nat :: IsFiring(s, k) ==>
          var i := s.origins[k].value;
          i in s.fired && i < |s.work.followUps| && s.queue.log.enqueued[k] == s.work.followUps[i].msg)
    && (forall k: nat, l: nat :: IsFiring(s, k) && IsFiring(s, l) && s.origins[k] == s.origins[l] ==> k == l)
  }

  ghost predicate Inv(s: State) {
    && RetriesFit(s)
    && MemoryQueue.Inv(s.queue) && ActionConsumer.Invariant(s.work)
    && forall p: nat :: RowFits(s, p)
  }

  lemma {:induction false} PumpKeepsInv(s: State)
    requires Inv(s) && Enabled(s, Pump)
    ensures Inv(PumpStep(s))
  {
    var t, n := PumpStep(s), HandedOver(s);
    MemoryQueue.StepKeepsInv(s.queue, MemoryQueue.Pump);
    assert RowFits(s, n);
    if t.queue.pc == MemoryQueue.Handling {
      ActionConsumer.StepKeepsInvariant(s.work, ActionConsumer.Begin(n, t.queue.log.deliveries[n].msg));
    }
    forall p: nat ensures RowFits(t, p) {
      assert RowFits(s, p);
    }
    MoreFollowUpsFit(s, t);
  }

  lemma {:induction false} OthersAreDone(s: State)
    requires Inv(s)
    ensures ActionConsumer.OthersDone(s.work, if HandedOver(s) == 0 then 0 else HandedOver(s) - 1)
  {
    forall p | p in s.work.rows && p != HandedOver(s) - 1 ensures s.work.rows[p].stage == ActionConsumer.Done {
      assert RowFits(s, p);
    }
  }

  // The step's own invocation is the current one, and asking for a slot it gets one.
  lemma {:induction false} WorkKeepsInv(s: State, w: ActionConsumer.Event)
    requires Inv(s) && Enabled(s, Work(w))
    ensures Inv(Step(s, Work(w)))
  {
    var t := Step(s, Work(w));
    ActionConsumer.StepKeepsInvariant(s.work, w);
    ActionConsumer.OneRowMoves(s.work, w);
    assert RowFits(s, w.p);
    OthersAreDone(s);
    if w.SetUp? {
      ActionConsumer.AloneHasRoom(s.work, w.p);
    }
    KeepsMessage(s.work, w);
    FollowUpsOnlyGrow(s.work, w);
    MoreFollowUpsFit(s, t);
    forall p: nat ensures RowFits(t, p) {
      assert RowFits(s, p);
    }
  }

  lemma {:induction false} KeepsMessage(work: ActionConsumer.State, w: ActionConsumer.Event)
    requires ActionConsumer.Enabled(work, w) && !w.Begin?
    requires w.SetUp? ==> work.slots.inFlight < work.slots.limit
    ensures w.p in work.rows && ActionConsumer.Step(work, w).rows[w.p].msg == work.rows[w.p].msg
    ensures ActionConsumer.Step(work, w).rows[w.p].stage != ActionConsumer.Waiting
  {
  }

  lemma {:induction false} StepKeepsInv(s: State, e: Event)
    requires Inv(s) && Enabled(s, e)
    ensures Inv(Step(s, e))
  {
    match e
    case Enqueue(m) => EnqueueKeepsInv(s, m, None);
    case RetryFires(i) => EnqueueKeepsInv(s, s.work.followUps[i].msg, Some(i));
    case Consume(h) => QueueKeepsInv(s, MemoryQueue.Consume(h));
    case Stop => QueueKeepsInv(s, MemoryQueue.Stop);
    case HandlerDone => QueueKeepsInv(s, MemoryQueue.HandlerDone);
    case Pump => PumpKeepsInv(s);
    case Work(w) => WorkKeepsInv(s, w);
  }

  lemma {:induction false} QueueKeepsInv(s: State, e: MemoryQueue.Event)
    requires Inv(s) && MemoryQueue.Enabled(s.queue, e) && !e.Pump? && !e.Enqueue?
    requires e.HandlerDone? ==> CurrentIsDone(s)
    ensures Inv(s.(queue := MemoryQueue.Step(s.queue, e)))
  {
    var t := s.(queue := MemoryQueue.Step(s.queue, e));
    MemoryQueue.StepKeepsInv(s.queue, e);
    forall p: nat ensures RowFits(t, p) {
      assert RowFits(s, p);
    }
    MoreFollowUpsFit(s, t);
  }

  // A message from outside, or a follow-up that has not fired before.
  lemma {:induction false} EnqueueKeepsInv(s: State, m: Msg, origin: Option<nat>)
    requires Inv(s)
    requires origin.Some? ==> origin.value < |s.work.followUps| && origin.value !in s.fired
                              && m == s.work.followUps[origin.value].msg
    ensures var fired := if origin.Some? then s.fired + {origin.value} else s.fired;
            Inv(EnqueueFrom(s, m, origin).(fired := fired))
  {
    var fired := if origin.Some? then s.fired + {origin.value} else s.fired;
    var t := EnqueueFrom(s, m, origin).(fired := fired);
    MemoryQueue.StepKeepsInv(s.queue, MemoryQueue.Enqueue(m));
    forall p: nat ensures RowFits(t, p) {
      assert RowFits(s, p);
    }
    EnqueuedFits(s, t, m, origin);
  }

  lemma {:induction false} EnqueuedFits(s: State, t: State, m: Msg, origin: Option<nat>)
    requires RetriesFit(s)
    requires t.origins == s.origins + [origin] && t.queue.log.enqueued == s.queue.log.enqueued + [m]
    requires t.work == s.work && t.fired == if origin.Some? then s.fired + {origin.value} else s.fired
    requires origin.Some? ==> origin.value < |s.work.followUps| && origin.value !in s.fired
                              && m == s.work.followUps[origin.value].msg
    ensures RetriesFit(t)
  {
    var n := |s.origins|;
    forall k: nat | IsFiring(t, k) && k < n
      ensures s.origins[k] == t.origins[k] && t.origins[k].value in s.fired
    {
      assert IsFiring(s, k);
    }
    forall k: nat, l: nat | IsFiring(t, k) && IsFiring(t, l) && t.origins[k] == t.origins[l] ensures k == l {
      if k < n && l < n { assert IsFiring(s, k) && IsFiring(s, l); }
    }
  }

  lemma {:induction false} FollowUpsOnlyGrow(work: ActionConsumer.State, w: ActionConsumer.Event)
    requires ActionConsumer.Enabled(work, w)
    ensures work.followUps <= ActionConsumer.Step(work, w).followUps
  {
  }

  lemma {:induction false} MoreFollowUpsFit(s: State, t: State)
    requires RetriesFit(s) && t.origins == s.origins && t.fired == s.fired
    requires t.queue.log.enqueued == s.queue.log.enqueued && s.work.followUps <= t.work.followUps
    ensures RetriesFit(t)
  {
    forall k: nat | IsFiring(t, k) ensures IsFiring(s, k) {
    }
  }

  lemma {:induction false} RunKeepsInv(s: State, es: seq<Event>)
    requires Inv(s) && Runs(s, es)
    ensures Inv(Run(s, es))
    decreases |es|
  {
    if es != [] {
      StepKeepsInv(s, es[0]);
      RunKeepsInv(Step(s, es[0]), es[1..]);
    }
  }

  lemma {:induction false} Reachable(limit: Positive, es: seq<Event>)
    requires Runs(Init(limit), es)
    ensures Inv(Run(Init(limit), es))
  {
    assert forall p: nat :: RowFits(Init(limit), p);
    RunKeepsInv(Init(limit), es);
  }

  /**
   In every run at most the invocation of the message handed over last is unfinished, so that no
   invocation ever waits for a slot and at most one holds one, whatever the limit.
   */
  lemma {:induction false} OneInvocationAtATime(limit: Positive, es: seq<Event>)
    requires Runs(Init(limit), es)
    ensures var s := Run(Init(limit), es);
            && (forall p :: p in s.work.rows && s.work.rows[p].stage != ActionConsumer.Done ==>
                  p == HandedOver(s) - 1 && s.queue.pc == MemoryQueue.Handling)
            && s.work.slots.waiters == [] && s.work.slots.woken == {} && |s.work.slots.holders| <= 1
  {
    Reachable(limit, es);
    var s := Run(Init(limit), es);
    var last := HandedOver(s) - 1;
    forall p
      ensures p !in s.work.slots.waiters && p !in s.work.slots.woken
      ensures p in s.work.slots.holders ==> p == last
    {
      assert RowFits(s, p) && ActionConsumer.SlotsAgree(s.work, p);
    }
    ActionConsumer.NonEmptyHasFirst(s.work.slots.waiters);
    assert s.work.slots.woken == {};
    if last >= 0 {
      assert s.work.slots.holders <= {last};
      AtMostOne(s.work.slots.holders, last);
    } else {
      assert s.work.slots.holders == {};
    }
    forall p | p in s.work.rows && s.work.rows[p].stage != ActionConsumer.Done
      ensures p == last && s.queue.pc == MemoryQueue.Handling
    {
      assert RowFits(s, p);
    }
  }

  lemma {:induction false} AtMostOne(s: set<nat>, x: nat)
    requires s <= {x}
    ensures |s| <= 1
  {
    assert s == {} || s == {x};
  }

  /** In every run invocation p is that of message number p to be enqueued, and every earlier one is done. */
  lemma {:induction false} InvocationsFollowTheQueue(limit: Positive, es: seq<Event>, p: nat)
    requires Runs(Init(limit), es) && p in Run(Init(limit), es).work.rows
    ensures var s := Run(Init(limit), es);
            && p < |s.queue.log.enqueued| && s.work.rows[p].msg == s.queue.log.enqueued[p]
            && forall q: nat :: q < p ==> q in s.work.rows && s.work.rows[q].stage == ActionConsumer.Done
  {
    Reachable(limit, es);
    var s := Run(Init(limit), es);
    assert RowFits(s, p);
    var handed := MemoryQueue.Handed(s.queue.log.deliveries);
    assert (handed + s.queue.queue)[p] == handed[p];
    forall q: nat | q < p ensures q in s.work.rows && s.work.rows[q].stage == ActionConsumer.Done {
      assert RowFits(s, q);
    }
  }

  // Where the messages of one firing stand among all that were enqueued: later ones later.
  predicate EnqueuedAt(f: TriggerRunner.Firing, ps: TriggerRunner.Pipelines, enqueued: seq<Msg>, at: seq<nat>) {
    && |at| == |TriggerRunner.FanOut(f, ps)|
    && (forall k :: 0 <= k < |at| ==> at[k] < |enqueued| && enqueued[at[k]] == TriggerRunner.FanOut(f, ps)[k])
    && (forall k, l :: 0 <= k < l < |at| ==> at[k] < at[l])
  }

  /**
   The first attempts of one firing are handled in the order of pipelines and, within one, of steps, one
   after the other, whatever else is enqueued between them: by the time the invocation of a step exists,
   those of all steps before it are done.
   */
  lemma {:induction false} FiringIsHandledInOrder(
    limit: Positive, es: seq<Event>, f: TriggerRunner.Firing, ps: TriggerRunner.Pipelines, at: seq<nat>,
    i: nat, j: nat, i': nat, j': nat)
    requires Runs(Init(limit), es) && EnqueuedAt(f, ps, Run(Init(limit), es).queue.log.enqueued, at)
    requires TriggerRunner.IsStep(ps, i, j) && TriggerRunner.IsStep(ps, i', j')
    requires i < i' || (i == i' && j < j')
    ensures TriggerRunner.Index(ps, i, j) < |at| && TriggerRunner.Index(ps, i', j') < |at|
    ensures var rows := Run(Init(limit), es).work.rows;
            var p, q := at[TriggerRunner.Index(ps, i, j)], at[TriggerRunner.Index(ps, i', j')];
            && p < q
            && (p in rows ==> rows[p].msg == TriggerRunner.MessageFor(f, ps[i][j]))
            && (q in rows ==> p in rows && rows[p].stage == ActionConsumer.Done
                              && rows[q].msg == TriggerRunner.MessageFor(f, ps[i'][j']))
  {
    TriggerRunner.EveryStepHasItsMessage(f, ps, i, j);
    TriggerRunner.EveryStepHasItsMessage(f, ps, i', j');
    TriggerRunner.FiringFollowsPipelinesThenSteps(ps, i, j, i', j');
    var rows := Run(Init(limit), es).work.rows;
    var p, q := at[TriggerRunner.Index(ps, i, j)], at[TriggerRunner.Index(ps, i', j')];
    if p in rows { InvocationsFollowTheQueue(limit, es, p); }
    if q in rows { InvocationsFollowTheQueue(limit, es, q); }
  }

  /**
   In every run, a follow-up whose timer has fired is exactly one enqueued message, with the payload of the
   RETRYING invocation it belongs to and the next attempt number; that invocation has no other follow-up,
   and the one that handles the message exists as soon as the queue has handed over that far.
   */
  lemma {:induction false} FiredFollowUpIsHandledOnce(limit: Positive, es: seq<Event>, i: nat)
    requires Runs(Init(limit), es) && i in Run(Init(limit), es).fired
    ensures i < |Run(Init(limit), es).work.followUps|
    ensures var s := Run(Init(limit), es);
            var f := s.work.followUps[i];
            && f.of in s.work.rows && s.work.rows[f.of].status == ActionConsumer.Retrying
            && f.msg == s.work.rows[f.of].msg.(attempt := Some(ActionConsumer.NextAttempt(s.work.rows[f.of].msg)))
            && ActionConsumer.FollowUpsOf(s.work.followUps, f.of) == [f]
            && exists k: nat ::
                 && IsFiring(s, k) && s.origins[k] == Some(i)
                 && (forall l: nat :: IsFiring(s, l) && s.origins[l] == Some(i) ==> l == k)
                 && k < |s.queue.log.enqueued| && s.queue.log.enqueued[k] == f.msg
                 && (k in s.work.rows <==> k < HandedOver(s))
                 && (k in s.work.rows ==> s.work.rows[k].msg == f.msg)
  {
    Reachable(limit, es);
    var s := Run(Init(limit), es);
    ActionConsumer.FollowUpHasItsInvocation(s.work, s.work.followUps[i]);
    var k :| 0 <= k < |s.origins| && s.origins[k] == Some(i);
    assert IsFiring(s, k) && RowFits(s, k);
    if k in s.work.rows {
      InvocationsFollowTheQueue(limit, es, k);
    }
  }

  // Follow-ups by number, each that of the invocation which handles the one before; the first is that of
  // message number `first`, which carries no attempt number.
  predicate IsRetryChain(s: State, first: nat, chain: seq<nat>) {
    && first < |s.queue.log.enqueued| && s.queue.log.enqueued[first].attempt == None
    && forall k :: 0 <= k < |chain| ==> IsRetryOf(s, first, chain, k)
  }

  predicate IsRetryOf(s: State, first: nat, chain: seq<nat>, k: nat)
    requires k < |chain|
  {
    && chain[k] < |s.work.followUps|
    && var of := s.work.followUps[chain[k]].of;
       if k == 0 then of == first else IsFiring(s, of) && s.origins[of] == Some(chain[k - 1])
  }

  /**
   Along a chain of retries of a message without an attempt number, as those of a firing are, the first
   follow-up carries 2, the next one 3 and so on, all with the message's own payload; and where an
   invocation leaves the delay open, it is the default one for its place in the chain.
   */
  lemma {:induction false} RetriesCountUp(limit: Positive, es: seq<Event>, first: nat, chain: seq<nat>, k: nat)
    requires Runs(Init(limit), es) && IsRetryChain(Run(Init(limit), es), first, chain) && k < |chain|
    ensures var s := Run(Init(limit), es);
            && chain[k] < |s.work.followUps|
            && var f := s.work.followUps[chain[k]];
               && f.msg == s.queue.log.enqueued[first].(attempt := Some(k + 2))
               && f.of in s.work.rows && s.work.rows[f.of].ending.Some?
               && var asked := ActionConsumer.RetryAsked(s.work.rows[f.of].ending.value);
                  asked.Some? && f.delayMs == ActionConsumer.DelayFor(asked.value, k + 1)
  {
    Reachable(limit, es);
    var s := Run(Init(limit), es);
    assert IsRetryOf(s, first, chain, k);
    var f := s.work.followUps[chain[k]];
    ActionConsumer.FollowUpHasItsInvocation(s.work, f);
    InvocationsFollowTheQueue(limit, es, f.of);
    if k > 0 {
      RetriesCountUp(limit, es, first, chain, k - 1);
    }
  }

  // A step of the pump or of the invocation under way; nothing from outside is needed for it.
  predicate IsOwnStep(e: Event) {
    e.Pump? || e.Work? || e.HandlerDone?
  }

  /**
   No run is ever stuck: a message may always be enqueued, and a follow-up that has not fired may fire; and
   while the queue runs with a consumer and a message is queued or under way, the runtime can go on by itself.
   */
  lemma {:induction false} RuntimeGoesOn(limit: Positive, es: seq<Event>)
    requires Runs(Init(limit), es)
    ensures var s := Run(Init(limit), es);
            && (forall m :: Enabled(s, Enqueue(m))) && (forall h :: Enabled(s, Consume(h))) && Enabled(s, Stop)
            && (forall i: nat :: i < |s.work.followUps| && i !in s.fired ==> Enabled(s, RetryFires(i)))
            && (s.queue.pc == MemoryQueue.Handling
                || (s.queue.running && s.queue.consumer.Some? && HandedOver(s) < |s.queue.log.enqueued|) ==>
                  exists e :: IsOwnStep(e) && Enabled(s, e))
  {
    Reachable(limit, es);
    var s := Run(Init(limit), es);
    if s.queue.pc == MemoryQueue.Handling {
      HandlingGoesOn(s);
    } else if s.queue.running && s.queue.consumer.Some? && HandedOver(s) < |s.queue.log.enqueued| {
      assert s.queue.queue != [] by {
        assert |MemoryQueue.Handed(s.queue.log.deliveries)| == HandedOver(s);
      }
      assert Enabled(s, Pump);
    }
  }

  lemma {:induction false} HandlingGoesOn(s: State)
    requires Inv(s) && s.queue.pc == MemoryQueue.Handling
    ensures exists e :: IsOwnStep(e) && Enabled(s, e)
  {
    var p := HandedOver(s) - 1;
    assert p >= 0 && RowFits(s, p);
    if s.work.rows[p].stage == ActionConsumer.Done {
      assert Enabled(s, HandlerDone);
    } else {
      ActionConsumer.StagesGoOn(s.work, p);
      var w: ActionConsumer.Event :| !w.Begin? && w.p == p && ActionConsumer.Enabled(s.work, w);
      assert Enabled(s, Work(w));
    }
  }
}
