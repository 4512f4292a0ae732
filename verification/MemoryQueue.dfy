/**
 The in-memory queue and its pump. The pump is one coroutine: it runs from one await to the next, and
 between two such runs anyone may call the queue or a handler may finish.
 */
module MemoryQueue {
  import opened Wrappers
  import opened Messages

  // A handler is known by its number.
  type Handler = nat

  // Where the pump stands: about to test the loop condition, in the await of a waiter, in the await of
  // a handler, or past the loop.
  datatype Pc = Ready | Asleep | Handling | Ended

  datatype Delivery = Delivery(msg: Msg, handler: Handler)

  // What has gone in, what was handed to a handler, and how many of the handlers have finished.
  datatype Log = Log(enqueued: seq<Msg>, deliveries: seq<Delivery>, finished: nat)

  datatype State = State(
    queue: seq<Msg>, running: bool, consumer: Option<Handler>, resolveWaiter: bool, pc: Pc, log: Log)

  datatype Event = Enqueue(m: Msg) | Consume(h: Handler) | Stop | Pump | HandlerDone

  // As the queue is when its factory returns: the pump has found no consumer.
  function Init(): State {
    State([], true, None, true, Asleep, Log([], [], 0))
  }

  function Notify(s: State): State {
    if s.resolveWaiter then s.(resolveWaiter := false, pc := Ready) else s
  }

  // The pump, from the head of its loop to the next await.
  function PumpStep(s: State): State {
    if !s.running then s.(pc := Ended)
    else if s.consumer.None? || s.queue == [] then s.(resolveWaiter := true, pc := Asleep)
    else s.(queue := s.queue[1..], pc := Handling,
            log := s.log.(deliveries := s.log.deliveries + [Delivery(s.queue[0], s.consumer.value)]))
  }

  function Step(s: State, e: Event): State {
    match e
    case Enqueue(m) => Notify(s.(queue := s.queue + [m], log := s.log.(enqueued := s.log.enqueued + [m])))
    case Consume(h) => Notify(s.(consumer := Some(h)))
    case Stop => Notify(s.(running := false))
    case Pump => PumpStep(s)
    case HandlerDone => s.(pc := Ready, log := s.log.(finished := s.log.finished + 1))
  }

  predicate Enabled(s: State, e: Event) {
    match e
    case Pump => s.pc == Ready
    case HandlerDone => s.pc == Handling
    case _ => true
  }

  class Queue {
    var queue: seq<Msg>
    var running: bool
    var consumer: Option<Handler>
    var resolveWaiter: bool
    var pc: Pc
    ghost var log: Log

    ghost function Now(): State
      reads this
    {
      State(queue, running, consumer, resolveWaiter, pc, log)
    }

    constructor ()
      ensures Now() == Init()
    {
      queue, running, consumer := [], true, None;
      resolveWaiter, pc := true, Asleep;
      log := Log([], [], 0);
    }

    method WakePump()
      modifies this
      ensures Now() == Notify(old(Now()))
    {
      if resolveWaiter {
        pc := Ready;
        resolveWaiter := false;
      }
    }

    method EnqueueAction(m: Msg)
      modifies this
      ensures Now() == Step(old(Now()), Enqueue(m))
    {
      queue := queue + [m];
      log := log.(enqueued := log.enqueued + [m]);
      WakePump();
    }

    method ConsumeActions(h: Handler)
      modifies this
      ensures Now() == Step(old(Now()), Consume(h))
    {
      consumer := Some(h);
      WakePump();
    }

    method StopPump()
      modifies this
      ensures Now() == Step(old(Now()), Stop)
    {
      running := false;
      WakePump();
    }

    // `call` is the message handed over and the handler that gets it, when the pump does not go to sleep or end.
    method RunPump() returns (call: Option<Delivery>)
      requires pc == Ready
      modifies this
      ensures Now() == PumpStep(old(Now()))
      ensures call == if pc == Handling then Some(log.deliveries[|log.deliveries| - 1]) else None
    {
      if !running {
        pc := Ended;
        return None;
      }
      if consumer == None || queue == [] {
        resolveWaiter := true;
        pc := Asleep;
        return None;
      }
      var msg := queue[0];
      queue := queue[1..];
      pc := Handling;
      call := Some(Delivery(msg, consumer.value));
      log := log.(deliveries := log.deliveries + [call.value]);
    }

    // The handler that the pump awaits has finished.
    method HandlerReturned()
      requires pc == Handling
      modifies this
      ensures Now() == Step(old(Now()), HandlerDone)
    {
      pc := Ready;
      log := log.(finished := log.finished + 1);
    }
  }

  // ---------------------------------------------------------------- over whole runs

  predicate Runs(s: State, es: seq<Event>)
    decreases |es|
  {
    es == [] || (Enabled(s, es[0]) && Runs(Step(s, es[0]), es[1..]))
  }

  function Run(s: State, es: seq<Event>): State
    decreases |es|
  {
    if es == [] then s else Run(Step(s, es[0]), es[1..])
  }

  function Handed(ds: seq<Delivery>): (ms: seq<Msg>)
    ensures |ms| == |ds| && forall i :: 0 <= i < |ds| ==> ms[i] == ds[i].msg
  {
    if ds == [] then [] else [ds[0].msg] + Handed(ds[1..])
  }

  // Nothing is left to hand over, or no one may take it.
  predicate MaySleep(s: State) {
    s.running ==> s.consumer.None? || s.queue == []
  }

  predicate Inv(s: State) {
    && s.resolveWaiter == (s.pc == Asleep)
    && (s.pc == Asleep ==> s.running && MaySleep(s))
    && (s.pc == Ended ==> !s.running)
    && Handed(s.log.deliveries) + s.queue == s.log.enqueued
    && |s.log.deliveries| == s.log.finished + (if s.pc == Handling then 1 else 0)
  }

  lemma {:induction false} StepKeepsInv(s: State, e: Event)
    requires Inv(s) && Enabled(s, e)
    ensures Inv(Step(s, e))
    ensures s.log.enqueued <= Step(s, e).log.enqueued && s.log.deliveries <= Step(s, e).log.deliveries
  {
    match e
    case Enqueue(m) =>
      assert Handed(s.log.deliveries) + (s.queue + [m]) == (Handed(s.log.deliveries) + s.queue) + [m];
    case Pump =>
      if s.running && s.consumer.Some? && s.queue != [] {
        var t := Step(s, e);
        assert Handed(t.log.deliveries) == Handed(s.log.deliveries) + [s.queue[0]];
        assert Handed(t.log.deliveries) + s.queue[1..] == Handed(s.log.deliveries) + s.queue;
      }
    case _ =>
  }

  lemma {:induction false} RunKeepsInv(s: State, es: seq<Event>)
    requires Inv(s) && Runs(s, es)
    ensures Inv(Run(s, es))
    ensures s.log.enqueued <= Run(s, es).log.enqueued && s.log.deliveries <= Run(s, es).log.deliveries
    decreases |es|
  {
    if es != [] {
      StepKeepsInv(s, es[0]);
      RunKeepsInv(Step(s, es[0]), es[1..]);
    }
  }

  /**
   Whatever calls, handlers and pump steps interleave: message number i to be handled is message number i
   to be enqueued, all the rest are still queued in their order, and at most one handler is unfinished.
   */
  lemma {:induction false} FirstInFirstOutOnce(es: seq<Event>)
    requires Runs(Init(), es)
    ensures var s := Run(Init(), es);
            && |s.log.deliveries| + |s.queue| == |s.log.enqueued|
            && (forall i :: 0 <= i < |s.log.deliveries| ==> s.log.deliveries[i].msg == s.log.enqueued[i])
            && s.queue == s.log.enqueued[|s.log.deliveries|..]
            && s.log.finished <= |s.log.deliveries| <= s.log.finished + 1
  {
    RunKeepsInv(Init(), es);
    var s := Run(Init(), es);
    var ms := Handed(s.log.deliveries);
    assert forall i :: 0 <= i < |ms| ==> (ms + s.queue)[i] == ms[i];
  }

  // The handler registered last.
  function LastRegistered(es: seq<Event>, before: Option<Handler>): Option<Handler> {
    if es == [] then before
    else LastRegistered(es[1..], if es[0].Consume? then Some(es[0].h) else before)
  }

  lemma {:induction false} ConsumerIsLastRegistered(s: State, es: seq<Event>)
    requires Runs(s, es)
    ensures Run(s, es).consumer == LastRegistered(es, s.consumer)
    decreases |es|
  {
    if es != [] {
      ConsumerIsLastRegistered(Step(s, es[0]), es[1..]);
    }
  }

  /** What the pump hands over is the message at the head of the queue, to the handler registered last. */
  lemma {:induction false} HandedToTheLastRegistered(es: seq<Event>)
    requires Runs(Init(), es) && Enabled(Run(Init(), es), Pump)
    ensures var s := Run(Init(), es);
            var t := Step(s, Pump);
            if s.running && LastRegistered(es, None).Some? && s.queue != []
            then && t.log.deliveries == s.log.deliveries + [Delivery(s.queue[0], LastRegistered(es, None).value)]
                 && t.pc == Handling
            else t.log.deliveries == s.log.deliveries && t.queue == s.queue
  {
    ConsumerIsLastRegistered(Init(), es);
  }

  /** The pump never sleeps while the queue runs with a consumer and a message; it ends only once stopped. */
  lemma {:induction false} NeverSleepsOnWork(es: seq<Event>)
    requires Runs(Init(), es)
    ensures var s := Run(Init(), es);
            && (s.running && s.consumer.Some? && s.queue != [] ==> s.pc == Ready || s.pc == Handling)
            && (!s.running ==> s.pc != Asleep)
            && (s.pc == Ended ==> !s.running)
  {
    RunKeepsInv(Init(), es);
  }

  // What the pump and the handlers do if left alone with n messages.
  function Drain(n: nat): seq<Event> {
    if n == 0 then [] else [Pump, HandlerDone] + Drain(n - 1)
  }

  /** Left alone, an awake pump with a consumer hands over the whole queue, each message to that consumer. */
  lemma {:induction false} DrainsTheQueue(s: State)
    requires Inv(s) && s.running && s.consumer.Some? && s.pc == Ready
    ensures var t := Run(s, Drain(|s.queue|));
            && Runs(s, Drain(|s.queue|))
            && t.queue == [] && t.log.enqueued == s.log.enqueued && t.log.finished == |s.log.enqueued|
            && Handed(t.log.deliveries) == s.log.enqueued
            && (forall i :: |s.log.deliveries| <= i < |t.log.deliveries| ==>
                  t.log.deliveries[i].handler == s.consumer.value)
    decreases |s.queue|
  {
    if s.queue != [] {
      var es := Drain(|s.queue|);
      var u := Step(s, Pump);
      var v := Step(u, HandlerDone);
      StepKeepsInv(s, Pump);
      StepKeepsInv(u, HandlerDone);
      DrainsTheQueue(v);
      assert es[0] == Pump && es[1..][0] == HandlerDone && es[1..][1..] == Drain(|v.queue|);
      assert Runs(u, es[1..]) && Run(u, es[1..]) == Run(v, Drain(|v.queue|));
      RunKeepsInv(v, Drain(|v.queue|));
    }
  }

  /** Once stopped, nothing more is handed over, whatever is still enqueued. */
  lemma {:induction false} StoppedHandsNothingOver(s: State, es: seq<Event>)
    requires !s.running && Runs(s, es)
    ensures !Run(s, es).running && Run(s, es).log.deliveries == s.log.deliveries
    decreases |es|
  {
    if es != [] {
      StoppedHandsNothingOver(Step(s, es[0]), es[1..]);
    }
  }
}
