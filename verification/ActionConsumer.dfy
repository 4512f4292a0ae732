/**
 Action execution: what the consumer does with one queue message, from the PENDING invocation to its
 final status, with its slot and its retry. Any number of messages may be in the works at once; whatever
 the outside answers (definitions, plugin code, errors, timeouts) comes with the step that asks for it.
 */
module ActionConsumer {
  import opened Wrappers
  import opened Arithmetic
  import opened Messages
  import ActionSlots

  const DEFAULT_RETRY_DELAY_MS := 2000
  const MAX_RETRY_DELAY_MS := 60_000

  // An invocation, numbered in the order of creation.
  type Invocation = nat

  datatype Status = Pending | Success | Retrying | Failed | FailedPermanent | SkippedDisabled

  datatype Kind = Validation | NotFound | Permission | RateLimit | Retryable | Fatal

  // A time-out is a Fatal service error; whatever else plugin code throws is Other.
  datatype Error = ServiceError(kind: Kind, retryDelayMs: Option<int>) | Other

  // Retry(None) asks for a retry after the default delay.
  datatype Result = Plain | Retry(delayMs: Option<int>)

  datatype Definition = Missing | Disabled | Usable | LookupThrows(error: Error)

  datatype Execution = Returns(result: Result) | Throws(error: Error)

  // How an invocation ended.
  datatype Ending = Skipped | Returned(result: Result) | Threw(error: Error)

  datatype Stage =
    | Looking
    | SettingUp
    | Waiting
    | Executing
    | Disposing(thrown: Option<Error>)
    | Failing(error: Error)
    | Done

  // `retryAfter` is the invocation row's retryAt, counted from completion.
  datatype Row = Row(msg: Msg, stage: Stage, status: Status, retryAfter: Option<int>, ending: Option<Ending>)

  // A timer that will enqueue a follow-up.
  datatype FollowUp = FollowUp(of: Invocation, msg: Msg, delayMs: int)

  datatype State = State(slots: ActionSlots.State, rows: map<Invocation, Row>, followUps: seq<FollowUp>)

  datatype Event =
    | Begin(p: Invocation, m: Msg)
    | Look(p: Invocation, definition: Definition)
    | SetUp(p: Invocation, thrown: Option<Error>)
    | Resume(p: Invocation)
    | Execute(p: Invocation, execution: Execution)
    | Dispose(p: Invocation)
    | Fail(p: Invocation)

  // ---------------------------------------------------------------- back-off

  function Pow2(n: nat): (r: int)
    ensures r >= 1
  {
    if n == 0 then 1 else 2 * Pow2(n - 1)
  }

  function ComputeBackoffDelay(attempt: int): int {
    var delay := DEFAULT_RETRY_DELAY_MS * Pow2(Max(0, attempt - 1));
    if delay < MAX_RETRY_DELAY_MS then delay else MAX_RETRY_DELAY_MS
  }

  lemma {:induction false} Pow2Grows(m: nat, n: nat)
    requires m <= n
    ensures Pow2(m) <= Pow2(n)
    decreases n
  {
    if m < n { Pow2Grows(m, n - 1); }
  }

  /** The default delay doubles from two seconds, never decreases, and from the sixth attempt on is a minute. */
  lemma {:induction false} BackoffDoublesUpToAMinute(attempt: int, later: int)
    requires attempt <= later
    ensures 2000 <= ComputeBackoffDelay(attempt) <= ComputeBackoffDelay(later) <= 60_000
    ensures ComputeBackoffDelay(1) == 2000 && (ComputeBackoffDelay(attempt) == 60_000 <==> attempt >= 6)
    ensures attempt < 6 ==>
              ComputeBackoffDelay(attempt + 1) ==
              if attempt < 1 then ComputeBackoffDelay(attempt)
              else if attempt == 5 then 60_000 else 2 * ComputeBackoffDelay(attempt)
  {
    var m, n := Max(0, attempt - 1), Max(0, later - 1);
    Pow2Grows(m, n);
    assert Pow2(1) == 2 && Pow2(2) == 4 && Pow2(3) == 8 && Pow2(4) == 16 && Pow2(5) == 32;
    if attempt >= 6 { Pow2Grows(5, m); } else { Pow2Grows(m, 4); }
  }

  // ---------------------------------------------------------------- the steps of one invocation

  function AttemptOf(m: Msg): int {
    if m.attempt.Some? then m.attempt.value else 1
  }

  function DelayOf(asked: Option<int>, attempt: int): int {
    Max(0, if asked.Some? then asked.value else ComputeBackoffDelay(attempt))
  }

  function FollowUpOf(p: Invocation, m: Msg, delayMs: int): FollowUp {
    var next := Some(AttemptOf(m) + 1);
    FollowUp(p, Msg(m.actionDefinitionId, m.triggerEventId, m.manualInvokerId, m.context, next), delayMs)
  }

  function StatusOfError(e: Error): Status {
    if e.ServiceError? && (e.kind == Retryable || e.kind == RateLimit) then Retrying
    else if e.ServiceError? && (e.kind == Permission || e.kind == Validation || e.kind == Fatal) then FailedPermanent
    else Failed
  }

  function Finish(r: Row, status: Status, retryAfter: Option<int>, ending: Ending): Row {
    r.(status := status, retryAfter := retryAfter, ending := Some(ending))
  }

  function PositiveDelay(delay: int): Option<int> {
    if delay > 0 then Some(delay) else None
  }

  function LookStep(s: State, p: Invocation, d: Definition): State
    requires p in s.rows
  {
    var r := s.rows[p];
    match d
    case Usable => s.(rows := s.rows[p := r.(stage := SettingUp)])
    case LookupThrows(e) => s.(rows := s.rows[p := r.(stage := Failing(e))])
    case _ => s.(rows := s.rows[p := Finish(r, SkippedDisabled, None, Skipped).(stage := Done)])
  }

  // Everything up to the runtime object, then the request for a slot.
  function SetUpStep(s: State, p: Invocation, thrown: Option<Error>): State
    requires p in s.rows
  {
    var r := s.rows[p];
    if thrown.Some? then s.(rows := s.rows[p := r.(stage := Failing(thrown.value))])
    else
      s.(slots := ActionSlots.AcquireStep(s.slots, p),
         rows := s.rows[p := r.(stage := if s.slots.inFlight < s.slots.limit then Executing else Waiting)])
  }

  function ResumeStep(s: State, p: Invocation): State
    requires p in s.rows
  {
    s.(slots := ActionSlots.ResumeStep(s.slots, p), rows := s.rows[p := s.rows[p].(stage := Executing)])
  }

  function ExecuteStep(s: State, p: Invocation, x: Execution): State
    requires p in s.rows
  {
    var r := s.rows[p];
    match x
    case Returns(Retry(asked)) =>
      var delay := DelayOf(asked, AttemptOf(r.msg));
      var ended := Finish(r, Retrying, PositiveDelay(delay), Returned(Retry(asked)));
      s.(rows := s.rows[p := ended.(stage := Disposing(None))],
         followUps := s.followUps + [FollowUpOf(p, r.msg, delay)])
    case Returns(Plain) =>
      s.(rows := s.rows[p := Finish(r, Success, None, Returned(Plain)).(stage := Disposing(None))])
    case Throws(e) =>
      s.(rows := s.rows[p := r.(stage := Disposing(Some(e)))])
  }

  // The runtime object is disposed of, the slot is released, and an error goes on to the handler below.
  function DisposeStep(s: State, p: Invocation): State
    requires p in s.rows
  {
    var r := s.rows[p];
    var next := if r.stage.Disposing? && r.stage.thrown.Some? then Failing(r.stage.thrown.value) else Done;
    s.(slots := ActionSlots.ReleaseStep(s.slots, p), rows := s.rows[p := r.(stage := next)])
  }

  function FailStep(s: State, p: Invocation): State
    requires p in s.rows && s.rows[p].stage.Failing?
  {
    var r := s.rows[p];
    var e := r.stage.error;
    if StatusOfError(e) == Retrying then
      var delay := DelayOf(e.retryDelayMs, AttemptOf(r.msg));
      s.(rows := s.rows[p := Finish(r, Retrying, PositiveDelay(delay), Threw(e)).(stage := Done)],
         followUps := s.followUps + [FollowUpOf(p, r.msg, delay)])
    else s.(rows := s.rows[p := Finish(r, StatusOfError(e), None, Threw(e)).(stage := Done)])
  }

  // A woken waiter resumes when the event loop lets it; every other step needs only its stage.
  predicate Enabled(s: State, e: Event) {
    match e
    case Begin(p, m) => p !in s.rows
    case Look(p, d) => p in s.rows && s.rows[p].stage == Looking
    case SetUp(p, thrown) => p in s.rows && s.rows[p].stage == SettingUp
    case Resume(p) => p in s.rows && s.rows[p].stage == Waiting && p in s.slots.woken
    case Execute(p, x) => p in s.rows && s.rows[p].stage == Executing
    case Dispose(p) => p in s.rows && s.rows[p].stage.Disposing?
    case Fail(p) => p in s.rows && s.rows[p].stage.Failing?
  }

  function Step(s: State, e: Event): State
    requires Enabled(s, e)
  {
    match e
    case Begin(p, m) => s.(rows := s.rows[p := Row(m, Looking, Pending, None, None)])
    case Look(p, d) => LookStep(s, p, d)
    case SetUp(p, thrown) => SetUpStep(s, p, thrown)
    case Resume(p) => ResumeStep(s, p)
    case Execute(p, x) => ExecuteStep(s, p, x)
    case Dispose(p) => DisposeStep(s, p)
    case Fail(p) => FailStep(s, p)
  }

  function Init(limit: Positive): State {
    State(ActionSlots.Init(limit), map[], [])
  }

  // ---------------------------------------------------------------- the consumer, step by step

  class Consumer {
    const slots: ActionSlots.Slots
    var rows: map<Invocation, Row>
    var followUps: seq<FollowUp>

    ghost function Now(): State
      reads this, slots
    {
      State(slots.Now(), rows, followUps)
    }

    constructor (limit: Positive)
      ensures Now() == Init(limit)
      ensures fresh(slots)
    {
      slots := new ActionSlots.Slots(limit);
      rows, followUps := map[], [];
    }

    method Advance(p: Invocation, stage: Stage)
      requires p in rows
      modifies this
      ensures followUps == old(followUps) && rows == old(rows)[p := old(rows)[p].(stage := stage)]
    {
      rows := rows[p := rows[p].(stage := stage)];
    }

    method FinishInvocation(p: Invocation, status: Status, retryAfter: Option<int>, ending: Ending)
      requires p in rows
      modifies this
      ensures followUps == old(followUps) && rows == old(rows)[p := Finish(old(rows)[p], status, retryAfter, ending)]
    {
      rows := rows[p := rows[p].(status := status, retryAfter := retryAfter, ending := Some(ending))];
    }

    method ScheduleRetry(p: Invocation, delayMs: int, nextAttempt: int)
      requires p in rows
      modifies this
      ensures rows == old(rows)
      ensures var msg := rows[p].msg.(attempt := Some(nextAttempt));
              followUps == old(followUps) + [FollowUp(p, msg, if delayMs > 0 then delayMs else 0)]
    {
      var m := rows[p].msg;
      var payload := Msg(m.actionDefinitionId, m.triggerEventId, m.manualInvokerId, m.context, Some(nextAttempt));
      followUps := followUps + [FollowUp(p, payload, Max(0, delayMs))];
    }

    method BeginInvocation(p: Invocation, m: Msg)
      requires p !in rows
      modifies this
      ensures Now() == Step(old(Now()), Begin(p, m))
    {
      rows := rows[p := Row(m, Looking, Pending, None, None)];
    }

    method OnDefinition(p: Invocation, d: Definition)
      requires p in rows && rows[p].stage == Looking
      modifies this
      ensures Now() == Step(old(Now()), Look(p, d))
    {
      match d
      case LookupThrows(e) => Advance(p, Failing(e));
      case Usable => Advance(p, SettingUp);
      case _ =>
        FinishInvocation(p, SkippedDisabled, None, Skipped);
        Advance(p, Done);
    }

    method OnSetUp(p: Invocation, thrown: Option<Error>)
      requires p in rows && rows[p].stage == SettingUp
      modifies this, slots
      ensures Now() == Step(old(Now()), SetUp(p, thrown))
    {
      if thrown.Some? {
        Advance(p, Failing(thrown.value));
        return;
      }
      var granted := slots.AcquireSlot(p);
      Advance(p, if granted then Executing else Waiting);
    }

    method OnResume(p: Invocation)
      requires p in rows && rows[p].stage == Waiting && p in slots.woken
      modifies this, slots
      ensures Now() == Step(old(Now()), Resume(p))
    {
      slots.ResumeWaiter(p);
      Advance(p, Executing);
    }

    method OnExecuted(p: Invocation, x: Execution)
      requires p in rows && rows[p].stage == Executing
      modifies this
      ensures Now() == Step(old(Now()), Execute(p, x))
    {
      match x
      case Throws(e) => Advance(p, Disposing(Some(e)));
      case Returns(result) =>
        if result.Retry? {
          var attempt := AttemptOf(rows[p].msg);
          var delay := Max(0, if result.delayMs.Some? then result.delayMs.value else ComputeBackoffDelay(attempt));
          FinishInvocation(p, Retrying, PositiveDelay(delay), Returned(result));
          ScheduleRetry(p, delay, attempt + 1);
        } else {
          FinishInvocation(p, Success, None, Returned(result));
        }
        Advance(p, Disposing(None));
    }

    method OnDisposed(p: Invocation)
      requires p in rows && rows[p].stage.Disposing?
      modifies this, slots
      ensures Now() == Step(old(Now()), Dispose(p))
    {
      slots.ReleaseSlot(p);
      var thrown := rows[p].stage.thrown;
      Advance(p, if thrown.Some? then Failing(thrown.value) else Done);
    }

    method OnError(p: Invocation)
      requires p in rows && rows[p].stage.Failing?
      modifies this
      ensures Now() == Step(old(Now()), Fail(p))
    {
      var e := rows[p].stage.error;
      var attempt := AttemptOf(rows[p].msg);
      var status, retryDelay := Failed, 0;
      if e.ServiceError? {
        if e.kind == Retryable || e.kind == RateLimit {
          status := Retrying;
          retryDelay := Max(0, if e.retryDelayMs.Some? then e.retryDelayMs.value else ComputeBackoffDelay(attempt));
        } else if e.kind == Permission || e.kind == Validation {
          status := FailedPermanent;
        } else if e.kind == Fatal {
          status := FailedPermanent;
        }
      }
      FinishInvocation(p, status, if status == Retrying && retryDelay > 0 then Some(retryDelay) else None, Threw(e));
      if status == Retrying {
        ScheduleRetry(p, retryDelay, attempt + 1);
      }
      Advance(p, Done);
    }
  }

  // ---------------------------------------------------------------- over whole runs

  predicate Runs(s: State, es: seq<Event>)
    decreases |es|
  {
    es == [] || (Enabled(s, es[0]) && Runs(Step(s, es[0]), es[1..]))
  }

  function Run(s: State, es: seq<Event>): State
    requires Runs(s, es)
    decreases |es|
  {
    if es == [] then s else Run(Step(s, es[0]), es[1..])
  }

  function FollowUpsOf(fs: seq<FollowUp>, p: Invocation): seq<FollowUp> {
    if fs == [] then []
    else FollowUpsOf(fs[..|fs| - 1], p) + if fs[|fs| - 1].of == p then [fs[|fs| - 1]] else []
  }

  predicate Finished(stage: Stage) {
    stage == Done || stage == Disposing(None)
  }

  // The delay an ending asks for, if it asks for a retry.
  function RetryDelay(ending: Ending, attempt: int): Option<int> {
    match ending
    case Returned(Retry(asked)) => Some(DelayOf(asked, attempt))
    case Threw(ServiceError(kind, asked)) =>
      if kind == Retryable || kind == RateLimit then Some(DelayOf(asked, attempt)) else None
    case _ => None
  }

  predicate Permanent(ending: Ending) {
    ending.Threw? && ending.error.ServiceError? && ending.error.kind in {Permission, Validation, Fatal}
  }

  // What the row says is what the ending calls for, and so are the follow-ups.
  predicate EndingAgrees(r: Row, ending: Ending) {
    var delay := RetryDelay(ending, AttemptOf(r.msg));
    && (r.status == Retrying <==> delay.Some?)
    && (r.status == Success <==> ending == Returned(Plain))
    && (r.status == SkippedDisabled <==> ending == Skipped)
    && (r.status == FailedPermanent <==> Permanent(ending))
    && r.retryAfter == (if delay.Some? then PositiveDelay(delay.value) else None)
  }

  function Due(p: Invocation, m: Msg, ending: Option<Ending>): seq<FollowUp> {
    if ending.None? then []
    else
      var delay := RetryDelay(ending.value, AttemptOf(m));
      if delay.Some? then [FollowUpOf(p, m, delay.value)] else []
  }

  // `mine` are the follow-ups scheduled for the row's invocation.
  predicate RowAgrees(p: Invocation, r: Row, mine: seq<FollowUp>) {
    && (r.ending.Some? <==> Finished(r.stage))
    && (r.status == Pending <==> !Finished(r.stage))
    && (r.ending.Some? ==> EndingAgrees(r, r.ending.value))
    && mine == Due(p, r.msg, r.ending)
  }

  predicate SlotsAgree(s: State, p: Invocation) {
    var stage := if p in s.rows then s.rows[p].stage else Done;
    && (p in s.slots.holders <==> stage == Executing || stage.Disposing?)
    && (p in s.slots.waiters || p in s.slots.woken <==> stage == Waiting)
  }

  ghost predicate Invariant(s: State) {
    && AllSlotsAgree(s)
    && (forall p :: RowHolds(s, p))
  }

  // What an event asks of the semaphore.
  function SlotEvents(e: Event): seq<ActionSlots.Event> {
    match e
    case SetUp(p, None) => [ActionSlots.Acquire(p)]
    case Resume(p) => [ActionSlots.Resume(p)]
    case Dispose(p) => [ActionSlots.Release(p)]
    case _ => []
  }

  lemma {:induction false} OneMoreFollowUp(fs: seq<FollowUp>, f: FollowUp, p: Invocation)
    ensures FollowUpsOf(fs + [f], p) == FollowUpsOf(fs, p) + if f.of == p then [f] else []
  {
    assert (fs + [f])[..|fs|] == fs;
  }

  // A step moves one invocation and leaves every other row alone.
  lemma {:induction false} OneRowMoves(s: State, e: Event)
    requires Enabled(s, e)
    ensures e.p in Step(s, e).rows && Step(s, e).rows == s.rows[e.p := Step(s, e).rows[e.p]]
    ensures Step(s, e).slots == (if SlotEvents(e) == [] then s.slots else ActionSlots.Step(s.slots, SlotEvents(e)[0]))
    ensures SlotEvents(e) == [] ==> !UsesSlot(Step(s, e).rows[e.p].stage) || e.Execute?
    ensures SlotEvents(e) == [] ==> e.Begin? || !UsesSlot(s.rows[e.p].stage) || e.Execute?
    ensures e.Execute? ==> Step(s, e).rows[e.p].stage.Disposing?
  {
  }

  predicate UsesSlot(stage: Stage) {
    stage == Waiting || stage == Executing || stage.Disposing?
  }

  ghost predicate AllSlotsAgree(s: State) {
    ActionSlots.Inv(s.slots) && forall p :: SlotsAgree(s, p)
  }

  lemma {:induction false} AcquireFollows(s: State, p: Invocation)
    requires AllSlotsAgree(s) && Enabled(s, SetUp(p, None))
    ensures ActionSlots.Enabled(s.slots, ActionSlots.Acquire(p))
    ensures AllSlotsAgree(SetUpStep(s, p, None))
  {
    assert SlotsAgree(s, p);
    ActionSlots.StepKeepsInv(s.slots, ActionSlots.Acquire(p));
    forall q ensures SlotsAgree(SetUpStep(s, p, None), q) {
      assert SlotsAgree(s, q);
    }
  }

  lemma {:induction false} ResumeFollows(s: State, p: Invocation)
    requires AllSlotsAgree(s) && Enabled(s, Resume(p))
    ensures ActionSlots.Enabled(s.slots, ActionSlots.Resume(p))
    ensures AllSlotsAgree(ResumeStep(s, p))
  {
    assert SlotsAgree(s, p);
    ActionSlots.StepKeepsInv(s.slots, ActionSlots.Resume(p));
    forall q ensures SlotsAgree(ResumeStep(s, p), q) {
      assert SlotsAgree(s, q);
    }
  }

  lemma {:induction false} ReleaseFollows(s: State, p: Invocation)
    requires AllSlotsAgree(s) && Enabled(s, Dispose(p))
    ensures ActionSlots.Enabled(s.slots, ActionSlots.Release(p))
    ensures AllSlotsAgree(DisposeStep(s, p))
  {
    assert SlotsAgree(s, p);
    ActionSlots.StepKeepsInv(s.slots, ActionSlots.Release(p));
    var w := s.slots.waiters;
    assert w != [] ==> w == [w[0]] + w[1..];
    forall q ensures SlotsAgree(DisposeStep(s, p), q) {
      assert SlotsAgree(s, q);
    }
  }

  lemma {:induction false} OthersFollow(s: State, e: Event)
    requires AllSlotsAgree(s) && Enabled(s, e) && SlotEvents(e) == []
    ensures AllSlotsAgree(Step(s, e))
  {
    OneRowMoves(s, e);
    var t := Step(s, e);
    forall q ensures SlotsAgree(t, q) {
      assert SlotsAgree(s, q);
    }
  }

  lemma {:induction false} SlotsFollow(s: State, e: Event)
    requires AllSlotsAgree(s) && Enabled(s, e)
    ensures SlotEvents(e) != [] ==> ActionSlots.Enabled(s.slots, SlotEvents(e)[0])
    ensures Step(s, e).slots == (if SlotEvents(e) == [] then s.slots else ActionSlots.Step(s.slots, SlotEvents(e)[0]))
    ensures AllSlotsAgree(Step(s, e))
  {
    if SlotEvents(e) == [] {
      OneRowMoves(s, e);
      OthersFollow(s, e);
    } else {
      match e
      case SetUp(p, thrown) => AcquireFollows(s, p);
      case Resume(p) => ResumeFollows(s, p);
      case Dispose(p) => ReleaseFollows(s, p);
    }
  }

  predicate RowHolds(s: State, p: Invocation) {
    if p in s.rows then RowAgrees(p, s.rows[p], FollowUpsOf(s.followUps, p)) else FollowUpsOf(s.followUps, p) == []
  }

  lemma {:induction false} FollowUpsGrow(s: State, e: Event, p: Invocation)
    requires Enabled(s, e)
    ensures p != e.p ==> FollowUpsOf(Step(s, e).followUps, p) == FollowUpsOf(s.followUps, p)
  {
    var t := Step(s, e);
    if t.followUps != s.followUps {
      assert e.Execute? || e.Fail?;
      assert t.followUps == s.followUps + [t.followUps[|s.followUps|]];
      OneMoreFollowUp(s.followUps, t.followUps[|s.followUps|], p);
    }
  }

  lemma {:induction false} ExecuteRow(s: State, p: Invocation, x: Execution)
    requires Enabled(s, Execute(p, x)) && RowHolds(s, p)
    ensures RowHolds(ExecuteStep(s, p, x), p)
  {
    match x
    case Returns(Retry(asked)) => RetryRow(s, p, asked);
    case Returns(Plain) => ResultRow(p, s.rows[p], Plain, Success, None);
    case Throws(e) =>
  }

  lemma {:induction false} RetryRow(s: State, p: Invocation, asked: Option<int>)
    requires Enabled(s, Execute(p, Returns(Retry(asked)))) && RowHolds(s, p)
    ensures RowHolds(ExecuteStep(s, p, Returns(Retry(asked))), p)
  {
    var r := s.rows[p];
    var delay := DelayOf(asked, AttemptOf(r.msg));
    assert FollowUpsOf(s.followUps, p) == [];
    OneMoreFollowUp(s.followUps, FollowUpOf(p, r.msg, delay), p);
    ResultRow(p, r, Retry(asked), Retrying, PositiveDelay(delay));
  }

  // The row that a result leaves, and the follow-up it calls for.
  lemma {:induction false} ResultRow(p: Invocation, r: Row, result: Result, status: Status, retryAfter: Option<int>)
    requires status == (if result.Retry? then Retrying else Success)
    requires var delay := RetryDelay(Returned(result), AttemptOf(r.msg));
             retryAfter == if delay.Some? then PositiveDelay(delay.value) else None
    ensures var t := Finish(r, status, retryAfter, Returned(result)).(stage := Disposing(None));
            RowAgrees(p, t, Due(p, r.msg, Some(Returned(result))))
  {
  }

  lemma {:induction false} ErrorsEnd(e: Error, attempt: int)
    ensures RetryDelay(Threw(e), attempt) ==
            if StatusOfError(e) == Retrying then Some(DelayOf(e.retryDelayMs, attempt)) else None
    ensures StatusOfError(e) == FailedPermanent <==> Permanent(Threw(e))
    ensures StatusOfError(e) in {Retrying, FailedPermanent, Failed}
  {
  }

  lemma {:induction false} FailRow(s: State, p: Invocation)
    requires Enabled(s, Fail(p)) && RowHolds(s, p)
    ensures RowHolds(FailStep(s, p), p)
  {
    var r, t := s.rows[p], FailStep(s, p);
    var e, attempt := r.stage.error, AttemptOf(r.msg);
    assert FollowUpsOf(s.followUps, p) == [];
    ErrorsEnd(e, attempt);
    if StatusOfError(e) == Retrying {
      var delay := DelayOf(e.retryDelayMs, attempt);
      OneMoreFollowUp(s.followUps, FollowUpOf(p, r.msg, delay), p);
      ErrorRow(p, r, e, Retrying, PositiveDelay(delay));
    } else {
      ErrorRow(p, r, e, StatusOfError(e), None);
    }
    assert FollowUpsOf(t.followUps, p) == Due(p, r.msg, Some(Threw(e)));
  }

  // The row that an error leaves, and the follow-up it calls for.
  lemma {:induction false} ErrorRow(p: Invocation, r: Row, e: Error, status: Status, retryAfter: Option<int>)
    requires r.stage == Failing(e) && status == StatusOfError(e)
    requires var delay := RetryDelay(Threw(e), AttemptOf(r.msg));
             retryAfter == if delay.Some? then PositiveDelay(delay.value) else None
    ensures var t := Finish(r, status, retryAfter, Threw(e)).(stage := Done);
            RowAgrees(p, t, Due(p, r.msg, Some(Threw(e))))
  {
    ErrorsEnd(e, AttemptOf(r.msg));
  }

  lemma {:induction false} DisposeRow(s: State, p: Invocation)
    requires Enabled(s, Dispose(p)) && RowHolds(s, p)
    ensures RowHolds(DisposeStep(s, p), p)
  {
  }

  lemma {:induction false} SetUpRow(s: State, p: Invocation, thrown: Option<Error>)
    requires Enabled(s, SetUp(p, thrown)) && RowHolds(s, p)
    ensures RowHolds(SetUpStep(s, p, thrown), p)
  {
  }

  lemma {:induction false} LookRow(s: State, p: Invocation, d: Definition)
    requires Enabled(s, Look(p, d)) && RowHolds(s, p)
    ensures RowHolds(LookStep(s, p, d), p)
  {
  }

  lemma {:induction false} RowsFollow(s: State, e: Event, p: Invocation)
    requires RowHolds(s, p) && Enabled(s, e)
    ensures RowHolds(Step(s, e), p)
  {
    if p != e.p {
      OneRowMoves(s, e);
      FollowUpsGrow(s, e, p);
    } else {
      match e
      case Begin(_, m) =>
      case Look(_, d) => LookRow(s, p, d);
      case SetUp(_, thrown) => SetUpRow(s, p, thrown);
      case Resume(_) =>
      case Execute(_, x) => ExecuteRow(s, p, x);
      case Dispose(_) => DisposeRow(s, p);
      case Fail(_) => FailRow(s, p);
    }
  }

  lemma {:induction false} StepKeepsInvariant(s: State, e: Event)
    requires Invariant(s) && Enabled(s, e)
    ensures Invariant(Step(s, e)) && Step(s, e).slots.limit == s.slots.limit
  {
    SlotsFollow(s, e);
    forall p
      ensures RowHolds(Step(s, e), p)
    {
      RowsFollow(s, e, p);
    }
  }

  lemma {:induction false} RunKeepsInvariant(s: State, es: seq<Event>)
    requires Invariant(s) && Runs(s, es)
    ensures Invariant(Run(s, es)) && Run(s, es).slots.limit == s.slots.limit
    decreases |es|
  {
    if es != [] {
      StepKeepsInvariant(s, es[0]);
      RunKeepsInvariant(Step(s, es[0]), es[1..]);
    }
  }

  // ---------------------------------------------------------------- endings

  // How an invocation ends by this event, if it does.
  function EndingBy(e: Event): Option<Ending> {
    match e
    case Look(_, Missing) => Some(Skipped)
    case Look(_, Disabled) => Some(Skipped)
    case Look(_, LookupThrows(error)) => Some(Threw(error))
    case SetUp(_, Some(error)) => Some(Threw(error))
    case Execute(_, Returns(result)) => Some(Returned(result))
    case Execute(_, Throws(error)) => Some(Threw(error))
    case _ => None
  }

  // What the outside's answers for p came to in a run, given what they came to before it.
  function WhatHappened(es: seq<Event>, p: Invocation, before: Option<Ending>): Option<Ending> {
    if es == [] then before
    else WhatHappened(es[1..], p, if es[0].p == p && EndingBy(es[0]).Some? then EndingBy(es[0]) else before)
  }

  // What has happened to p so far, as its row knows it.
  function KnownEnding(s: State, p: Invocation): Option<Ending> {
    if p !in s.rows then None
    else match s.rows[p].stage
         case Disposing(Some(e)) => Some(Threw(e))
         case Failing(e) => Some(Threw(e))
         case _ => s.rows[p].ending
  }

  lemma {:induction false} StepKnowsEnding(s: State, e: Event, p: Invocation)
    requires Enabled(s, e) && (p in s.rows ==> RowHolds(s, p))
    ensures KnownEnding(Step(s, e), p) == if e.p == p && EndingBy(e).Some? then EndingBy(e) else KnownEnding(s, p)
  {
    OneRowMoves(s, e);
  }

  /** A row's ending is what the answers in the run came to, and nothing else. */
  lemma {:induction false} EndingIsWhatHappened(s: State, es: seq<Event>, p: Invocation)
    requires Invariant(s) && Runs(s, es)
    ensures KnownEnding(Run(s, es), p) == WhatHappened(es, p, KnownEnding(s, p))
    decreases |es|
  {
    if es != [] {
      assert RowHolds(s, p);
      StepKnowsEnding(s, es[0], p);
      StepKeepsInvariant(s, es[0]);
      EndingIsWhatHappened(Step(s, es[0]), es[1..], p);
    }
  }

  // The attempt after a message's own, which is the first if it carries no number.
  function NextAttempt(m: Msg): int {
    match m.attempt
    case None => 2
    case Some(n) => n + 1
  }

  // Two, four, eight, sixteen and thirty-two seconds, and a minute from the sixth attempt on.
  function DefaultDelay(attempt: int): int {
    if attempt <= 1 then 2000
    else if attempt < 6 then [4000, 8000, 16_000, 32_000][attempt - 2]
    else 60_000
  }

  // The delay a retry asks for, if the ending calls for a retry; None leaves it to the default.
  function RetryAsked(ending: Ending): Option<Option<int>> {
    match ending
    case Returned(Retry(asked)) => Some(asked)
    case Threw(ServiceError(RateLimit, asked)) => Some(asked)
    case Threw(ServiceError(Retryable, asked)) => Some(asked)
    case _ => None
  }

  function DelayFor(asked: Option<int>, attempt: int): int {
    match asked
    case Some(ms) => if ms > 0 then ms else 0
    case None => DefaultDelay(attempt)
  }

  lemma {:induction false} BackoffIsDefault(attempt: int)
    ensures ComputeBackoffDelay(attempt) == DefaultDelay(attempt)
  {
    assert Pow2(1) == 2 && Pow2(2) == 4 && Pow2(3) == 8 && Pow2(4) == 16 && Pow2(5) == 32;
    if attempt >= 6 { Pow2Grows(5, attempt - 1); }
  }

  lemma {:induction false} RetryIsAsAsked(m: Msg, ending: Ending)
    ensures AttemptOf(m) + 1 == NextAttempt(m)
    ensures RetryDelay(ending, AttemptOf(m))
            == match RetryAsked(ending)
               case None => None
               case Some(asked) => Some(DelayFor(asked, NextAttempt(m) - 1))
  {
    BackoffIsDefault(AttemptOf(m));
  }

  /**
   In every run: a handled message has left PENDING, with the status its ending calls for; its invocation is
   RETRYING exactly when it asked for a retry, and then exactly one follow-up is scheduled for it, with the
   same payload and the next attempt number, after the delay asked for or the default one; otherwise there
   is none.
   */
  lemma {:induction false} RetryingMeansOneFollowUp(limit: Positive, es: seq<Event>, p: Invocation)
    requires Runs(Init(limit), es) && p in Run(Init(limit), es).rows
    requires Run(Init(limit), es).rows[p].stage == Done
    ensures var s := Run(Init(limit), es);
            var r := s.rows[p];
            var mine := FollowUpsOf(s.followUps, p);
            && r.status != Pending && r.ending.Some? && r.ending == WhatHappened(es, p, None)
            && (r.status == Success <==> r.ending.value == Returned(Plain))
            && (r.status == SkippedDisabled <==> r.ending.value == Skipped)
            && (r.status == FailedPermanent <==> Permanent(r.ending.value))
            && (r.status == Retrying <==> RetryAsked(r.ending.value).Some?)
            && (r.status == Retrying ==>
                  var next := NextAttempt(r.msg);
                  var delay := DelayFor(RetryAsked(r.ending.value).value, next - 1);
                  && mine == [FollowUp(p, r.msg.(attempt := Some(next)), delay)]
                  && r.retryAfter == if delay > 0 then Some(delay) else None)
            && (r.status != Retrying ==> mine == [] && r.retryAfter == None)
  {
    RunKeepsInvariant(Init(limit), es);
    EndingIsWhatHappened(Init(limit), es, p);
    assert RowHolds(Run(Init(limit), es), p);
    var r := Run(Init(limit), es).rows[p];
    RetryIsAsAsked(r.msg, r.ending.value);
  }

  lemma {:induction false} FollowUpIsAmongItsOwn(fs: seq<FollowUp>, f: FollowUp)
    requires f in fs
    ensures f in FollowUpsOf(fs, f.of)
    decreases |fs|
  {
    var n := |fs| - 1;
    if f in fs[..n] {
      FollowUpIsAmongItsOwn(fs[..n], f);
    }
  }

  /** No follow-up comes from anywhere else: each belongs to an invocation that is RETRYING. */
  lemma {:induction false} FollowUpsAreOfRetrying(limit: Positive, es: seq<Event>, f: FollowUp)
    requires Runs(Init(limit), es) && f in Run(Init(limit), es).followUps
    ensures var rows := Run(Init(limit), es).rows;
            && f.of in rows && rows[f.of].status == Retrying
            && f.msg == rows[f.of].msg.(attempt := Some(NextAttempt(rows[f.of].msg)))
  {
    RunKeepsInvariant(Init(limit), es);
    FollowUpHasItsInvocation(Run(Init(limit), es), f);
  }

  lemma {:induction false} FollowUpHasItsInvocation(s: State, f: FollowUp)
    requires Invariant(s) && f in s.followUps
    ensures f.of in s.rows && s.rows[f.of].status == Retrying
    ensures f.msg == s.rows[f.of].msg.(attempt := Some(NextAttempt(s.rows[f.of].msg)))
    ensures s.rows[f.of].ending.Some? && RetryAsked(s.rows[f.of].ending.value).Some?
    ensures f.delayMs == DelayFor(RetryAsked(s.rows[f.of].ending.value).value, NextAttempt(s.rows[f.of].msg) - 1)
    ensures FollowUpsOf(s.followUps, f.of) == [f]
  {
    if f.of in s.rows && s.rows[f.of].ending.Some? { RetryIsAsAsked(s.rows[f.of].msg, s.rows[f.of].ending.value); }
    assert RowHolds(s, f.of);
    FollowUpIsAmongItsOwn(s.followUps, f);
  }

  function AllSlotEvents(es: seq<Event>): seq<ActionSlots.Event> {
    if es == [] then [] else SlotEvents(es[0]) + AllSlotEvents(es[1..])
  }

  /**
   Seen from the semaphore, any run of invocations is a run of the slot protocol: no one acquires twice,
   no one releases a slot it does not hold, so what holds of every run of the semaphore holds here.
   */
  lemma {:induction false} InvocationsFollowTheSlotProtocol(s: State, es: seq<Event>)
    requires Invariant(s) && Runs(s, es)
    ensures ActionSlots.Runs(s.slots, AllSlotEvents(es))
    ensures Run(s, es).slots == ActionSlots.Run(s.slots, AllSlotEvents(es))
    decreases |es|
  {
    if es != [] {
      SlotsFollow(s, es[0]);
      StepKeepsInvariant(s, es[0]);
      InvocationsFollowTheSlotProtocol(Step(s, es[0]), es[1..]);
      var now := SlotEvents(es[0]);
      if now == [] {
        assert AllSlotEvents(es) == AllSlotEvents(es[1..]);
      } else {
        assert now == [now[0]] && AllSlotEvents(es)[1..] == AllSlotEvents(es[1..]);
      }
    }
  }

  function Count(es: seq<ActionSlots.Event>, e: ActionSlots.Event): nat {
    if es == [] then 0 else (if es[0] == e then 1 else 0) + Count(es[1..], e)
  }

  // Slots an invocation has come to hold, in a run of the semaphore from s.
  function Grants(s: ActionSlots.State, es: seq<ActionSlots.Event>, p: Invocation): nat
    decreases |es|
  {
    if es == [] then 0
    else (if (es[0] == ActionSlots.Acquire(p) && s.inFlight < s.limit) || es[0] == ActionSlots.Resume(p) then 1 else 0)
         + Grants(ActionSlots.Step(s, es[0]), es[1..], p)
  }

  lemma {:induction false} ReleasesBalanceGrants(s: ActionSlots.State, es: seq<ActionSlots.Event>, p: Invocation)
    requires ActionSlots.Inv(s) && ActionSlots.Runs(s, es)
    ensures (if p in s.holders then 1 else 0) + Grants(s, es, p) ==
            Count(es, ActionSlots.Release(p)) + (if p in ActionSlots.Run(s, es).holders then 1 else 0)
    decreases |es|
  {
    if es != [] {
      ActionSlots.StepKeepsInv(s, es[0]);
      ReleasesBalanceGrants(ActionSlots.Step(s, es[0]), es[1..], p);
    }
  }

  /** A handled message has released its slot exactly as often as it got one, on every path through the consumer. */
  lemma {:induction false} EveryPathReleases(limit: Positive, es: seq<Event>, p: Invocation)
    requires Runs(Init(limit), es) && p in Run(Init(limit), es).rows
    requires Run(Init(limit), es).rows[p].stage == Done
    ensures Count(AllSlotEvents(es), ActionSlots.Release(p)) == Grants(ActionSlots.Init(limit), AllSlotEvents(es), p)
  {
    RunKeepsInvariant(Init(limit), es);
    assert SlotsAgree(Run(Init(limit), es), p);
    InvocationsFollowTheSlotProtocol(Init(limit), es);
    ReleasesBalanceGrants(ActionSlots.Init(limit), AllSlotEvents(es), p);
  }

  ghost predicate OthersDone(s: State, p: Invocation) {
    forall q :: q in s.rows && q != p ==> s.rows[q].stage == Done
  }

  lemma {:induction false} NonEmptyHasFirst(ps: seq<Invocation>)
    ensures ps != [] ==> exists p :: p in ps
  {
    if ps != [] {
      assert ps[0] in ps;
    }
  }

  /** Once every message is handled the semaphore is as it was at first. */
  lemma {:induction false} QuietMeansNoSlotTaken(limit: Positive, es: seq<Event>)
    requires Runs(Init(limit), es)
    requires forall p :: p in Run(Init(limit), es).rows ==> Run(Init(limit), es).rows[p].stage == Done
    ensures Run(Init(limit), es).slots == ActionSlots.Init(limit)
  {
    RunKeepsInvariant(Init(limit), es);
    var s := Run(Init(limit), es);
    forall p ensures p !in s.slots.holders && p !in s.slots.woken && p !in s.slots.waiters {
      assert SlotsAgree(s, p);
    }
    assert s.slots.holders == {} && s.slots.woken == {};
    NonEmptyHasFirst(s.slots.waiters);
  }

  lemma {:induction false} AloneHasRoom(s: State, p: Invocation)
    requires Invariant(s) && OthersDone(s, p) && p in s.rows && s.rows[p].stage == SettingUp
    ensures s.slots.inFlight == 0
  {
    forall q ensures q !in s.slots.holders {
      assert SlotsAgree(s, q);
    }
    assert s.slots.holders == {};
  }

  /** Messages handled one at a time never wait for a slot, whatever the limit. */
  lemma {:induction false} AloneNeverWaits(limit: Positive, es: seq<Event>, p: Invocation)
    requires Runs(Init(limit), es) && OthersDone(Run(Init(limit), es), p)
    requires p in Run(Init(limit), es).rows
    ensures Run(Init(limit), es).rows[p].stage == SettingUp ==>
              Step(Run(Init(limit), es), SetUp(p, None)).rows[p].stage == Executing
  {
    RunKeepsInvariant(Init(limit), es);
    if Run(Init(limit), es).rows[p].stage == SettingUp {
      AloneHasRoom(Run(Init(limit), es), p);
    }
  }

  // What invocation p can do next by itself.
  ghost predicate CanGoOn(s: State, p: Invocation) {
    exists e: Event :: !e.Begin? && e.p == p && Enabled(s, e)
  }

  lemma {:induction false} StagesGoOn(s: State, p: Invocation)
    requires p in s.rows && s.rows[p].stage != Done && (s.rows[p].stage == Waiting ==> p in s.slots.woken)
    ensures CanGoOn(s, p)
  {
    match s.rows[p].stage
    case Looking => assert Enabled(s, Look(p, Missing));
    case SettingUp => assert Enabled(s, SetUp(p, None));
    case Waiting => assert Enabled(s, Resume(p));
    case Executing => assert Enabled(s, Execute(p, Returns(Plain)));
    case Disposing(_) => assert Enabled(s, Dispose(p));
    case Failing(_) => assert Enabled(s, Fail(p));
  }

  /**
   No run is ever stuck: an invocation that is not done can go on by itself, or it waits for a slot, and then
   some other one can go on, which holds a slot or has been woken to take one.
   */
  lemma {:induction false} NeverStuck(limit: Positive, es: seq<Event>, p: Invocation) returns (q: Invocation)
    requires Runs(Init(limit), es) && p in Run(Init(limit), es).rows
    requires Run(Init(limit), es).rows[p].stage != Done
    ensures var s := Run(Init(limit), es);
            && CanGoOn(s, q)
            && (q == p || (s.rows[p].stage == Waiting && (q in s.slots.holders || q in s.slots.woken)))
  {
    RunKeepsInvariant(Init(limit), es);
    var s := Run(Init(limit), es);
    assert SlotsAgree(s, p);
    if s.rows[p].stage == Waiting && p !in s.slots.woken {
      assert p in s.slots.waiters;
      q := SomeoneIsCommitted(s.slots);
      assert SlotsAgree(s, q) && RowHolds(s, q);
    } else {
      q := p;
    }
    StagesGoOn(s, q);
  }

  lemma {:induction false} SomeoneIsCommitted(s: ActionSlots.State) returns (q: Invocation)
    requires ActionSlots.Inv(s) && s.waiters != []
    ensures q in s.holders || q in s.woken
  {
    if s.holders == {} {
      assert |s.woken| > 0;
      q :| q in s.woken;
    } else {
      q :| q in s.holders;
    }
  }
}
