/**
 The fan-out of one trigger firing: a message for every enabled step of every enabled pipeline attached to
 the trigger. The two queries, filtered and in sort order, come as sequences.
 */
module TriggerRunner {
  import opened Wrappers
  import opened Messages
  import Json

  // For each attached pipeline, in order, the actions of its steps, in order.
  type Pipelines = seq<seq<Id>>

  datatype Firing = Firing(triggerEventId: Id, context: Option<Json.Json>)

  function MessageFor(f: Firing, action: Id): Msg {
    Msg(action, Some(f.triggerEventId), None, f.context, None)
  }

  function ForSteps(f: Firing, steps: seq<Id>): (ms: seq<Msg>)
    ensures |ms| == |steps| && forall j :: 0 <= j < |steps| ==> ms[j] == MessageFor(f, steps[j])
  {
    seq(|steps|, j requires 0 <= j < |steps| => MessageFor(f, steps[j]))
  }

  function FanOut(f: Firing, ps: Pipelines): seq<Msg> {
    if ps == [] then [] else FanOut(f, ps[..|ps| - 1]) + ForSteps(f, ps[|ps| - 1])
  }

  // How many steps there are in the first i pipelines.
  function Offset(ps: Pipelines, i: nat): nat
    requires i <= |ps|
  {
    if i == 0 then 0 else Offset(ps, i - 1) + |ps[i - 1]|
  }

  /** The messages passed to onFire, in order. An older schema maps the trigger to its actions directly. */
  method FireTriggerOnce(f: Firing, mappings: Option<seq<Id>>, ps: Pipelines) returns (fired: seq<Msg>)
    ensures fired == if mappings.Some? then ForSteps(f, mappings.value) else FanOut(f, ps)
    ensures forall m :: m in fired ==> m.triggerEventId == Some(f.triggerEventId) && m.context == f.context
                                       && m.manualInvokerId == None && m.attempt == None
  {
    fired := [];
    FanOutIsOfFiring(f, ps);
    if mappings.Some? {
      for j := 0 to |mappings.value|
        invariant fired == ForSteps(f, mappings.value[..j])
      {
        fired := fired + [MessageFor(f, mappings.value[j])];
      }
      assert mappings.value[..|mappings.value|] == mappings.value;
    } else {
      for i := 0 to |ps|
        invariant fired == FanOut(f, ps[..i])
      {
        for j := 0 to |ps[i]|
          invariant fired == FanOut(f, ps[..i]) + ForSteps(f, ps[i][..j])
        {
          assert ForSteps(f, ps[i][..j + 1]) == ForSteps(f, ps[i][..j]) + [MessageFor(f, ps[i][j])];
          fired := fired + [MessageFor(f, ps[i][j])];
        }
        assert ps[i][..|ps[i]|] == ps[i];
        assert ps[..i + 1][..i] == ps[..i];
      }
      assert ps[..|ps|] == ps;
    }
  }

  // Every message of a firing carries its event and context, no invoker and no attempt number.
  predicate IsOfFiring(f: Firing, m: Msg) {
    m == Msg(m.actionDefinitionId, Some(f.triggerEventId), None, f.context, None)
  }

  lemma {:induction false} FanOutIsOfFiring(f: Firing, ps: Pipelines)
    ensures forall m :: m in FanOut(f, ps) ==> IsOfFiring(f, m)
    decreases |ps|
  {
    if ps != [] {
      FanOutIsOfFiring(f, ps[..|ps| - 1]);
    }
  }

  lemma {:induction false} OffsetOfPrefix(ps: Pipelines, n: nat, i: nat)
    requires i <= n <= |ps|
    ensures Offset(ps[..n], i) == Offset(ps, i)
    decreases i
  {
    if i > 0 { OffsetOfPrefix(ps, n, i - 1); }
  }

  predicate IsStep(ps: Pipelines, i: nat, j: nat) {
    i < |ps| && j < |ps[i]|
  }

  // The number of step j of pipeline i, counting through the pipelines.
  function Index(ps: Pipelines, i: nat, j: nat): nat
    requires IsStep(ps, i, j)
  {
    Offset(ps, i) + j
  }

  lemma {:induction false} FanOutLength(f: Firing, ps: Pipelines)
    ensures |FanOut(f, ps)| == Offset(ps, |ps|)
    decreases |ps|
  {
    if ps != [] {
      FanOutLength(f, ps[..|ps| - 1]);
      OffsetOfPrefix(ps, |ps| - 1, |ps| - 1);
    }
  }

  lemma {:induction false} OffsetGrows(ps: Pipelines, i: nat, i': nat)
    requires i < i' <= |ps|
    ensures Offset(ps, i) + |ps[i]| <= Offset(ps, i')
    decreases i'
  {
    if i < i' - 1 { OffsetGrows(ps, i, i' - 1); }
  }

  /** Step j of pipeline i has its own message, at its own number. */
  lemma {:induction false} EveryStepHasItsMessage(f: Firing, ps: Pipelines, i: nat, j: nat)
    requires IsStep(ps, i, j)
    ensures Index(ps, i, j) < |FanOut(f, ps)|
    ensures FanOut(f, ps)[Index(ps, i, j)] == MessageFor(f, ps[i][j])
            == Msg(ps[i][j], Some(f.triggerEventId), None, f.context, None)
    decreases |ps|
  {
    var n := |ps| - 1;
    FanOutLength(f, ps[..n]);
    OffsetOfPrefix(ps, n, n);
    OffsetOfPrefix(ps, n, i);
    if i < n {
      EveryStepHasItsMessage(f, ps[..n], i, j);
    }
  }

  /** No message without a step. */
  lemma {:induction false} EveryMessageHasItsStep(f: Firing, ps: Pipelines, k: nat)
    requires k < |FanOut(f, ps)|
    ensures exists i, j :: IsStep(ps, i, j) && k == Index(ps, i, j)
    decreases |ps|
  {
    var n := |ps| - 1;
    FanOutLength(f, ps[..n]);
    OffsetOfPrefix(ps, n, n);
    if k < |FanOut(f, ps[..n])| {
      EveryMessageHasItsStep(f, ps[..n], k);
      var i, j :| IsStep(ps[..n], i, j) && k == Index(ps[..n], i, j);
      OffsetOfPrefix(ps, n, i);
      assert IsStep(ps, i, j) && k == Index(ps, i, j);
    } else {
      var j := k - Offset(ps, n);
      assert IsStep(ps, n, j) && k == Index(ps, n, j);
    }
  }

  /** Messages stand in the order of pipelines first and of steps within a pipeline second. */
  lemma {:induction false} FiringFollowsPipelinesThenSteps(ps: Pipelines, i: nat, j: nat, i': nat, j': nat)
    requires IsStep(ps, i, j) && IsStep(ps, i', j')
    ensures Index(ps, i, j) < Index(ps, i', j') <==> i < i' || (i == i' && j < j')
  {
    if i < i' { OffsetGrows(ps, i, i'); }
    if i' < i { OffsetGrows(ps, i', i); }
  }
}
