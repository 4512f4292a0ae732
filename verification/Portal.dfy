/**
 Recipient downloads of an assigned bundle: the admission test of the download transaction and the
 summary of the same assignment. Times are in milliseconds; transactions run one after another.
 */
module Portal {
  import opened Wrappers
  import opened Arithmetic

  datatype Assignment = Assignment(
    isEnabled: bool, maxDownloads: Option<int>, cooldownSeconds: Option<int>, lastDownloadAt: Option<int>)

  // An assignment with the times of its download events, in the order of their transactions.
  datatype State = State(assignment: Assignment, events: seq<int>)

  datatype Verdict = Admitted | NotAuthorized | LimitReached | CooldownActive

  datatype Summary = Summary(
    downloadsUsed: int, downloadsRemaining: Option<int>, nextAvailableAt: Option<int>, cooldownRemainingSeconds: int)

  function Judge(s: State, now: int): Verdict {
    var a := s.assignment;
    if !a.isEnabled then NotAuthorized
    else if a.maxDownloads.Some? && |s.events| >= a.maxDownloads.value then LimitReached
    else if a.cooldownSeconds.Some? && a.lastDownloadAt.Some?
            && a.lastDownloadAt.value + a.cooldownSeconds.value * 1000 > now then CooldownActive
    else Admitted
  }

  function Download(s: State, now: int): State {
    if Judge(s, now) == Admitted then State(s.assignment.(lastDownloadAt := Some(now)), s.events + [now]) else s
  }

  // Rounded up, for any numerator.
  function CeilDiv1000(n: int): int {
    -((-n) / 1000)
  }

  function ToAssignmentSummary(a: Assignment, downloadsUsed: int, now: int): Summary {
    var remaining := if a.maxDownloads.Some? then Some(Max(0, a.maxDownloads.value - downloadsUsed)) else None;
    var next := if a.cooldownSeconds.Some? && a.lastDownloadAt.Some?
                then Some(a.lastDownloadAt.value + a.cooldownSeconds.value * 1000) else None;
    Summary(downloadsUsed, remaining, next, if next.Some? then Max(0, CeilDiv1000(next.value - now)) else 0)
  }

  class AssignmentRecord {
    var assignment: Assignment
    var events: seq<int>

    function Now(): State
      reads this
    {
      State(assignment, events)
    }

    method TryDownload(now: int) returns (verdict: Verdict)
      modifies this
      ensures verdict == Judge(old(Now()), now)
      ensures Now() == Download(old(Now()), now)
    {
      if !assignment.isEnabled {
        return NotAuthorized;
      }
      var used := |events|;
      if assignment.maxDownloads.Some? && used >= assignment.maxDownloads.value {
        return LimitReached;
      }
      if assignment.cooldownSeconds.Some? && assignment.lastDownloadAt.Some? {
        if assignment.lastDownloadAt.value + assignment.cooldownSeconds.value * 1000 > now {
          return CooldownActive;
        }
      }
      events := events + [now];
      assignment := assignment.(lastDownloadAt := Some(now));
      verdict := Admitted;
    }
  }

  // ---------------------------------------------------------------- the summary tells the truth

  function SummaryOf(s: State, now: int): Summary {
    ToAssignmentSummary(s.assignment, |s.events|, now)
  }

  /** An enabled assignment's download is admitted exactly when its summary leaves a download and no time to wait. */
  lemma {:induction false} AdmittedAsSummarised(s: State, now: int)
    ensures Judge(s, now) == Admitted <==>
            && s.assignment.isEnabled
            && (SummaryOf(s, now).downloadsRemaining.Some? ==> SummaryOf(s, now).downloadsRemaining.value > 0)
            && SummaryOf(s, now).cooldownRemainingSeconds == 0
  {
  }

  /**
   A refusal is as the summary has it, too: for the limit, whatever the cooldown, when no download is left,
   and for the cooldown when one is but its time has not come.
   */
  lemma {:induction false} RefusedAsSummarised(s: State, now: int)
    ensures Judge(s, now) == NotAuthorized <==> !s.assignment.isEnabled
    ensures Judge(s, now) == LimitReached <==>
            s.assignment.isEnabled && SummaryOf(s, now).downloadsRemaining == Some(0)
    ensures Judge(s, now) == CooldownActive <==>
            && s.assignment.isEnabled && SummaryOf(s, now).downloadsRemaining != Some(0)
            && SummaryOf(s, now).nextAvailableAt.Some? && now < SummaryOf(s, now).nextAvailableAt.value
  {
  }

  // Requests that each come when the summary reports no time to wait.
  predicate Patient(s: State, times: seq<int>)
    decreases |times|
  {
    times == []
    || (SummaryOf(s, times[0]).cooldownRemainingSeconds == 0 && Patient(Download(s, times[0]), times[1..]))
  }

  function Downloads(s: State, times: seq<int>): State
    decreases |times|
  {
    if times == [] then s else Downloads(Download(s, times[0]), times[1..])
  }

  /**
   The downloads remaining in the summary are those still to be had: of patient requests for an enabled
   assignment the first so many are admitted, all of them where there is no limit, and no others.
   */
  lemma {:induction false} RemainingIsStillToBeHad(s: State, now: int, times: seq<int>)
    requires s.assignment.isEnabled && Patient(s, times)
    ensures var remaining := SummaryOf(s, now).downloadsRemaining;
            var n := if remaining.Some? && remaining.value < |times| then remaining.value else |times|;
            0 <= n <= |times| && Downloads(s, times).events == s.events + times[..n]
    decreases |times|
  {
    if times != [] {
      var t, rest := Download(s, times[0]), times[1..];
      PatientStep(s, now, times[0]);
      RemainingIsStillToBeHad(t, now, rest);
      if t.events != s.events {
        forall k | 0 <= k <= |rest| ensures s.events + times[..k + 1] == t.events + rest[..k] {
          assert times[..k + 1] == [times[0]] + rest[..k];
        }
      }
    }
  }

  // A patient request is admitted if a download is left, and then one less is.
  lemma {:induction false} PatientStep(s: State, now: int, time: int)
    requires s.assignment.isEnabled && SummaryOf(s, time).cooldownRemainingSeconds == 0
    ensures var t, remaining := Download(s, time), SummaryOf(s, now).downloadsRemaining;
            && t.assignment.isEnabled
            && if remaining == Some(0) then t == s
               else t.events == s.events + [time]
                    && SummaryOf(t, now).downloadsRemaining
                       == if remaining.Some? then Some(remaining.value - 1) else None
  {
    AdmittedAsSummarised(s, time);
  }

  /** The seconds reported are the fewest whole seconds after which the cooldown no longer refuses a download. */
  lemma {:induction false} RemainingSecondsIsLeast(s: State, now: int, wait: int)
    requires wait >= 0 && s.assignment.isEnabled
    requires s.assignment.maxDownloads.Some? ==> |s.events| < s.assignment.maxDownloads.value
    ensures Judge(s, now + wait * 1000) == Admitted <==> wait >= SummaryOf(s, now).cooldownRemainingSeconds
  {
    var a := s.assignment;
    if a.cooldownSeconds.Some? && a.lastDownloadAt.Some? {
      var left := a.lastDownloadAt.value + a.cooldownSeconds.value * 1000 - now;
      var c := CeilDiv1000(left);
      assert 1000 * (c - 1) < left <= 1000 * c;
    }
  }

  // ---------------------------------------------------------------- over whole runs

  datatype Op = Request(now: int) | Configure(isEnabled: bool, cooldownSeconds: Option<int>)

  // The limit stays; an administrator may enable, disable and change the cooldown between downloads.
  function Step(s: State, op: Op): State {
    match op
    case Request(now) => Download(s, now)
    case Configure(enabled, cooldown) =>
      s.(assignment := s.assignment.(isEnabled := enabled, cooldownSeconds := cooldown))
  }

  function Run(s: State, ops: seq<Op>): State
    decreases |ops|
  {
    if ops == [] then s else Run(Step(s, ops[0]), ops[1..])
  }

  // The last download time is that of the last event.
  predicate Inv(s: State) {
    && (s.events == [] ==> s.assignment.lastDownloadAt.None?)
    && (s.events != [] ==> s.assignment.lastDownloadAt == Some(s.events[|s.events| - 1]))
  }

  predicate WithinLimit(s: State) {
    s.assignment.maxDownloads.Some? ==> |s.events| <= Max(0, s.assignment.maxDownloads.value)
  }

  // Successive events are at least this far apart.
  predicate Apart(events: seq<int>, cooldownSeconds: int) {
    forall i :: 0 < i < |events| ==> events[i] >= events[i - 1] + cooldownSeconds * 1000
  }

  // Every cooldown in force during the run is at least this long.
  predicate CooldownAtLeast(s: State, ops: seq<Op>, seconds: int) {
    && s.assignment.cooldownSeconds.Some? && s.assignment.cooldownSeconds.value >= seconds
    && (forall op :: op in ops && op.Configure? ==> op.cooldownSeconds.Some? && op.cooldownSeconds.value >= seconds)
  }

  lemma {:induction false} StepKeepsTerms(s: State, op: Op, seconds: int)
    requires Inv(s) && WithinLimit(s)
    ensures Inv(Step(s, op)) && WithinLimit(Step(s, op))
    ensures Step(s, op).assignment.maxDownloads == s.assignment.maxDownloads
    ensures var cooldown := s.assignment.cooldownSeconds;
            Apart(s.events, seconds) && cooldown.Some? && cooldown.value >= seconds ==>
              Apart(Step(s, op).events, seconds)
  {
    var t := Step(s, op);
    if t.events != s.events {
      assert t.events == s.events + [op.now];
    }
  }

  lemma {:induction false} RunKeepsTerms(s: State, ops: seq<Op>, seconds: int)
    requires Inv(s) && WithinLimit(s)
    ensures WithinLimit(Run(s, ops)) && Run(s, ops).assignment.maxDownloads == s.assignment.maxDownloads
    ensures Apart(s.events, seconds) && CooldownAtLeast(s, ops, seconds) ==> Apart(Run(s, ops).events, seconds)
    decreases |ops|
  {
    if ops != [] {
      StepKeepsTerms(s, ops[0], seconds);
      assert ops[0] in ops;
      RunKeepsTerms(Step(s, ops[0]), ops[1..], seconds);
    }
  }

  lemma {:induction false} ApartAddsUp(events: seq<int>, seconds: int, i: nat, j: nat)
    requires Apart(events, seconds) && i <= j < |events|
    ensures events[j] >= events[i] + (j - i) * (seconds * 1000)
    decreases j
  {
    if i < j {
      ApartAddsUp(events, seconds, i, j - 1);
      assert (j - i) * (seconds * 1000) == (j - 1 - i) * (seconds * 1000) + seconds * 1000;
    }
  }

  /**
   In every run of a new assignment: its downloads never exceed its limit; and as long as every cooldown
   in force is at least so long, any two of its downloads lie as many cooldowns apart as there are steps
   from one to the other, whatever the clock does.
   */
  lemma {:induction false} DownloadsKeepToTheirTerms(s: State, ops: seq<Op>, seconds: int, i: nat, j: nat)
    requires s.events == [] && s.assignment.lastDownloadAt.None?
    ensures var events, most := Run(s, ops).events, s.assignment.maxDownloads;
            && (most.Some? ==> |events| <= Max(0, most.value))
            && (CooldownAtLeast(s, ops, seconds) && i <= j < |events| ==>
                  events[j] >= events[i] + (j - i) * (seconds * 1000))
  {
    RunKeepsTerms(s, ops, seconds);
    if CooldownAtLeast(s, ops, seconds) && i <= j < |Run(s, ops).events| {
      ApartAddsUp(Run(s, ops).events, seconds, i, j);
    }
  }
}
