/** What the watchdog does, in terms of clocks, stamps and limits alone; and that it leaves healthy runs alone. */
module WatchMeaning {
  import opened Wrappers
  import opened RunStates
  import opened RunRows
  import opened RunsTable
  import opened Watchdog

  // Later than the deadline by more than the grace.
  ghost predicate OutOfTime(row: Row, now: Time, grace: nat) {
    row.deadlineAt.Some? && now - row.deadlineAt.value > grace
  }

  // Dispatched but not started in time.
  ghost predicate Unstarted(row: Row, now: Time, limits: Limits) {
    row.status == Dispatched && (row.dispatchedAt.None? || now - row.dispatchedAt.value > limits.dispatchTimeout)
  }

  // Running but not heard of in time.
  ghost predicate Silent(row: Row, now: Time, limits: Limits) {
    row.status == Running && (row.heartbeatAt.None? || now - row.heartbeatAt.value > limits.heartbeatTimeout)
  }

  // Requeued exactly as stale with time and an attempt to spare, and not asked to stop.
  lemma RequeuedIff(row: Row, now: Time, limits: Limits, code: ErrorCode)
    ensures Decide(row, now, limits) == Requeue(code) <==>
      && row.attempts < limits.maxAttempts && !row.cancelRequested && !OutOfTime(row, now, 0)
      && ((Unstarted(row, now, limits) && code == AgentUnreachable) || (Silent(row, now, limits) && code == HeartbeatLost))
  {
  }

  // Failed exactly as out of time - a running agent is given its grace - or as stale without an attempt left.
  lemma FailedIff(row: Row, now: Time, limits: Limits, code: ErrorCode)
    ensures Decide(row, now, limits) == Fail(code) <==>
      || (row.status in {Queued, Dispatched} && OutOfTime(row, now, 0) && code == DeadlineExceeded)
      || (row.status == Running && OutOfTime(row, now, limits.cancelGrace) && code == DeadlineExceeded)
      || (row.attempts >= limits.maxAttempts && !row.cancelRequested && !OutOfTime(row, now, 0)
          && ((Unstarted(row, now, limits) && code == AgentUnreachable) || (Silent(row, now, limits) && code == HeartbeatLost)))
  {
  }

  // Cancelled exactly when asked to stop and nobody is there to do so.
  lemma CancelledIff(row: Row, now: Time, limits: Limits)
    ensures Decide(row, now, limits) == Cancel <==>
      && row.cancelRequested
      && ((Unstarted(row, now, limits) && !OutOfTime(row, now, 0)) || (Silent(row, now, limits) && !OutOfTime(row, now, limits.cancelGrace)))
  {
  }

  // The agent is asked to stop exactly once its time is up, within the grace and not asked before.
  lemma AskedIff(row: Row, now: Time, limits: Limits)
    ensures Decide(row, now, limits) == AskAgentToCancel <==>
      && row.status == Running && !row.cancelRequested && row.deadlineAt.Some?
      && row.deadlineAt.value < now <= row.deadlineAt.value + limits.cancelGrace
  {
  }

  // A healthy observation: within its deadline, started or heard of lately enough.
  ghost predicate Healthy(row: Row, now: Time, limits: Limits) {
    match row.status
    case Queued => row.deadlineAt.Some? ==> now <= row.deadlineAt.value
    case Dispatched =>
      && (row.deadlineAt.Some? ==> now <= row.deadlineAt.value)
      && row.dispatchedAt.Some? && now - row.dispatchedAt.value <= limits.dispatchTimeout
    case Running =>
      && (row.deadlineAt.Some? ==> now <= row.deadlineAt.value || (row.cancelRequested && now <= row.deadlineAt.value + limits.cancelGrace))
      && row.heartbeatAt.Some? && now - row.heartbeatAt.value <= limits.heartbeatTimeout
    case _ => true
  }

  lemma LeftAloneIff(row: Row, now: Time, limits: Limits)
    ensures Decide(row, now, limits) == Nothing <==> Healthy(row, now, limits)
  {
  }

  // --- a whole pass ---

  // A pass touches a run only for entries about it that are not healthy.
  lemma {:induction false} HealthyRunsStay(runs: map<RunId, Run>, list: seq<(RunId, Row)>, clock: Time, now: Time, limits: Limits, backoff: nat, id: RunId)
    requires id in runs && forall i | 0 <= i < |list| && list[i].0 == id :: Healthy(list[i].1, clock, limits)
    ensures id in WatchPass(runs, list, clock, now, limits, backoff)
    ensures WatchPass(runs, list, clock, now, limits, backoff)[id] == runs[id]
    decreases |list|
  {
    if list != [] {
      HealthyRunsStay(runs, list[..|list| - 1], clock, now, limits, backoff, id);
      LeftAloneIff(list[|list| - 1].1, clock, limits);
    }
  }

  // Of a list that names each run once, only its own entry counts for a run.
  lemma {:induction false} OwnEntryCounts(runs: map<RunId, Run>, list: seq<(RunId, Row)>, clock: Time, now: Time, limits: Limits, backoff: nat, i: nat)
    requires i < |list| && list[i].0 in runs && forall j, k | 0 <= j < k < |list| :: list[j].0 != list[k].0
    ensures list[i].0 in WatchPass(runs, list, clock, now, limits, backoff) && list[i].0 in WatchOne(runs, list[i].0, list[i].1, clock, now, limits, backoff)
    ensures WatchPass(runs, list, clock, now, limits, backoff)[list[i].0] == WatchOne(runs, list[i].0, list[i].1, clock, now, limits, backoff)[list[i].0]
    decreases |list|
  {
    var rest := list[..|list| - 1];
    if i == |list| - 1 {
      PassSkips(runs, rest, clock, now, limits, backoff, list[i].0);
    } else {
      assert rest[i] == list[i];
      OwnEntryCounts(runs, rest, clock, now, limits, backoff, i);
    }
  }

  // A silent or never started run with time and attempts left is back in the queue, for whoever claims it
  // after the backoff, unless it moved since it was read.
  lemma StaleRunIsRequeued(runs: map<RunId, Run>, list: seq<(RunId, Row)>, clock: Time, now: Time, limits: Limits, backoff: nat, i: nat)
    requires i < |list| && list[i].0 in runs && forall j, k | 0 <= j < k < |list| :: list[j].0 != list[k].0
    requires Unstarted(list[i].1, clock, limits) || Silent(list[i].1, clock, limits)
    requires list[i].1.attempts < limits.maxAttempts && !list[i].1.cancelRequested && !OutOfTime(list[i].1, clock, 0)
    ensures var id := list[i].0; var was, row := runs[id], list[i].1;
      var after := WatchPass(runs, list, clock, now, limits, backoff);
      && id in after
      && if was.row.status == row.status && was.row.lease == row.lease && was.row.heartbeatAt == row.heartbeatAt then
           after[id] == was.(row := was.row.(status := Queued, agent := None, lease := None, heartbeatAt := None, dispatchedAt := None,
                                             availableAt := Some(now + backoff)))
         else after[id] == was
  {
    OwnEntryCounts(runs, list, clock, now, limits, backoff, i);
  }
}
