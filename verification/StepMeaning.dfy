/** What the single steps do to a run, field by field. */
module StepMeaning {
  import opened Wrappers
  import opened RunStates
  import opened RunRows
  import opened Watchdog
  import opened Lifecycle

  // A new run waits: never claimed, nobody's, not asked to stop, nothing logged and nothing stored.
  lemma CreatedIsFresh(now: Time, wallClock: Option<nat>)
    ensures var run := NewRun(now, wallClock);
      && run.row.status == Queued && run.row.attempts == 0 && run.row.eventSeq == 0 && !run.row.cancelRequested
      && run.row.lease.None? && run.row.agent.None? && run.row.deadlineAt.None? && run.row.availableAt.None?
      && run.log == [] && run.secrets == {} && run.checkpoint.None? && run.artifacts == map[] && run.row.counters == map[]
      && run.createdAt == now && run.wallClock == wallClock
  {
  }

  // The writes of an executing agent commit exactly while it runs the run under its lease, and change nothing else.
  lemma HeldWritesCommit(run: Run, lease: Lease, kind: EventKind, checkpoint: int, limits: Limits, now: Time)
    ensures var held := run.row.status == Running && run.row.lease == Some(lease);
      var n := run.row.eventSeq + 1;
      && Perform(run, Log(lease, kind), limits, now)
         == (if held then Some(run.(row := run.row.(eventSeq := n), log := run.log + [Event(n, Agent, kind)])) else None)
      && Perform(run, Save(lease, checkpoint), limits, now) == (if held then Some(run.(checkpoint := Some(checkpoint))) else None)
  {
  }

  lemma BeatsCommit(run: Run, lease: Lease, at: Time, limits: Limits, now: Time)
    ensures Perform(run, Write(lease, Beat(at)), limits, now)
      == if run.row.status == Running && run.row.lease == Some(lease) then Some(run.(row := run.row.(heartbeatAt := Some(at)))) else None
  {
  }

  // Past its deadline, within the grace.
  ghost predicate Overdue(row: Row, clock: Time, limits: Limits) {
    && row.status == Running && row.deadlineAt.Some?
    && row.deadlineAt.value < clock <= row.deadlineAt.value + limits.cancelGrace
  }

  // A run is asked to stop by its user, or by the watchdog between its deadline and the end of the grace.
  lemma AskedIsFlagged(run: Run, observed: Row, clock: Time, backoff: nat, limits: Limits, now: Time)
    ensures Perform(run, RequestCancel, limits, now) == Some(run.(row := run.row.(cancelRequested := true)))
    ensures Overdue(observed, clock, limits) && !observed.cancelRequested ==>
      Perform(run, Watch(observed, clock, backoff), limits, now) == Some(run.(row := run.row.(cancelRequested := true)))
  {
  }

  // An unstarted run is given back exactly while it is dispatched under that lease; the attempt does not count.
  lemma GivenBackIff(run: Run, lease: Lease, backoff: nat, limits: Limits, now: Time)
    ensures var back := Perform(run, ReturnUnstarted(lease, backoff), limits, now);
      && (back.Some? <==> run.row.status == Dispatched && run.row.lease == Some(lease))
      && (back.Some? ==>
            && back.value == run.(row := run.row.(status := Queued, dispatchedAt := None, lease := None,
                                                  attempts := back.value.row.attempts, availableAt := Some(now + backoff)))
            && (run.row.attempts > 0 ==> back.value.row.attempts + 1 == run.row.attempts)
            && (run.row.attempts == 0 ==> back.value.row.attempts == 0))
  {
  }

  // A claim issues the lease and counts the attempt; the first one fixes the deadline.
  lemma ClaimedMeans(run: Run, lease: Lease, limits: Limits, now: Time)
    ensures var row := Claimed(run, lease, limits, now).row;
      && row.status == Dispatched && row.lease == Some(lease) && row.attempts == run.row.attempts + 1 && row.dispatchedAt == Some(now)
      && row.agent.None? && row.deadlineAt.Some?
      && (run.row.deadlineAt.Some? ==> row.deadlineAt == run.row.deadlineAt)
      && (run.row.deadlineAt.None? ==>
            && row.deadlineAt.value >= now + limits.hardDeadline
            && (run.wallClock.Some? ==> row.deadlineAt.value >= now + run.wallClock.value + limits.wallClockMargin)
            && (row.deadlineAt.value == now + limits.hardDeadline
                || (run.wallClock.Some? && row.deadlineAt.value == now + run.wallClock.value + limits.wallClockMargin)))
  {
  }
}
