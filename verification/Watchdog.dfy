/** The watchdog's decision: a function of one observed row, a clock and the limits. */
module Watchdog {
  import opened Wrappers
  import opened RunStates
  import opened RunRows

  datatype Decision =
    | Nothing
    | Requeue(code: ErrorCode)
    | Fail(code: ErrorCode)
    | Cancel
    | AskAgentToCancel

  predicate PastDeadline(row: Row, now: Time, grace: nat) {
    row.deadlineAt.Some? && now > row.deadlineAt.value + grace
  }

  // A missing stamp counts as stale.
  predicate OlderThan(stamp: Option<Time>, now: Time, limit: nat) {
    stamp.None? || now - stamp.value > limit
  }

  function RetryOrFail(row: Row, limits: Limits, code: ErrorCode): Decision {
    if row.attempts >= limits.maxAttempts then Fail(code) else Requeue(code)
  }

  function Decide(row: Row, now: Time, limits: Limits): Decision {
    match row.status
    case Queued =>
      if PastDeadline(row, now, 0) then Fail(DeadlineExceeded) else Nothing
    case Dispatched =>
      if PastDeadline(row, now, 0) then Fail(DeadlineExceeded)
      else if OlderThan(row.dispatchedAt, now, limits.dispatchTimeout) then
        if row.cancelRequested then Cancel else RetryOrFail(row, limits, AgentUnreachable)
      else Nothing
    case Running =>
      if PastDeadline(row, now, limits.cancelGrace) then Fail(DeadlineExceeded)
      else if PastDeadline(row, now, 0) && !row.cancelRequested then AskAgentToCancel
      else if OlderThan(row.heartbeatAt, now, limits.heartbeatTimeout) then
        if row.cancelRequested then Cancel else RetryOrFail(row, limits, HeartbeatLost)
      else Nothing
    case _ => Nothing
  }

  // What the store is asked to do; the two decisions without a status change have none.
  function ChangeFor(decision: Decision, backoff: nat): Option<Change> {
    match decision
    case Requeue(_) => Some(ToQueue(backoff))
    case Fail(code) => Some(ToFailed(code))
    case Cancel => Some(ToCancelled)
    case _ => None
  }
}
