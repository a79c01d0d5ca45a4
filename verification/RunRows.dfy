/**
 One row of `runs` with what hangs off it, and the effect of every SQL statement on it.
 `None` stands for "no row matched": a lost race, a lost lease or a transition the contract forbids.
 */
module RunRows {
  import opened Wrappers
  import opened RunStates

  type Time = int
  type Lease = nat
  type RunId = nat

  datatype ErrorCode = AgentUnreachable | HeartbeatLost | DeadlineExceeded | OtherError(name: string)

  datatype Writer = Agent | Dispatcher
  datatype EventKind =
    | RunClaimed | RunDispatched | RunStarted | RunCancelled | LostHeartbeat | DeadlineReached
    | Problem | NodeProgress | ReportReady | RunFinished
  datatype Event = Event(number: nat, writer: Writer, kind: EventKind)

  datatype Row = Row(
    status: Status, attempts: nat, lease: Option<Lease>, agent: Option<string>, cancelRequested: bool,
    dispatchedAt: Option<Time>, startedAt: Option<Time>, heartbeatAt: Option<Time>,
    deadlineAt: Option<Time>, availableAt: Option<Time>, finishedAt: Option<Time>,
    eventSeq: nat, stopReason: Option<string>, errorCode: Option<ErrorCode>,
    counters: map<string, int>, metadata: map<string, string>)

  datatype Run = Run(
    row: Row, createdAt: Time, wallClock: Option<nat>,
    log: seq<Event>, secrets: set<string>, checkpoint: Option<int>, artifacts: map<string, string>)

  datatype Limits = Limits(
    maxAttempts: nat, maxConcurrent: nat, hardDeadline: nat, wallClockMargin: nat,
    heartbeatTimeout: nat, dispatchTimeout: nat, cancelGrace: nat)

  function NewRun(now: Time, wallClock: Option<nat>): Run {
    Run(
      Row(Queued, 0, None, None, false, None, None, None, None, None, None, 0, None, None, map[], map[]),
      now, wallClock, [], {}, None, map[])
  }

  // The statement both writers use: bump the run's own counter and number the event with it.
  function Append(run: Run, writer: Writer, kind: EventKind): Run {
    var n := run.row.eventSeq + 1;
    run.(row := run.row.(eventSeq := n), log := run.log + [Event(n, writer, kind)])
  }

  // A gap-free timeline: the log is numbered 1 to the counter.
  ghost predicate Numbered(run: Run) {
    |run.log| == run.row.eventSeq && forall k | 0 <= k < |run.log| :: run.log[k].number == k + 1
  }

  // --- the Go store ---

  predicate Claimable(run: Run, now: Time) {
    run.row.status == Queued && (run.row.availableAt.Some? ==> run.row.availableAt.value <= now)
  }

  // Holding a slot somewhere; runs of the command line do not count.
  predicate Active(run: Run) {
    run.row.status in {Dispatched, Running} && run.row.agent != Some("cli")
  }

  ghost function ActiveRuns(runs: map<RunId, Run>): set<RunId> {
    set id | id in runs && runs[id].row.status in {Dispatched, Running} && runs[id].row.agent != Some("cli")
  }

  function FirstDeadline(run: Run, limits: Limits, now: Time): Time {
    var own := if run.wallClock.Some? then run.wallClock.value + limits.wallClockMargin else 0;
    now + if limits.hardDeadline >= own then limits.hardDeadline else own
  }

  function Claimed(run: Run, lease: Lease, limits: Limits, now: Time): Run {
    run.(row := run.row.(
      status := Dispatched, dispatchedAt := Some(now), attempts := run.row.attempts + 1, lease := Some(lease), agent := None,
      deadlineAt := Some(run.row.deadlineAt.GetOr(FirstDeadline(run, limits, now)))))
  }

  datatype Change = ToQueue(backoff: nat) | ToFailed(code: ErrorCode) | ToCancelled

  function Target(change: Change): Status {
    match change
    case ToQueue(_) => Queued
    case ToFailed(_) => Failed
    case ToCancelled => Cancelled
  }

  // A deadline failure must not lose to a heartbeat; every other change does.
  predicate ChecksHeartbeat(change: Change) {
    change != ToFailed(DeadlineExceeded)
  }

  predicate StillAsObserved(row: Row, observed: Row, checkHeartbeat: bool) {
    && row.status == observed.status
    && (checkHeartbeat ==> row.heartbeatAt == observed.heartbeatAt)
    && row.lease == observed.lease
  }

  function Settled(run: Run, change: Change, now: Time): Run {
    match change
    case ToQueue(backoff) =>
      run.(row := run.row.(
        status := Queued, agent := None, lease := None, heartbeatAt := None, dispatchedAt := None,
        availableAt := Some(now + backoff)))
    case ToFailed(code) =>
      Append(run.(row := run.row.(status := Failed, errorCode := Some(code), finishedAt := Some(now))),
             Dispatcher, RunFinished).(secrets := {})
    case ToCancelled =>
      Append(run.(row := run.row.(status := Cancelled, stopReason := Some("cancelled"), finishedAt := Some(now))),
             Dispatcher, RunFinished).(secrets := {})
  }

  // The compare-and-set every watchdog action goes through.
  function Settle(run: Run, observed: Row, change: Change, now: Time): Option<Run> {
    if CanTransition(observed.status, Target(change)) && StillAsObserved(run.row, observed, ChecksHeartbeat(change)) then
      Some(Settled(run, change, now))
    else
      None
  }

  function GiveBack(run: Run, lease: Lease, backoff: nat, now: Time): Option<Run> {
    if run.row.status == Dispatched && run.row.lease == Some(lease) then
      Some(run.(row := run.row.(
        status := Queued, dispatchedAt := None, lease := None,
        attempts := if run.row.attempts >= 1 then run.row.attempts - 1 else 0,
        availableAt := Some(now + backoff))))
    else
      None
  }

  function AskCancel(run: Run): Run {
    run.(row := run.row.(cancelRequested := true))
  }

  // --- the Python repository, bound to a lease or unbound ---

  datatype OwnedWrite =
    | Beat(at: Time)
    | Counters(counters: map<string, int>)
    | Metadata(metadata: map<string, string>)

  predicate Owned(run: Run, lease: Lease) {
    run.row.lease == Some(lease) && run.row.status == Running
  }

  function WriteOwned(run: Run, lease: Lease, write: OwnedWrite): Option<Run> {
    if !Owned(run, lease) then None else
    Some(match write
         case Beat(at) => run.(row := run.row.(heartbeatAt := Some(at)))
         case Counters(counters) => run.(row := run.row.(counters := run.row.counters + counters))
         case Metadata(metadata) => run.(row := run.row.(metadata := run.row.metadata + metadata)))
  }

  function WriteEvent(run: Run, lease: Lease, kind: EventKind): Option<Run> {
    if Owned(run, lease) then Some(Append(run, Agent, kind)) else None
  }

  function SaveCheckpoint(run: Run, lease: Lease, checkpoint: int): Option<Run> {
    if Owned(run, lease) then Some(run.(checkpoint := Some(checkpoint))) else None
  }

  // `_transition`: the row as read decides what is tried, the row as found decides what commits.
  predicate MayTransition(run: Run, bound: Option<Lease>, read: Row, target: Status) {
    && (bound.Some? ==> read.lease == bound)
    && CanTransition(read.status, target)
    && run.row.status == read.status
    && (bound.Some? ==> run.row.lease == bound)
  }

  // `RunExecutor.execute`: `first` is its own check of the request, `read` the one in `_transition`.
  function Start(run: Run, lease: Lease, attempt: nat, first: Row, read: Row, agent: string, now: Time): Option<Run> {
    if first.attempts == attempt && first.lease == Some(lease) && MayTransition(run, Some(lease), read, Running) then
      Some(run.(row := run.row.(
        status := Running, agent := Some(agent), startedAt := Some(run.row.startedAt.GetOr(now)), heartbeatAt := Some(now),
        deadlineAt := if first.deadlineAt.Some? then first.deadlineAt else run.row.deadlineAt)))
    else
      None
  }

  datatype Outcome = Outcome(
    status: Status, stopReason: Option<string>, errorCode: Option<ErrorCode>,
    artifacts: map<string, string>, counters: map<string, int>, emitFinished: bool)

  function Closing(run: Run, outcome: Outcome): seq<Event> {
    var n := run.row.eventSeq;
    if !outcome.emitFinished then []
    else if "report_md" in outcome.artifacts then [Event(n + 1, Agent, ReportReady), Event(n + 2, Agent, RunFinished)]
    else [Event(n + 1, Agent, RunFinished)]
  }

  function Finish(run: Run, bound: Option<Lease>, read: Row, outcome: Outcome, now: Time): Option<Run> {
    if MayTransition(run, bound, read, outcome.status) then
      var closing := Closing(run, outcome);
      Some(run.(
        row := run.row.(
          status := outcome.status, counters := run.row.counters + outcome.counters,
          eventSeq := run.row.eventSeq + |closing|,
          stopReason := outcome.stopReason, errorCode := outcome.errorCode, finishedAt := Some(now)),
        log := run.log + closing, secrets := {}, artifacts := run.artifacts + outcome.artifacts))
    else
      None
  }
}
