/**
 The run protocol as a transition system. Every SQL statement or transaction is one step; what a
 dispatcher, an agent or the API read earlier stays in `seen` and may be acted on any number of
 steps later, so every argument below holds for arbitrarily stale observers.
 */
module Lifecycle {
  import opened Wrappers
  import opened RunStates
  import opened RunRows
  import opened Watchdog

  // A dispatcher between `ActiveCount` and `Claim` has been cleared by a count that may be old.
  datatype Phase = Idle | Cleared

  datatype World = World(
    runs: map<RunId, Run>,
    nextLease: Lease,                // gen_random_uuid: never repeats
    now: Time,
    dispatchers: seq<Phase>,
    seen: set<(RunId, Row)>,         // rows read by anyone so far
    started: set<(RunId, Lease)>)    // agent tasks created by a successful start

  datatype Op =
    | StoreSecrets(providers: set<string>)
    | RequestCancel
    | ApiCancel(first: Row, read: Row)
    | Emit(kind: EventKind)
    | ReturnUnstarted(lease: Lease, backoff: nat)
    | Watch(observed: Row, clock: Time, backoff: nat)
    | Execute(lease: Lease, attempt: nat, first: Row, read: Row, agent: string)
    | Write(lease: Lease, write: OwnedWrite)
    | Log(lease: Lease, kind: EventKind)
    | Save(lease: Lease, checkpoint: int)
    | Conclude(lease: Lease, read: Row, outcome: Outcome)

  datatype Action =
    | Tick(seconds: nat)
    | Create(id: RunId, wallClock: Option<nat>)
    | CheckRoom(dispatcher: nat)
    | StandDown(dispatcher: nat)
    | Claim(dispatcher: nat, id: RunId)
    | Read(id: RunId)
    | On(id: RunId, op: Op)

  // What the caller of an operation has read before; `Conclude` is only reached by a task that
  // `execute` created, and no caller but a settle writes `run_finished`.
  ghost predicate Allowed(w: World, id: RunId, op: Op) {
    match op
    case ApiCancel(first, read) => (id, first) in w.seen && (id, read) in w.seen
    case Emit(kind) => kind != RunFinished
    case Watch(observed, _, _) => (id, observed) in w.seen
    case Execute(_, _, first, read, _) => (id, first) in w.seen && (id, read) in w.seen
    case Log(_, kind) => kind != RunFinished
    case Conclude(lease, read, outcome) => (id, lease) in w.started && (id, read) in w.seen && IsTerminal(outcome.status)
    case _ => true
  }

  const API_OUTCOME := Outcome(Cancelled, Some("cancelled"), None, map[], map[], false)

  // The effect on the row, or None when the statement matches no row.
  function Perform(run: Run, op: Op, limits: Limits, now: Time): Option<Run> {
    match op
    case StoreSecrets(providers) => Some(run.(secrets := run.secrets + providers))
    case RequestCancel => Some(AskCancel(run))
    case ApiCancel(first, read) => if first.status == Queued then Finish(run, None, read, API_OUTCOME, now) else None
    case Emit(kind) => Some(Append(run, Dispatcher, kind))
    case ReturnUnstarted(lease, backoff) => GiveBack(run, lease, backoff, now)
    case Watch(observed, clock, backoff) =>
      var decision := Decide(observed, clock, limits);
      if decision.AskAgentToCancel? then Some(AskCancel(run))
      else (match ChangeFor(decision, backoff) case None => None case Some(change) => Settle(run, observed, change, now))
    case Execute(lease, attempt, first, read, agent) => Start(run, lease, attempt, first, read, agent, now)
    case Write(lease, write) => WriteOwned(run, lease, write)
    case Log(lease, kind) => WriteEvent(run, lease, kind)
    case Save(lease, checkpoint) => SaveCheckpoint(run, lease, checkpoint)
    case Conclude(lease, read, outcome) => Finish(run, Some(lease), read, outcome, now)
  }

  ghost predicate Commits(w: World, a: Action, limits: Limits) {
    match a
    case Create(id, _) => id !in w.runs
    case CheckRoom(d) => d < |w.dispatchers| && |ActiveRuns(w.runs)| < limits.maxConcurrent
    case StandDown(d) => d < |w.dispatchers|
    case Claim(d, id) => d < |w.dispatchers| && w.dispatchers[d].Cleared? && id in w.runs && Claimable(w.runs[id], w.now)
    case Read(id) => id in w.runs
    case On(id, op) => id in w.runs && Allowed(w, id, op) && Perform(w.runs[id], op, limits, w.now).Some?
    case Tick(_) => true
  }

  // A step that does not commit changes nothing.
  ghost function Apply(w: World, a: Action, limits: Limits): World {
    if !Commits(w, a, limits) then w else
    match a
    case Tick(seconds) => w.(now := w.now + seconds)
    case Create(id, wallClock) => w.(runs := w.runs[id := NewRun(w.now, wallClock)])
    case CheckRoom(d) => w.(dispatchers := w.dispatchers[d := Cleared])
    case StandDown(d) => w.(dispatchers := w.dispatchers[d := Idle])
    case Claim(d, id) =>
      w.(runs := w.runs[id := Claimed(w.runs[id], w.nextLease, limits, w.now)],
         nextLease := w.nextLease + 1, dispatchers := w.dispatchers[d := Idle])
    case Read(id) => w.(seen := w.seen + {(id, w.runs[id].row)})
    case On(id, op) => Stored(w, id, Perform(w.runs[id], op, limits, w.now).value, op)
  }

  ghost function Stored(w: World, id: RunId, run: Run, op: Op): World {
    w.(runs := w.runs[id := run], started := if op.Execute? then w.started + {(id, op.lease)} else w.started)
  }

  ghost function Exec(w: World, actions: seq<Action>, limits: Limits): World
    decreases |actions|
  {
    if actions == [] then w else Exec(Apply(w, actions[0], limits), actions[1..], limits)
  }

  function Start0(dispatchers: nat): World {
    World(map[], 0, 0, seq(dispatchers, _ => Idle), {}, {})
  }

  // --- the invariant ---

  ghost function Finishes(log: seq<Event>): set<nat> {
    set k | 0 <= k < |log| && log[k].kind == RunFinished
  }

  ghost predicate RowOk(row: Row, limits: Limits) {
    match row.status
    case Queued =>
      row.lease.None? && row.heartbeatAt.None? && row.dispatchedAt.None? && row.agent.None? && row.attempts < limits.maxAttempts
    case Dispatched =>
      && row.lease.Some? && row.heartbeatAt.None? && row.dispatchedAt.Some? && row.agent.None? && row.deadlineAt.Some?
      && 1 <= row.attempts <= limits.maxAttempts
    case Running =>
      && row.lease.Some? && row.heartbeatAt.Some? && row.dispatchedAt.Some? && row.agent.Some? && row.startedAt.Some?
      && row.deadlineAt.Some? && 1 <= row.attempts <= limits.maxAttempts
    case _ => row.attempts <= limits.maxAttempts && row.finishedAt.Some?
  }

  ghost predicate RunOk(run: Run, limits: Limits) {
    && RowOk(run.row, limits)
    && Numbered(run)
    && (if IsTerminal(run.row.status) then |Finishes(run.log)| <= 1 else Finishes(run.log) == {})
  }

  // What an old reading still says about the row today.
  ghost predicate Remembers(row: Row, before: Row) {
    && (before.deadlineAt.Some? ==> row.deadlineAt == before.deadlineAt)
    && (before.lease.Some? && row.lease == before.lease ==> row.attempts == before.attempts && row.deadlineAt == before.deadlineAt)
  }

  ghost predicate LeaseIssued(w: World, lease: Option<Lease>) {
    lease.Some? ==> lease.value < w.nextLease
  }

  ghost predicate StartedOk(w: World, id: RunId)
    requires id in w.runs
  {
    var row := w.runs[id].row;
    && (row.status == Dispatched ==> row.lease.Some? && (id, row.lease.value) !in w.started)
    && (row.status == Running ==> row.lease.Some? && (id, row.lease.value) in w.started)
  }

  ghost predicate Inv(w: World, limits: Limits) {
    && (forall id | id in w.runs :: RunOk(w.runs[id], limits) && LeaseIssued(w, w.runs[id].row.lease) && StartedOk(w, id))
    && (forall o | o in w.seen :: o.0 in w.runs && RowOk(o.1, limits) && LeaseIssued(w, o.1.lease) && Remembers(w.runs[o.0].row, o.1))
    && (forall s | s in w.started :: s.1 < w.nextLease)
  }
}
