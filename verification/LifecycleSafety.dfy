/** What every step of the protocol keeps, and what follows over whole runs. */
module LifecycleSafety {
  import opened Wrappers
  import opened RunStates
  import opened RunRows
  import opened Watchdog
  import opened Lifecycle

  // --- one operation on one row ---

  lemma AppendNumbers(run: Run, writer: Writer, kind: EventKind)
    requires Numbered(run)
    ensures Numbered(Append(run, writer, kind))
    ensures Finishes(Append(run, writer, kind).log) == Finishes(run.log) + (if kind == RunFinished then {|run.log|} else {})
  {
  }

  lemma FinishesSuffix(log: seq<Event>, more: seq<Event>)
    ensures Finishes(log + more) == Finishes(log) + set k | k in Finishes(more) :: |log| + k
  {
    var all := log + more;
    forall k | k in Finishes(all)
      ensures k in Finishes(log) + set j | j in Finishes(more) :: |log| + j
    {
      if k >= |log| {
        assert more[k - |log|] == all[k];
        assert k - |log| in Finishes(more) && k == |log| + (k - |log|);
      }
    }
  }

  lemma ClosingNumbers(run: Run, outcome: Outcome)
    requires Numbered(run) && Finishes(run.log) == {}
    ensures var closing := Closing(run, outcome); var log := run.log + closing;
      && |log| == run.row.eventSeq + |closing|
      && (forall k | 0 <= k < |log| :: log[k].number == k + 1)
      && |Finishes(log)| <= 1
  {
    var closing := Closing(run, outcome);
    FinishesSuffix(run.log, closing);
    if !outcome.emitFinished {
      assert Finishes(closing) == {};
      assert Finishes(run.log + closing) == {};
    } else {
      assert Finishes(closing) == {|closing| - 1};
      assert Finishes(run.log + closing) == {|run.log| + |closing| - 1};
    }
  }

  // The rows an operation carries were correct when read, and still say what `Remembers` says.
  ghost predicate Informed(run: Run, op: Op, limits: Limits) {
    match op
    case Watch(observed, _, _) => RowOk(observed, limits) && Remembers(run.row, observed)
    case Execute(_, _, first, read, _) => Remembers(run.row, first) && Remembers(run.row, read)
    case Emit(kind) => kind != RunFinished
    case Log(_, kind) => kind != RunFinished
    case Conclude(_, _, outcome) => IsTerminal(outcome.status)
    case _ => true
  }

  lemma SettleKeeps(run: Run, observed: Row, change: Change, limits: Limits, now: Time)
    requires RunOk(run, limits) && Settle(run, observed, change, now).Some?
    requires change.ToQueue? ==> run.row.attempts < limits.maxAttempts
    ensures RunOk(Settle(run, observed, change, now).value, limits)
  {
    if !change.ToQueue? {
      AppendNumbers(run, Dispatcher, RunFinished);
      var settled := Settled(run, change, now);
      assert settled.log == Append(run, Dispatcher, RunFinished).log;
      assert Finishes(settled.log) == {|run.log|};
    }
  }

  lemma FinishKeeps(run: Run, bound: Option<Lease>, read: Row, outcome: Outcome, limits: Limits, now: Time)
    requires RunOk(run, limits) && IsTerminal(outcome.status) && Finish(run, bound, read, outcome, now).Some?
    ensures RunOk(Finish(run, bound, read, outcome, now).value, limits)
  {
    ClosingNumbers(run, outcome);
  }

  lemma WatchKeepsRun(run: Run, observed: Row, clock: Time, backoff: nat, limits: Limits, now: Time)
    requires RunOk(run, limits) && RowOk(observed, limits) && Remembers(run.row, observed)
    requires Perform(run, Watch(observed, clock, backoff), limits, now).Some?
    ensures RunOk(Perform(run, Watch(observed, clock, backoff), limits, now).value, limits)
  {
    var change := ChangeFor(Decide(observed, clock, limits), backoff);
    if change.Some? { SettleKeeps(run, observed, change.value, limits, now); }
  }

  lemma PerformKeepsRun(run: Run, op: Op, limits: Limits, now: Time)
    requires RunOk(run, limits) && Informed(run, op, limits) && Perform(run, op, limits, now).Some?
    ensures RunOk(Perform(run, op, limits, now).value, limits)
  {
    match op
    case ApiCancel(_, read) => FinishKeeps(run, None, read, API_OUTCOME, limits, now);
    case Conclude(lease, read, outcome) => FinishKeeps(run, Some(lease), read, outcome, limits, now);
    case Watch(observed, clock, backoff) => WatchKeepsRun(run, observed, clock, backoff, limits, now);
    case Emit(kind) => AppendNumbers(run, Dispatcher, kind);
    case Log(_, kind) => AppendNumbers(run, Agent, kind);
    case _ =>
  }

  // The only moves an operation makes: legal edges, no new lease, attempts and deadline fixed under a lease.
  ghost predicate Moves(row: Row, after: Row, op: Op) {
    && (after.status != row.status ==> CanTransition(row.status, after.status))
    && (after.lease == row.lease || after.lease.None?)
    && (after.lease.Some? ==> after.attempts == row.attempts && after.deadlineAt == row.deadlineAt)
    && (row.deadlineAt.Some? ==> after.deadlineAt == row.deadlineAt)
    && (after.status == Dispatched ==> row.status == Dispatched && after.lease == row.lease)
    && (after.status == Running ==> after.lease == row.lease)
    && (after.status == row.status ==> after.attempts == row.attempts && after.agent == row.agent)
    && (after.status == Queued ==> after.attempts == row.attempts || (row.status == Dispatched && after.attempts == row.attempts - 1))
    && (op.Execute? <==> row.status == Dispatched && after.status == Running)
    && (op.Execute? ==> row.lease == Some(op.lease))
  }

  lemma SettleMoves(run: Run, observed: Row, change: Change, now: Time, op: Op)
    requires Settle(run, observed, change, now).Some? && !op.Execute?
    ensures Moves(run.row, Settle(run, observed, change, now).value.row, op)
  {
  }

  lemma FinishMoves(run: Run, bound: Option<Lease>, read: Row, outcome: Outcome, now: Time, op: Op)
    requires Finish(run, bound, read, outcome, now).Some? && IsTerminal(outcome.status) && !op.Execute?
    ensures Moves(run.row, Finish(run, bound, read, outcome, now).value.row, op)
  {
  }

  lemma PerformMoves(run: Run, op: Op, limits: Limits, now: Time)
    requires RunOk(run, limits) && Informed(run, op, limits) && Perform(run, op, limits, now).Some?
    ensures Moves(run.row, Perform(run, op, limits, now).value.row, op)
  {
    match op
    case ApiCancel(_, read) => FinishMoves(run, None, read, API_OUTCOME, now, op);
    case Conclude(lease, read, outcome) => FinishMoves(run, Some(lease), read, outcome, now, op);
    case Watch(observed, clock, backoff) =>
      var change := ChangeFor(Decide(observed, clock, limits), backoff);
      if change.Some? { SettleMoves(run, observed, change.value, now, op); }
    case _ =>
  }

  // --- one step of the whole system ---

  lemma StepKeeps(w: World, a: Action, limits: Limits)
    requires Inv(w, limits) && limits.maxAttempts >= 1
    ensures Inv(Apply(w, a, limits), limits)
  {
    if Commits(w, a, limits) {
      match a
      case On(id, op) => OnKeeps(w, id, op, limits);
      case Claim(d, id) => ClaimKeeps(w, d, id, limits);
      case Create(id, wallClock) =>
        assert Finishes([]) == {};
      case Read(id) =>
      case _ =>
    }
  }

  lemma StoredKeeps(w: World, id: RunId, run: Run, op: Op, limits: Limits)
    requires Inv(w, limits) && id in w.runs && Moves(w.runs[id].row, run.row, op) && RunOk(run, limits)
    ensures Inv(Stored(w, id, run, op), limits)
  {
    var w' := Stored(w, id, run, op);
    var row := w.runs[id].row;
    assert RunOk(w.runs[id], limits) && StartedOk(w, id);
    assert StartedOk(w', id);
    forall other | other in w'.runs
      ensures RunOk(w'.runs[other], limits) && LeaseIssued(w', w'.runs[other].row.lease) && StartedOk(w', other)
    {
      if other != id { assert StartedOk(w, other); }
    }
  }

  lemma OnKeeps(w: World, id: RunId, op: Op, limits: Limits)
    requires Inv(w, limits) && Commits(w, On(id, op), limits)
    ensures Inv(Apply(w, On(id, op), limits), limits)
  {
    var run := w.runs[id];
    assert Informed(run, op, limits);
    PerformKeepsRun(run, op, limits, w.now);
    PerformMoves(run, op, limits, w.now);
    StoredKeeps(w, id, Perform(run, op, limits, w.now).value, op, limits);
  }

  lemma ClaimKeeps(w: World, d: nat, id: RunId, limits: Limits)
    requires Inv(w, limits) && Commits(w, Claim(d, id), limits)
    ensures Inv(Apply(w, Claim(d, id), limits), limits)
  {
  }

  lemma Initially(dispatchers: nat, limits: Limits)
    ensures Inv(Start0(dispatchers), limits)
  {
  }

  lemma {:induction false} ExecKeeps(w: World, actions: seq<Action>, limits: Limits)
    requires Inv(w, limits) && limits.maxAttempts >= 1
    ensures Inv(Exec(w, actions, limits), limits)
    decreases |actions|
  {
    if actions != [] {
      StepKeeps(w, actions[0], limits);
      ExecKeeps(Apply(w, actions[0], limits), actions[1..], limits);
    }
  }
}
