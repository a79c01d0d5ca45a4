/** Safety of whole runs of the protocol: fencing, retry budget, timeline, deadline, concurrency limit. */
module LifecycleTheorems {
  import opened Wrappers
  import opened RunStates
  import opened RunRows
  import opened Watchdog
  import opened Lifecycle
  import opened LifecycleSafety
  import opened Sets

  lemma Performed(w: World, id: RunId, op: Op, limits: Limits)
    requires Inv(w, limits) && Commits(w, On(id, op), limits)
    ensures Informed(w.runs[id], op, limits)
    ensures Moves(w.runs[id].row, Perform(w.runs[id], op, limits, w.now).value.row, op)
    ensures Apply(w, On(id, op), limits) == Stored(w, id, Perform(w.runs[id], op, limits, w.now).value, op)
  {
    PerformMoves(w.runs[id], op, limits, w.now);
  }

  // --- terminal statuses are absorbing ---

  // A late dispatcher event or cancel flag may still land on a finished run; nothing else does.
  ghost predicate Frozen(run: Run, later: Run) {
    && later.row.(eventSeq := 0, cancelRequested := false) == run.row.(eventSeq := 0, cancelRequested := false)
    && later.checkpoint == run.checkpoint
    && later.artifacts == run.artifacts
    && run.log <= later.log
    && Finishes(later.log) == Finishes(run.log)
  }

  lemma FrozenItself(run: Run)
    ensures Frozen(run, run)
  {
  }

  lemma TerminalUnsettled(run: Run, observed: Row, change: Change, now: Time)
    requires IsTerminal(run.row.status)
    ensures Settle(run, observed, change, now).None?
  {
  }

  lemma TerminalWatch(run: Run, observed: Row, clock: Time, backoff: nat, limits: Limits, now: Time)
    requires IsTerminal(run.row.status) && Perform(run, Watch(observed, clock, backoff), limits, now).Some?
    ensures Frozen(run, Perform(run, Watch(observed, clock, backoff), limits, now).value)
  {
    match ChangeFor(Decide(observed, clock, limits), backoff)
    case Some(change) => TerminalUnsettled(run, observed, change, now);
    case None =>
  }

  lemma TerminalPerform(run: Run, op: Op, limits: Limits, now: Time)
    requires RunOk(run, limits) && Informed(run, op, limits) && IsTerminal(run.row.status) && Perform(run, op, limits, now).Some?
    ensures Frozen(run, Perform(run, op, limits, now).value)
  {
    match op
    case Emit(kind) => AppendNumbers(run, Dispatcher, kind);
    case Watch(observed, clock, backoff) => TerminalWatch(run, observed, clock, backoff, limits, now);
    case _ =>
  }

  lemma TerminalStep(w: World, a: Action, limits: Limits, id: RunId)
    requires Inv(w, limits) && id in w.runs && IsTerminal(w.runs[id].row.status)
    ensures id in Apply(w, a, limits).runs && Frozen(w.runs[id], Apply(w, a, limits).runs[id])
  {
    if a.On? && a.id == id && Commits(w, a, limits) {
      Performed(w, id, a.op, limits);
      TerminalPerform(w.runs[id], a.op, limits, w.now);
    } else {
      FrozenItself(w.runs[id]);
    }
  }

  lemma {:induction false} TerminalIsAbsorbing(w: World, actions: seq<Action>, limits: Limits, id: RunId)
    requires Inv(w, limits) && limits.maxAttempts >= 1 && id in w.runs && IsTerminal(w.runs[id].row.status)
    ensures id in Exec(w, actions, limits).runs && Frozen(w.runs[id], Exec(w, actions, limits).runs[id])
    decreases |actions|
  {
    if actions != [] {
      TerminalStep(w, actions[0], limits, id);
      StepKeeps(w, actions[0], limits);
      TerminalIsAbsorbing(Apply(w, actions[0], limits), actions[1..], limits, id);
    }
  }

  lemma ClosingRunLosesSecrets(run: Run, op: Op, limits: Limits, now: Time)
    requires !IsTerminal(run.row.status) && Perform(run, op, limits, now).Some?
    requires IsTerminal(Perform(run, op, limits, now).value.row.status)
    ensures Perform(run, op, limits, now).value.secrets == {}
    ensures op.Watch? || op.ApiCancel? || op.Conclude?
  {
  }

  lemma SecretsGoWithTheTerminalStep(w: World, a: Action, limits: Limits, id: RunId)
    requires Inv(w, limits) && id in w.runs && !IsTerminal(w.runs[id].row.status)
    requires IsTerminal(Apply(w, a, limits).runs[id].row.status)
    ensures Apply(w, a, limits).runs[id].secrets == {}
    ensures a.On? && a.id == id && (a.op.Watch? || a.op.ApiCancel? || a.op.Conclude?)
  {
    if a.On? && Commits(w, a, limits) {
      Performed(w, a.id, a.op, limits);
      if a.id == id { ClosingRunLosesSecrets(w.runs[id], a.op, limits, w.now); }
    }
  }

  // --- fencing ---

  // Every way an agent can write with a lease in its hand.
  ghost predicate UsesLease(a: Action, id: RunId, lease: Lease) {
    && a.On? && a.id == id
    && match a.op
       case Execute(l, _, _, _, _) => l == lease
       case Write(l, _) => l == lease
       case Log(l, _) => l == lease
       case Save(l, _) => l == lease
       case Conclude(l, _, _) => l == lease
       case _ => false
  }

  ghost predicate Holds(w: World, id: RunId, lease: Lease) {
    id in w.runs && w.runs[id].row.lease == Some(lease) && !IsTerminal(w.runs[id].row.status)
  }

  // The terminal write is the interesting case: `_transition` itself checks the lease but not that
  // the run is running, so this needs that a started lease is never dispatched again.
  lemma OnlyTheHolderWrites(w: World, a: Action, limits: Limits, id: RunId, lease: Lease)
    requires Inv(w, limits) && UsesLease(a, id, lease) && Commits(w, a, limits)
    ensures w.runs[id].row.lease == Some(lease)
    ensures w.runs[id].row.status == if a.op.Execute? then Dispatched else Running
  {
    Performed(w, id, a.op, limits);
    assert StartedOk(w, id);
  }

  lemma LostStaysLost(w: World, a: Action, limits: Limits, id: RunId, lease: Lease)
    requires Inv(w, limits) && lease < w.nextLease && !Holds(w, id, lease)
    ensures lease < Apply(w, a, limits).nextLease && !Holds(Apply(w, a, limits), id, lease)
  {
    if a.On? && Commits(w, a, limits) {
      Performed(w, a.id, a.op, limits);
      if a.id == id && w.runs[id].row.lease == Some(lease) { TerminalStep(w, a, limits, id); }
    }
  }

  ghost predicate NeverCommits(w: World, actions: seq<Action>, limits: Limits, id: RunId, lease: Lease)
    decreases |actions|
  {
    actions != [] ==>
      && !(UsesLease(actions[0], id, lease) && Commits(w, actions[0], limits))
      && NeverCommits(Apply(w, actions[0], limits), actions[1..], limits, id, lease)
  }

  lemma {:induction false} Fencing(w: World, actions: seq<Action>, limits: Limits, id: RunId, lease: Lease)
    requires Inv(w, limits) && limits.maxAttempts >= 1 && lease < w.nextLease && !Holds(w, id, lease)
    ensures NeverCommits(w, actions, limits, id, lease)
    decreases |actions|
  {
    if actions != [] {
      if UsesLease(actions[0], id, lease) && Commits(w, actions[0], limits) {
        OnlyTheHolderWrites(w, actions[0], limits, id, lease);
      }
      LostStaysLost(w, actions[0], limits, id, lease);
      StepKeeps(w, actions[0], limits);
      Fencing(Apply(w, actions[0], limits), actions[1..], limits, id, lease);
    }
  }

  // Over a whole history: once `before` has taken the lease away, no write in `after` commits under it.
  lemma FencedHistory(dispatchers: nat, before: seq<Action>, after: seq<Action>, limits: Limits, id: RunId, lease: Lease)
    requires limits.maxAttempts >= 1
    requires var w := Exec(Start0(dispatchers), before, limits); lease < w.nextLease && !Holds(w, id, lease)
    ensures NeverCommits(Exec(Start0(dispatchers), before, limits), after, limits, id, lease)
  {
    Initially(dispatchers, limits);
    ExecKeeps(Start0(dispatchers), before, limits);
    Fencing(Exec(Start0(dispatchers), before, limits), after, limits, id, lease);
  }

  // --- one start per lease ---

  ghost predicate Decides(a: Action, id: RunId, lease: Lease) {
    a.On? && a.id == id && ((a.op.Execute? && a.op.lease == lease) || (a.op.ReturnUnstarted? && a.op.lease == lease))
  }

  ghost function Decisions(w: World, actions: seq<Action>, limits: Limits, id: RunId, lease: Lease): nat
    decreases |actions|
  {
    if actions == [] then 0 else
    (if Decides(actions[0], id, lease) && Commits(w, actions[0], limits) then 1 else 0)
    + Decisions(Apply(w, actions[0], limits), actions[1..], limits, id, lease)
  }

  ghost predicate Undecided(w: World, id: RunId, lease: Lease) {
    lease >= w.nextLease || (id in w.runs && w.runs[id].row.lease == Some(lease) && w.runs[id].row.status == Dispatched)
  }

  lemma DecisionStep(w: World, a: Action, limits: Limits, id: RunId, lease: Lease)
    requires Inv(w, limits)
    ensures Undecided(Apply(w, a, limits), id, lease) ==> Undecided(w, id, lease)
    ensures Decides(a, id, lease) && Commits(w, a, limits) ==>
      Undecided(w, id, lease) && !Undecided(Apply(w, a, limits), id, lease)
  {
    if a.On? && Commits(w, a, limits) {
      Performed(w, a.id, a.op, limits);
    }
  }

  // A lease is started or handed back, never both, and neither of them twice - whoever offered it
  // to whichever replicas, and however often.
  lemma {:induction false} OneStartPerLease(w: World, actions: seq<Action>, limits: Limits, id: RunId, lease: Lease)
    requires Inv(w, limits) && limits.maxAttempts >= 1
    ensures Decisions(w, actions, limits, id, lease) <= if Undecided(w, id, lease) then 1 else 0
    decreases |actions|
  {
    if actions != [] {
      DecisionStep(w, actions[0], limits, id, lease);
      StepKeeps(w, actions[0], limits);
      OneStartPerLease(Apply(w, actions[0], limits), actions[1..], limits, id, lease);
    }
  }

  // --- retry budget ---

  ghost function Starts(w: World, actions: seq<Action>, limits: Limits, id: RunId): nat
    decreases |actions|
  {
    if actions == [] then 0 else
    (if actions[0].On? && actions[0].id == id && actions[0].op.Execute? && Commits(w, actions[0], limits) then 1 else 0)
    + Starts(Apply(w, actions[0], limits), actions[1..], limits, id)
  }

  // How many more times the run can be started from here.
  ghost function StartsLeftOn(row: Row, limits: Limits): int {
    match row.status
    case Queued => limits.maxAttempts - row.attempts
    case Dispatched => limits.maxAttempts - row.attempts + 1
    case Running => limits.maxAttempts - row.attempts
    case _ => 0
  }

  ghost function StartsLeft(w: World, limits: Limits, id: RunId): int {
    if id in w.runs then StartsLeftOn(w.runs[id].row, limits) else limits.maxAttempts
  }

  lemma MovesSpend(row: Row, after: Row, op: Op, limits: Limits)
    requires RowOk(row, limits) && Moves(row, after, op)
    ensures (if op.Execute? then 1 else 0) + StartsLeftOn(after, limits) <= StartsLeftOn(row, limits)
  {
  }

  lemma StartsStep(w: World, a: Action, limits: Limits, id: RunId)
    requires Inv(w, limits) && limits.maxAttempts >= 1
    ensures (if a.On? && a.id == id && a.op.Execute? && Commits(w, a, limits) then 1 else 0)
      + StartsLeft(Apply(w, a, limits), limits, id) <= StartsLeft(w, limits, id)
  {
    if a.On? && a.id == id && Commits(w, a, limits) {
      Performed(w, id, a.op, limits);
      MovesSpend(w.runs[id].row, Perform(w.runs[id], a.op, limits, w.now).value.row, a.op, limits);
    }
  }

  lemma {:induction false} StartsBounded(w: World, actions: seq<Action>, limits: Limits, id: RunId)
    requires Inv(w, limits) && limits.maxAttempts >= 1
    ensures Starts(w, actions, limits, id) <= StartsLeft(w, limits, id)
    decreases |actions|
  {
    if actions != [] {
      StartsStep(w, actions[0], limits, id);
      StepKeeps(w, actions[0], limits);
      StartsBounded(Apply(w, actions[0], limits), actions[1..], limits, id);
    }
  }

  lemma RetryBudget(dispatchers: nat, actions: seq<Action>, limits: Limits, id: RunId)
    requires limits.maxAttempts >= 1
    ensures var w := Exec(Start0(dispatchers), actions, limits);
      && Starts(Start0(dispatchers), actions, limits, id) <= limits.maxAttempts
      && (id in w.runs ==>
            var row := w.runs[id].row;
            && (row.status == Queued ==> row.attempts < limits.maxAttempts)
            && (row.status in {Dispatched, Running} ==> 1 <= row.attempts <= limits.maxAttempts))
  {
    Initially(dispatchers, limits);
    ExecKeeps(Start0(dispatchers), actions, limits);
    StartsBounded(Start0(dispatchers), actions, limits, id);
  }

  lemma ClampNeverBites(w: World, limits: Limits, id: RunId, lease: Lease, backoff: nat)
    requires Inv(w, limits) && id in w.runs && GiveBack(w.runs[id], lease, backoff, w.now).Some?
    ensures GiveBack(w.runs[id], lease, backoff, w.now).value.row.attempts == w.runs[id].row.attempts - 1
  {
  }

  // --- one gap-free timeline from two writers ---

  lemma LogStep(w: World, a: Action, limits: Limits, id: RunId)
    requires id in w.runs
    ensures id in Apply(w, a, limits).runs && w.runs[id].log <= Apply(w, a, limits).runs[id].log
  {
  }

  lemma {:induction false} LogGrows(w: World, actions: seq<Action>, limits: Limits, id: RunId)
    requires id in w.runs
    ensures id in Exec(w, actions, limits).runs && w.runs[id].log <= Exec(w, actions, limits).runs[id].log
    decreases |actions|
  {
    if actions != [] {
      LogStep(w, actions[0], limits, id);
      LogGrows(Apply(w, actions[0], limits), actions[1..], limits, id);
    }
  }

  lemma GapFreeTimeline(dispatchers: nat, actions: seq<Action>, limits: Limits, id: RunId)
    requires limits.maxAttempts >= 1 && id in Exec(Start0(dispatchers), actions, limits).runs
    ensures var run := Exec(Start0(dispatchers), actions, limits).runs[id];
      && |run.log| == run.row.eventSeq
      && (forall k | 0 <= k < |run.log| :: run.log[k].number == k + 1)
      && |Finishes(run.log)| <= 1
      && (Finishes(run.log) != {} ==> IsTerminal(run.row.status))
  {
    Initially(dispatchers, limits);
    ExecKeeps(Start0(dispatchers), actions, limits);
  }

  // --- the outer deadline ---

  lemma {:induction false} DeadlineNeverMoves(w: World, actions: seq<Action>, limits: Limits, id: RunId)
    requires Inv(w, limits) && limits.maxAttempts >= 1 && id in w.runs && w.runs[id].row.deadlineAt.Some?
    ensures id in Exec(w, actions, limits).runs
    ensures Exec(w, actions, limits).runs[id].row.deadlineAt == w.runs[id].row.deadlineAt
    decreases |actions|
  {
    if actions != [] {
      var a := actions[0];
      if a.On? && Commits(w, a, limits) { Performed(w, a.id, a.op, limits); }
      StepKeeps(w, a, limits);
      DeadlineNeverMoves(Apply(w, a, limits), actions[1..], limits, id);
    }
  }

  lemma DeadlineFixedByTheFirstClaim(w: World, d: nat, limits: Limits, id: RunId)
    requires Commits(w, Claim(d, id), limits)
    ensures var before := w.runs[id].row.deadlineAt; var after := Apply(w, Claim(d, id), limits).runs[id].row.deadlineAt;
      && (before.Some? ==> after == before)
      && (before.None? && w.runs[id].wallClock.None? ==> after == Some(w.now + limits.hardDeadline))
      && (before.None? && w.runs[id].wallClock.Some? ==>
            var own := w.runs[id].wallClock.value + limits.wallClockMargin;
            after == Some(w.now + if own > limits.hardDeadline then own else limits.hardDeadline))
  {
  }

  lemma PastDeadlineIsNeverRequeued(row: Row, clock: Time, limits: Limits)
    requires PastDeadline(row, clock, 0)
    ensures !Decide(row, clock, limits).Requeue?
    ensures row.status in {Queued, Dispatched} ==> Decide(row, clock, limits) == Fail(DeadlineExceeded)
    ensures PastDeadline(row, clock, limits.cancelGrace) && !IsTerminal(row.status) ==> Decide(row, clock, limits) == Fail(DeadlineExceeded)
  {
  }

  // A run read past deadline and grace is failed by that very reading, however many steps (of any
  // kind: heartbeats, counters, events, cancel flags) came in between, unless status or lease moved.
  lemma DeadlineFailureLands(w: World, between: seq<Action>, limits: Limits, id: RunId, clock: Time, backoff: nat)
    requires Inv(w, limits) && limits.maxAttempts >= 1 && id in w.runs && !IsTerminal(w.runs[id].row.status)
    requires PastDeadline(w.runs[id].row, clock, limits.cancelGrace)
    ensures var observed := w.runs[id].row; var later := Exec(Apply(w, Read(id), limits), between, limits);
      && id in later.runs
      && (Commits(later, On(id, Watch(observed, clock, backoff)), limits) <==>
            later.runs[id].row.status == observed.status && later.runs[id].row.lease == observed.lease)
      && (Commits(later, On(id, Watch(observed, clock, backoff)), limits) ==>
            Apply(later, On(id, Watch(observed, clock, backoff)), limits).runs[id].row.status == Failed)
  {
    var observed := w.runs[id].row;
    var read := Apply(w, Read(id), limits);
    StepKeeps(w, Read(id), limits);
    LogGrows(read, between, limits, id);
    SeenGrows(read, between, limits);
    PastDeadlineIsNeverRequeued(observed, clock, limits);
  }

  // One tick over any interleaving: a run read past deadline and grace ends failed and stays so,
  // unless its status or lease moved between the reading and the action.
  lemma OverdueRunFails(w: World, between: seq<Action>, after: seq<Action>, limits: Limits, id: RunId, clock: Time, backoff: nat)
    requires Inv(w, limits) && limits.maxAttempts >= 1 && id in w.runs && !IsTerminal(w.runs[id].row.status)
    requires PastDeadline(w.runs[id].row, clock, limits.cancelGrace)
    ensures var observed := w.runs[id].row; var later := Exec(Apply(w, Read(id), limits), between, limits);
      var acted := Apply(later, On(id, Watch(observed, clock, backoff)), limits);
      id in later.runs && id in Exec(acted, after, limits).runs
      && (later.runs[id].row.status == observed.status && later.runs[id].row.lease == observed.lease ==>
            acted.runs[id].secrets == {} && Frozen(acted.runs[id], Exec(acted, after, limits).runs[id])
            && Exec(acted, after, limits).runs[id].row.status == Failed)
  {
    var observed := w.runs[id].row;
    var read := Apply(w, Read(id), limits);
    var later := Exec(read, between, limits);
    var act := On(id, Watch(observed, clock, backoff));
    DeadlineFailureLands(w, between, limits, id, clock, backoff);
    StepKeeps(w, Read(id), limits);
    ExecKeeps(read, between, limits);
    StepKeeps(later, act, limits);
    LogGrows(Apply(later, act, limits), after, limits, id);
    if later.runs[id].row.status == observed.status && later.runs[id].row.lease == observed.lease {
      SecretsGoWithTheTerminalStep(later, act, limits, id);
      TerminalIsAbsorbing(Apply(later, act, limits), after, limits, id);
    }
  }

  lemma {:induction false} SeenGrows(w: World, actions: seq<Action>, limits: Limits)
    ensures w.seen <= Exec(w, actions, limits).seen
    decreases |actions|
  {
    if actions != [] { SeenGrows(Apply(w, actions[0], limits), actions[1..], limits); }
  }

  // --- the concurrency limit ---

  ghost function ClearedDispatchers(w: World): set<nat> {
    set d | 0 <= d < |w.dispatchers| && w.dispatchers[d].Cleared?
  }

  ghost predicate WithinLimit(w: World, limits: Limits) {
    |ActiveRuns(w.runs)| + |ClearedDispatchers(w)| <= limits.maxConcurrent + |w.dispatchers| - 1
  }

  lemma ClearedAtMost(w: World)
    ensures |ClearedDispatchers(w)| <= |w.dispatchers|
    ensures (exists d :: 0 <= d < |w.dispatchers| && w.dispatchers[d].Idle?) ==> |ClearedDispatchers(w)| <= |w.dispatchers| - 1
  {
    SubsetSize(ClearedDispatchers(w), Below(|w.dispatchers|));
    if d :| 0 <= d < |w.dispatchers| && w.dispatchers[d].Idle? {
      SubsetSize(ClearedDispatchers(w), Below(|w.dispatchers|) - {d});
    }
  }

  lemma ActiveShrinks(w: World, id: RunId, run: Run, op: Op, limits: Limits)
    requires id in w.runs && Moves(w.runs[id].row, run.row, op) && RowOk(w.runs[id].row, limits)
    ensures |ActiveRuns(Stored(w, id, run, op).runs)| <= |ActiveRuns(w.runs)|
  {
    SubsetSize(ActiveRuns(Stored(w, id, run, op).runs), ActiveRuns(w.runs));
  }

  lemma LimitOn(w: World, id: RunId, op: Op, limits: Limits)
    requires Inv(w, limits) && WithinLimit(w, limits) && Commits(w, On(id, op), limits)
    ensures WithinLimit(Apply(w, On(id, op), limits), limits)
    ensures Apply(w, On(id, op), limits).dispatchers == w.dispatchers
  {
    Performed(w, id, op, limits);
    ActiveShrinks(w, id, Perform(w.runs[id], op, limits, w.now).value, op, limits);
  }

  lemma LimitClaim(w: World, d: nat, id: RunId, limits: Limits)
    requires WithinLimit(w, limits) && Commits(w, Claim(d, id), limits)
    ensures WithinLimit(Apply(w, Claim(d, id), limits), limits)
    ensures |Apply(w, Claim(d, id), limits).dispatchers| == |w.dispatchers|
  {
    var w' := Apply(w, Claim(d, id), limits);
    assert d in ClearedDispatchers(w) && ClearedDispatchers(w') == ClearedDispatchers(w) - {d};
    assert ActiveRuns(w'.runs) == ActiveRuns(w.runs) + {id};
  }

  lemma LimitStep(w: World, a: Action, limits: Limits)
    requires Inv(w, limits) && WithinLimit(w, limits)
    ensures WithinLimit(Apply(w, a, limits), limits) && |Apply(w, a, limits).dispatchers| == |w.dispatchers|
  {
    if Commits(w, a, limits) {
      match a
      case On(id, op) => LimitOn(w, id, op, limits);
      case CheckRoom(d) =>
        assert ClearedDispatchers(Apply(w, a, limits)) == ClearedDispatchers(w) + {d};
        if w.dispatchers[d].Idle? { ClearedAtMost(w); } else { assert d in ClearedDispatchers(w); }
      case StandDown(d) =>
        SubsetSize(ClearedDispatchers(Apply(w, a, limits)), ClearedDispatchers(w));
      case Claim(d, id) => LimitClaim(w, d, id, limits);
      case Create(id, _) =>
        SubsetSize(ActiveRuns(Apply(w, a, limits).runs), ActiveRuns(w.runs));
      case _ =>
    }
  }

  lemma {:induction false} LimitKept(w: World, actions: seq<Action>, limits: Limits)
    requires Inv(w, limits) && limits.maxAttempts >= 1 && WithinLimit(w, limits)
    ensures WithinLimit(Exec(w, actions, limits), limits) && |Exec(w, actions, limits).dispatchers| == |w.dispatchers|
    decreases |actions|
  {
    if actions != [] {
      LimitStep(w, actions[0], limits);
      StepKeeps(w, actions[0], limits);
      LimitKept(Apply(w, actions[0], limits), actions[1..], limits);
    }
  }

  // With one dispatcher this is exactly `max_concurrent_runs`.
  lemma ConcurrencyLimit(dispatchers: nat, actions: seq<Action>, limits: Limits)
    requires limits.maxAttempts >= 1 && dispatchers >= 1
    ensures |ActiveRuns(Exec(Start0(dispatchers), actions, limits).runs)| <= limits.maxConcurrent + dispatchers - 1
  {
    Initially(dispatchers, limits);
    assert ClearedDispatchers(Start0(dispatchers)) == {} && ActiveRuns(map[]) == {};
    LimitKept(Start0(dispatchers), actions, limits);
  }

  // --- the API's cancel ---

  // The route settles a run it saw queued first, but `finish` reads the row again and its unbound
  // compare-and-set carries no lease: it commits on every non-terminal row that kept the status of
  // that second reading, a running one included.
  lemma ApiCancelCommits(w: World, limits: Limits, id: RunId, first: Row, read: Row)
    requires Inv(w, limits) && (id, first) in w.seen && (id, read) in w.seen
    ensures var cancel := On(id, ApiCancel(first, read));
      && (Commits(w, cancel, limits) <==> first.status == Queued && !IsTerminal(read.status) && w.runs[id].row.status == read.status)
      && (Commits(w, cancel, limits) ==> Apply(w, cancel, limits).runs[id].row.status == Cancelled)
  {
  }

  lemma {:induction false} ExecSplits(w: World, a: seq<Action>, b: seq<Action>, limits: Limits)
    ensures Exec(w, a + b, limits) == Exec(Exec(w, a, limits), b, limits)
    decreases |a|
  {
    if a == [] {
      assert a + b == b;
    } else {
      assert (a + b)[1..] == a[1..] + b;
      ExecSplits(Apply(w, a[0], limits), a[1..], b, limits);
    }
  }

  lemma ExecOne(w: World, a: Action, rest: seq<Action>, limits: Limits)
    ensures Exec(w, [a] + rest, limits) == Exec(Apply(w, a, limits), rest, limits)
    ensures Exec(w, [], limits) == w
  {
    assert ([a] + rest)[1..] == rest;
  }

  function ClaimedRun(limits: Limits): Run {
    Claimed(NewRun(0, None), 0, limits, 0)
  }

  function StartedRun(limits: Limits): Run {
    Start(ClaimedRun(limits), 0, 1, ClaimedRun(limits).row, ClaimedRun(limits).row, "agent", 0).value
  }

  // The route sees the run queued, a dispatcher claims it ...
  const SEEN_QUEUED := [Create(0, None)] + ([Read(0)] + [])
  const THEN_CLAIMED := [CheckRoom(0)] + ([Claim(0, 0)] + [])

  // ... and an agent starts it before the second reading.
  function ThenStarted(limits: Limits): seq<Action> {
    [Read(0)] + ([On(0, Execute(0, 1, ClaimedRun(limits).row, ClaimedRun(limits).row, "agent"))] + ([Read(0)] + []))
  }

  ghost predicate JustClaimed(w: World, limits: Limits) {
    w.runs == map[0 := ClaimedRun(limits)] && w.now == 0 && (0, NewRun(0, None).row) in w.seen
  }

  ghost predicate JustQueued(w: World) {
    && w.runs == map[0 := NewRun(0, None)] && w.now == 0 && w.nextLease == 0 && w.dispatchers == [Idle]
    && (0, NewRun(0, None).row) in w.seen
  }

  lemma ReachQueued(limits: Limits)
    ensures JustQueued(Exec(Start0(1), SEEN_QUEUED, limits))
  {
    var w0 := Start0(1);
    var w1 := Apply(w0, Create(0, None), limits);
    var w2 := Apply(w1, Read(0), limits);
    ExecOne(w0, Create(0, None), [Read(0)] + [], limits);
    ExecOne(w1, Read(0), [], limits);
    assert w1.runs == map[0 := NewRun(0, None)] && w2.dispatchers == [Idle];
  }

  lemma ReachClaimed(w: World, limits: Limits)
    requires JustQueued(w) && limits.maxConcurrent >= 1
    ensures JustClaimed(Exec(w, THEN_CLAIMED, limits), limits)
  {
    assert ActiveRuns(w.runs) == {};
    var w1 := Apply(w, CheckRoom(0), limits);
    var w2 := Apply(w1, Claim(0, 0), limits);
    ExecOne(w, CheckRoom(0), [Claim(0, 0)] + [], limits);
    ExecOne(w1, Claim(0, 0), [], limits);
    assert w2.runs == map[0 := ClaimedRun(limits)];
  }

  ghost predicate UnderWay(w: World, limits: Limits) {
    && w.runs == map[0 := StartedRun(limits)]
    && (0, NewRun(0, None).row) in w.seen && (0, StartedRun(limits).row) in w.seen
  }

  lemma ReachRunning(w: World, limits: Limits)
    requires JustClaimed(w, limits)
    ensures UnderWay(Exec(w, ThenStarted(limits), limits), limits)
  {
    var execute := On(0, Execute(0, 1, ClaimedRun(limits).row, ClaimedRun(limits).row, "agent"));
    var w1 := Apply(w, Read(0), limits);
    var w2 := Apply(w1, execute, limits);
    var w3 := Apply(w2, Read(0), limits);
    ExecOne(w, Read(0), [execute] + ([Read(0)] + []), limits);
    ExecOne(w1, execute, [Read(0)] + [], limits);
    ExecOne(w2, Read(0), [], limits);
    assert w2.runs == map[0 := StartedRun(limits)];
  }

  // The cancel then commits over the running run and its live lease.
  lemma ApiCancelClosesARunningRun(limits: Limits)
    requires limits.maxConcurrent >= 1
    ensures var w := Exec(Start0(1), SEEN_QUEUED + (THEN_CLAIMED + ThenStarted(limits)), limits);
      var first, read := NewRun(0, None).row, StartedRun(limits).row;
      && first.status == Queued && 0 in w.runs && w.runs[0].row.status == Running && Holds(w, 0, 0)
      && Commits(w, On(0, ApiCancel(first, read)), limits)
      && Apply(w, On(0, ApiCancel(first, read)), limits).runs[0].row.status == Cancelled
  {
    var queued := Exec(Start0(1), SEEN_QUEUED, limits);
    ReachQueued(limits);
    ReachClaimed(queued, limits);
    ReachRunning(Exec(queued, THEN_CLAIMED, limits), limits);
    ExecSplits(Start0(1), SEEN_QUEUED, THEN_CLAIMED + ThenStarted(limits), limits);
    ExecSplits(queued, THEN_CLAIMED, ThenStarted(limits), limits);
  }

  // --- cancellation ---

  lemma CancelFlagStep(w: World, a: Action, limits: Limits, id: RunId)
    requires id in w.runs && w.runs[id].row.cancelRequested
    ensures id in Apply(w, a, limits).runs && Apply(w, a, limits).runs[id].row.cancelRequested
  {
  }

  // Nothing takes a request to cancel back.
  lemma {:induction false} CancelFlagStays(w: World, actions: seq<Action>, limits: Limits, id: RunId)
    requires id in w.runs && w.runs[id].row.cancelRequested
    ensures id in Exec(w, actions, limits).runs && Exec(w, actions, limits).runs[id].row.cancelRequested
    decreases |actions|
  {
    if actions != [] {
      CancelFlagStep(w, actions[0], limits, id);
      CancelFlagStays(Apply(w, actions[0], limits), actions[1..], limits, id);
    }
  }

  ghost predicate SilentInTime(row: Row, clock: Time, limits: Limits) {
    row.status == Running && OlderThan(row.heartbeatAt, clock, limits.heartbeatTimeout) && !PastDeadline(row, clock, limits.cancelGrace)
  }

  // So from the request on, every reading of the run shows it, no such reading is ever requeued, and a
  // silent agent means the run is cancelled, unless its deadline has passed.
  lemma CancelIsSeen(w: World, actions: seq<Action>, limits: Limits, id: RunId, clock: Time)
    requires id in w.runs
    ensures var later := Exec(Apply(w, On(id, RequestCancel), limits), actions, limits);
      && id in later.runs && later.runs[id].row.cancelRequested
      && !Decide(later.runs[id].row, clock, limits).Requeue?
      && (SilentInTime(later.runs[id].row, clock, limits) ==> Decide(later.runs[id].row, clock, limits) == Cancel)
  {
    CancelFlagStays(Apply(w, On(id, RequestCancel), limits), actions, limits, id);
  }
}
