/** Passes that show what an "already running" is worth, and why the other writers are no danger to a pass. */
module DispatchCases {
  import opened Wrappers
  import opened RunStates
  import opened RunRows
  import opened RunsTable
  import opened Watchdog
  import opened Offers
  import opened Dispatch
  import Lifecycle
  import LifecycleSafety
  import LifecycleTheorems

  // Whatever any writers do to the table of a reachable system, they neither delete the run nor dispatch
  // it again under a lease issued before.
  lemma {:induction false} OthersYield(w: Lifecycle.World, actions: seq<Lifecycle.Action>, limits: Limits, request: Request)
    requires Lifecycle.Inv(w, limits) && limits.maxAttempts >= 1 && request.id in w.runs && request.lease < w.nextLease
    ensures Yields(w.runs, Lifecycle.Exec(w, actions, limits).runs, request)
    decreases |actions|
  {
    if actions != [] {
      var next := Lifecycle.Apply(w, actions[0], limits);
      LifecycleSafety.StepKeeps(w, actions[0], limits);
      LifecycleTheorems.DecisionStep(w, actions[0], limits, request.id, request.lease);
      LifecycleTheorems.LogStep(w, actions[0], limits, request.id);
      OthersYield(next, actions[1..], limits, request);
    }
  }

  // So a pass is fair when before each offer, and before the end, the others made steps of the system.
  lemma PassesAreFair(s: Setting, runs: map<RunId, Run>, worlds: seq<Lifecycle.World>, between: seq<seq<Lifecycle.Action>>, limits: Limits)
    requires limits.maxAttempts >= 1 && s.request.id in runs && |worlds| == |between| == |s.crew| + 1
    requires forall k | 0 <= k < |worlds| :: Lifecycle.Inv(worlds[k], limits) && s.request.lease < worlds[k].nextLease
    requires forall k: nat | k <= |s.crew| ::
      After(s, runs, k).runs == worlds[k].runs && Found(s, runs, k) == Lifecycle.Exec(worlds[k], between[k], limits).runs
    ensures Fair(s, runs)
  {
    forall k: nat | k <= |s.crew| ensures Yields(After(s, runs, k).runs, Found(s, runs, k), s.request) {
      if s.request.id in worlds[k].runs { OthersYield(worlds[k], between[k], limits, s.request); }
    }
  }

  const NOBODY: Others := (k, runs) => runs
  const ALL: nat -> Delivery := k => Delivery(true, true)

  // --- a first answer lost, a second replica that is free ---

  const FIRST_LOST := Around(k => Delivery(true, k != 0), NOBODY)

  lemma SecondAnswerCounts(s: Setting, runs: map<RunId, Run>)
    requires s.around == FIRST_LOST && s.crew == [Member("a", false, true), Member("b", false, true)]
    requires s.request.id in runs && Offerable(runs[s.request.id].row, s.request)
    ensures var started := Put(runs, s.request.id, Taking(runs[s.request.id], s.request, "a", s.now));
      After(s, runs, 2) == Pass(started, AlreadyRunning, Some(0)) && Takes(s, runs, 0) && !Takes(s, runs, 1)
  {
    TakesIfOfferable(runs[s.request.id], s.request, "a", s.now);
    assert After(s, runs, 0) == Pass(runs, Unheard, None);
    assert After(s, runs, 1) == Step(s, 0, runs, None);
  }

  // The table at the start of every case, once the claim is reported: one run, just created.
  function Fresh(limits: Limits): map<RunId, Run> {
    map[0 := Announced(NewRun(0, None), 0, limits, 0)]
  }

  ghost predicate FreshPass(s: Setting, around: Around, limits: Limits, course: Course) {
    s == Setting(Request(0, 0, 1), s.crew, around, 0) && Runs(s, Fresh(limits), course)
  }

  lemma LostAnswerCourse(s: Setting, limits: Limits, course: Course)
    requires FreshPass(s, FIRST_LOST, limits, course) && s.crew == [Member("a", false, true), Member("b", false, true)]
    ensures course.took == [true, false] && course.pass[2].belief == AlreadyRunning
    ensures var after := Concluded(s, course.pass[2], 0);
      && after.Keys == {0} && after[0].row.status == Running && after[0].row.agent == Some("a")
      && after[0].log == [Event(1, Dispatcher, RunClaimed)]
  {
    var runs := Fresh(limits);
    SecondAnswerCounts(s, runs);
    assert course.pass[2] == After(s, runs, 2) && (course.took[0] <==> Takes(s, runs, 0)) && (course.took[1] <==> Takes(s, runs, 1));
    TakesIfOfferable(runs[0], s.request, "a", 0);
  }

  // One run and the replicas as described: the pass is a fresh one.
  method FreshDispatch(table: Table, replicas: seq<Replica>, around: Around, limits: Limits) returns (dispatched: bool, ghost s: Setting, ghost course: Course)
    requires table.runs == map[0 := NewRun(0, None)] && table.nextLease == 0 && table.now == 0 && limits.maxConcurrent >= 1
    requires Ready(replicas) && replicas != [] && forall k | 0 <= k < |replicas| :: replicas[k].tasks == map[]
    modifies table, replicas`tasks
    ensures Ready(replicas) && table.now == 0 && table.nextLease == 1
    ensures FreshPass(s, around, limits, course) && |s.crew| == |replicas|
    ensures forall k | 0 <= k < |replicas| :: s.crew[k] == Member(replicas[k].agent, false, !replicas[k].draining && 0 < replicas[k].slots)
    ensures forall k | 0 <= k < |replicas| :: replicas[k].tasks == if course.took[k] then map[0 := 0] else map[]
    ensures table.runs == Concluded(s, course.pass[|replicas|], 0) && (dispatched <==> course.pass[|replicas|].belief != Unheard)
  {
    ghost var runs := table.runs;
    assert ActiveRuns(runs) == {} && Claimable(runs[0], 0);
    var claimed;
    ghost var was;
    dispatched, claimed, s, was, course := DispatchOnce(table, limits, replicas, around, {}, 0);
    assert claimed == Some(0);
    assert runs[0 := Announced(runs[0], 0, limits, 0)] == Fresh(limits);
    assert forall k | 0 <= k < |replicas| :: was[k] == map[];
  }

  // The first replica starts the run and its answer is lost; the second finds the run started and refuses
  // it, which the dispatcher rightly takes for a success.
  method LostAnswerIsNoticed(limits: Limits) returns (table: Table, a: Replica, b: Replica, dispatched: bool)
    requires limits.maxConcurrent >= 1
    ensures dispatched && table.runs.Keys == {0} && table.runs[0].row.status == Running && table.runs[0].row.agent == Some("a")
    ensures a.tasks == map[0 := 0] && b.tasks == map[] && table.runs[0].log == [Event(1, Dispatcher, RunClaimed)]
  {
    table := new Table();
    a := new Replica("a", 2);
    b := new Replica("b", 2);
    table.Create(0, None);
    ghost var s, course;
    dispatched, s, course := FreshDispatch(table, [a, b], FIRST_LOST, limits);
    assert [a, b][0] == a && [a, b][1] == b && s.crew == [s.crew[0], s.crew[1]];
    LostAnswerCourse(s, limits, course);
  }

  // --- a run cancelled between its claim and the offer ---

  // The route saw the run queued; its closing call reads it again, now dispatched.
  function CancelledByApi(runs: map<RunId, Run>): map<RunId, Run> {
    if 0 !in runs then runs
    else
      var limits := Limits(0, 0, 0, 0, 0, 0, 0);
      Put(runs, 0, Lifecycle.Perform(runs[0], Lifecycle.ApiCancel(NewRun(0, None).row, runs[0].row), limits, 0))
  }

  const CANCELLED := Around(ALL, (k, runs) => if k == 0 then CancelledByApi(runs) else runs)

  lemma CancelledCourse(s: Setting, limits: Limits, course: Course)
    requires FreshPass(s, CANCELLED, limits, course) && s.crew == [Member("a", false, true)]
    ensures course.took == [false] && course.pass[1] == Pass(CancelledByApi(Fresh(limits)), AlreadyRunning, None)
    ensures var after := Concluded(s, course.pass[1], 0); after.Keys == {0} && after[0].row.status == Cancelled && after[0].row.agent.None?
  {
    var runs := Fresh(limits);
    assert runs[0].row.status == Dispatched && CancelledByApi(runs)[0].row.status == Cancelled;
    assert After(s, runs, 0) == Pass(runs, Unheard, None) && s.around.others(0, runs) == CancelledByApi(runs);
    assert course.pass[1] == After(s, runs, 1) && (course.took[0] <==> Takes(s, runs, 0));
  }

  // An idle replica refuses the closed run, and the dispatcher believes that somebody works on it.
  method MisledByACancel(limits: Limits) returns (table: Table, replica: Replica, dispatched: bool)
    requires limits.maxConcurrent >= 1
    ensures dispatched && table.runs.Keys == {0} && table.runs[0].row.status == Cancelled && table.runs[0].row.agent.None?
    ensures replica.tasks == map[]
  {
    table := new Table();
    replica := new Replica("a", 2);
    table.Create(0, None);
    ghost var s, course;
    dispatched, s, course := FreshDispatch(table, [replica], CANCELLED, limits);
    assert [replica][0] == replica && s.crew == [s.crew[0]];
    CancelledCourse(s, limits, course);
  }

  // --- a replica still busy with an older attempt ---

  const QUIET := Around(ALL, NOBODY)

  lemma FirstCourse(s: Setting, limits: Limits, course: Course)
    requires FreshPass(s, QUIET, limits, course) && s.crew == [Member("a", false, true)]
    ensures course.took == [true]
    ensures var after := Concluded(s, course.pass[1], 0);
      && after.Keys == {0} && after[0].row == Fresh(limits)[0].row.(
           status := Running, agent := Some("a"), startedAt := Some(0), heartbeatAt := Some(0), eventSeq := 2)
  {
    var runs := Fresh(limits);
    assert Offerable(runs[0].row, s.request) && After(s, runs, 0) == Pass(runs, Unheard, None) && s.around.others(0, runs) == runs;
    assert course.pass[1] == After(s, runs, 1) && (course.took[0] <==> Takes(s, runs, 0));
  }

  lemma SecondCourse(s: Setting, runs: map<RunId, Run>, course: Course)
    requires Runs(s, runs, course) && s.around == QUIET && s.crew == [Member("a", true, true)]
    ensures course.took == [false] && course.pass[1] == Pass(runs, AlreadyRunning, None)
  {
    assert After(s, runs, 0) == Pass(runs, Unheard, None) && s.around.others(0, runs) == runs;
    assert course.pass[1] == After(s, runs, 1) && (course.took[0] <==> Takes(s, runs, 0));
  }

  // The next pass offers the run to the replica that still has the task of its first attempt.
  method SecondAttempt(table: Table, replica: Replica, limits: Limits) returns (dispatched: bool)
    requires table.runs.Keys == {0} && Claimable(table.runs[0], table.now) && table.runs[0].row.attempts == 1 && table.nextLease == 1
    requires replica.Valid() && replica.tasks == map[0 := 0] && !replica.draining && replica.agent == "a" && replica.slots == 2 && limits.maxConcurrent >= 1
    modifies table, replica`tasks
    ensures table.runs.Keys == {0} && table.runs[0].row.status == Dispatched && table.runs[0].row.attempts == 2 && table.runs[0].row.lease == Some(1)
    ensures replica.tasks == map[0 := 0] && dispatched
  {
    ghost var runs := table.runs;
    assert ActiveRuns(runs) == {};
    var claimed;
    ghost var s, was, course;
    dispatched, claimed, s, was, course := DispatchOnce(table, limits, [replica], QUIET, {}, 0);
    assert claimed == Some(0) && [replica][0] == replica && was[0] == old(replica.tasks) && s.crew == [s.crew[0]];
    SecondCourse(s, runs[0 := Announced(runs[0], 1, limits, old(table.now))], course);
  }

  ghost predicate JustStarted(row: Row, limits: Limits) {
    && row.status == Running && row.heartbeatAt == Some(0) && row.deadlineAt == Some(limits.hardDeadline)
    && row.attempts == 1 && row.agent == Some("a") && !row.cancelRequested
  }

  lemma Silent(row: Row, limits: Limits)
    requires JustStarted(row, limits)
    requires limits.heartbeatTimeout < limits.hardDeadline && limits.maxAttempts >= 2
    ensures Decide(row, limits.heartbeatTimeout + 1, limits) == Requeue(HeartbeatLost)
  {
  }

  // The agent falls silent; the watchdog's next look after the heartbeat timeout requeues the run.
  method Requeued(table: Table, limits: Limits)
    requires table.runs.Keys == {0} && table.now == 0 && limits.heartbeatTimeout < limits.hardDeadline && limits.maxAttempts >= 2
    requires JustStarted(table.runs[0].row, limits)
    modifies table
    ensures table.runs.Keys == {0} && table.nextLease == old(table.nextLease) && table.now == limits.heartbeatTimeout + 1
    ensures Claimable(table.runs[0], table.now) && table.runs[0].row.attempts == 1
  {
    table.now := limits.heartbeatTimeout + 1;
    var list := table.Watchlist();
    Silent(table.runs[0].row, limits);
    OneEntry(list, table.runs);
    table.WatchOnce(list, table.now, limits, 0);
  }

  lemma OneEntry(list: seq<(RunId, Row)>, runs: map<RunId, Run>)
    requires runs.Keys == {0} && Watched(runs[0])
    requires forall id: RunId, row: Row :: (id, row) in list <==> id in runs && Watched(runs[id]) && row == runs[id].row
    requires forall i, j | 0 <= i < j < |list| :: list[i].0 != list[j].0
    ensures list == [(0, runs[0].row)]
  {
    assert (0, runs[0].row) in list;
    forall i | 0 <= i < |list| ensures list[i] == (0, runs[0].row) {
      assert (list[i].0, list[i].1) in list;
    }
    assert !(|list| > 1 && list[0].0 == list[1].0);
  }

  // A replica starts a run and falls silent; the watchdog requeues the run while the replica's task for
  // the first attempt is still there. The next pass offers the second attempt to the same replica, takes
  // its "already executing" for a success, and leaves a run that nobody works on.
  method MisledByAnOlderAttempt(limits: Limits) returns (table: Table, replica: Replica, dispatched: bool)
    requires limits.maxConcurrent >= 1 && limits.maxAttempts >= 2 && limits.heartbeatTimeout < limits.hardDeadline
    ensures table.runs.Keys == {0} && table.runs[0].row.status == Dispatched && table.runs[0].row.attempts == 2
    ensures table.runs[0].row.lease == Some(1) && replica.tasks == map[0 := 0] && dispatched
  {
    table := new Table();
    replica := new Replica("a", 2);
    table.Create(0, None);
    ghost var s, course;
    dispatched, s, course := FreshDispatch(table, [replica], QUIET, limits);
    assert [replica][0] == replica && s.crew == [s.crew[0]];
    FirstCourse(s, limits, course);
    Requeued(table, limits);
    dispatched := SecondAttempt(table, replica, limits);
  }
}
