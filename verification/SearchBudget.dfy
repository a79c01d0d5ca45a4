/**
 The searches of a round run as concurrent tasks that share one counter. Between the budget check and
 the increment a task never waits, so that pair is one step; everything else may interleave freely.
 */
module SearchBudget {
  datatype Result = Hits | Empty | Failed | Skipped

  datatype Phase = Waiting | Calling | Finished(result: Result)

  // `broadened`: the task is on its one retry; `calls` counts the searches it made.
  datatype Task = Task(phase: Phase, broadened: bool, calls: nat)

  datatype State = State(searches: nat, tasks: seq<Task>)

  datatype Limits = Limits(maxSearches: nat, maxParallel: nat)

  // A search ends with some result; `broader` tells whether a broadened query exists for it.
  datatype Action = Begin(task: nat) | End(task: nat, result: Result, broader: bool)

  function Start(planned: nat, used: nat): State {
    State(used, seq(planned, i => Task(Waiting, false, 0)))
  }

  function Running(tasks: seq<Task>): nat {
    if tasks == [] then 0 else Running(tasks[..|tasks| - 1]) + if tasks[|tasks| - 1].phase == Calling then 1 else 0
  }

  function Calls(tasks: seq<Task>): nat {
    if tasks == [] then 0 else Calls(tasks[..|tasks| - 1]) + tasks[|tasks| - 1].calls
  }

  // Each task begins when the semaphore lets it.
  predicate Enabled(limits: Limits, s: State, a: Action) {
    a.task < |s.tasks| &&
    match a
    case Begin(i) => s.tasks[i].phase == Waiting && Running(s.tasks) < limits.maxParallel
    case End(i, result, _) => s.tasks[i].phase == Calling && result != Skipped
  }

  function Begun(limits: Limits, s: State, i: nat): State
    requires i < |s.tasks|
  {
    if s.searches >= limits.maxSearches then s.(tasks := s.tasks[i := s.tasks[i].(phase := Finished(Skipped))])
    else State(s.searches + 1, s.tasks[i := s.tasks[i].(phase := Calling, calls := s.tasks[i].calls + 1)])
  }

  function Ended(limits: Limits, s: State, i: nat, result: Result, broader: bool): State
    requires i < |s.tasks|
  {
    var t := s.tasks[i];
    if result == Empty && !t.broadened && broader && s.searches < limits.maxSearches
    then s.(tasks := s.tasks[i := t.(phase := Waiting, broadened := true)])
    else s.(tasks := s.tasks[i := t.(phase := Finished(result))])
  }

  function Next(limits: Limits, s: State, a: Action): State {
    if !Enabled(limits, s, a) then s
    else match a
      case Begin(i) => Begun(limits, s, i)
      case End(i, result, broader) => Ended(limits, s, i, result, broader)
  }

  function Exec(limits: Limits, s: State, actions: seq<Action>): State {
    if actions == [] then s else Next(limits, Exec(limits, s, actions[..|actions| - 1]), actions[|actions| - 1])
  }

  // --- one task ---

  // A task begins with a search exactly if one is left, and is skipped otherwise; nobody else is affected.
  lemma BeginMeans(limits: Limits, s: State, i: nat)
    requires i < |s.tasks| && s.tasks[i].phase == Waiting && Running(s.tasks) < limits.maxParallel
    ensures var next := Next(limits, s, Begin(i));
      && next.tasks == s.tasks[i := next.tasks[i]] && next.tasks[i].broadened == s.tasks[i].broadened
      && if s.searches < limits.maxSearches
         then next.tasks[i].phase == Calling && next.tasks[i].calls == s.tasks[i].calls + 1 && next.searches == s.searches + 1
         else next.tasks[i].phase == Finished(Skipped) && next.tasks[i].calls == s.tasks[i].calls && next.searches == s.searches
  {
  }

  // A search is retried exactly if it was the first, found nothing, can be broadened and a search is left;
  // any other result is final.
  lemma RetriedIff(limits: Limits, s: State, i: nat, result: Result, broader: bool)
    requires i < |s.tasks| && s.tasks[i].phase == Calling && result in {Hits, Empty, Failed}
    ensures var next := Next(limits, s, End(i, result, broader));
      && next.tasks == s.tasks[i := next.tasks[i]] && next.searches == s.searches && next.tasks[i].calls == s.tasks[i].calls
      && if result == Empty && !s.tasks[i].broadened && broader && s.searches < limits.maxSearches
         then next.tasks[i].phase == Waiting && next.tasks[i].broadened
         else next.tasks[i].phase == Finished(result) && next.tasks[i].broadened == s.tasks[i].broadened
  {
  }

  // What is finished stays so, and a retry is never forgotten.
  lemma {:induction false} FinishedStays(limits: Limits, s: State, actions: seq<Action>, i: nat)
    requires i < |s.tasks|
    ensures |Exec(limits, s, actions).tasks| == |s.tasks|
    ensures s.tasks[i].phase.Finished? ==> Exec(limits, s, actions).tasks[i] == s.tasks[i]
    ensures s.tasks[i].broadened ==> Exec(limits, s, actions).tasks[i].broadened
  {
    if actions != [] { FinishedStays(limits, s, actions[..|actions| - 1], i); }
  }

  // So over a whole round a task searches twice only if its first search found nothing and was broadened.
  lemma TwiceMeansRetried(limits: Limits, planned: nat, used: nat, actions: seq<Action>, i: nat)
    requires i < planned
    ensures var s := Exec(limits, Start(planned, used), actions);
      |s.tasks| == planned && (s.tasks[i].calls == 2 ==> s.tasks[i].broadened)
  {
    ExecKeeps(limits, planned, used, actions);
    var s := Exec(limits, Start(planned, used), actions);
    assert TaskOk(limits, s, s.tasks[i]);
  }

  // --- what every interleaving keeps ---

  ghost predicate TaskOk(limits: Limits, s: State, t: Task) {
    && t.calls <= 2
    && (t.calls == (if t.broadened then 1 else 0) + (if t.phase == Waiting || t.phase == Finished(Skipped) then 0 else 1))
    && (t.phase == Finished(Skipped) ==> s.searches >= limits.maxSearches)
  }

  ghost predicate Inv(limits: Limits, used: nat, s: State) {
    && s.searches == used + Calls(s.tasks)
    && (s.searches <= limits.maxSearches || s.searches == used)
    && Running(s.tasks) <= limits.maxParallel
    && forall i | 0 <= i < |s.tasks| :: TaskOk(limits, s, s.tasks[i])
  }

  lemma {:induction false} Changed(tasks: seq<Task>, i: nat, t: Task)
    requires i < |tasks|
    ensures Calls(tasks[i := t]) == Calls(tasks) - tasks[i].calls + t.calls
    ensures Running(tasks[i := t]) == Running(tasks) - (if tasks[i].phase == Calling then 1 else 0) + (if t.phase == Calling then 1 else 0)
  {
    var n := |tasks| - 1;
    if i < n {
      Changed(tasks[..n], i, t);
      assert tasks[i := t][..n] == tasks[..n][i := t];
    } else {
      assert tasks[i := t][..n] == tasks[..n];
    }
  }

  lemma NextKeeps(limits: Limits, used: nat, s: State, a: Action)
    requires Inv(limits, used, s)
    ensures Inv(limits, used, Next(limits, s, a)) && Next(limits, s, a).searches >= s.searches
  {
    if Enabled(limits, s, a) {
      var next := Next(limits, s, a);
      Changed(s.tasks, a.task, next.tasks[a.task]);
      assert TaskOk(limits, s, s.tasks[a.task]);
      forall i | 0 <= i < |next.tasks| ensures TaskOk(limits, next, next.tasks[i]) {
        assert TaskOk(limits, s, s.tasks[i]);
      }
    }
  }

  lemma {:induction false} NothingCalled(tasks: seq<Task>)
    requires forall t | t in tasks :: t.phase == Waiting && t.calls == 0
    ensures Calls(tasks) == 0 && Running(tasks) == 0
  {
    if tasks != [] { NothingCalled(tasks[..|tasks| - 1]); }
  }

  lemma {:induction false} ExecKeeps(limits: Limits, planned: nat, used: nat, actions: seq<Action>)
    ensures Inv(limits, used, Exec(limits, Start(planned, used), actions))
    ensures |Exec(limits, Start(planned, used), actions).tasks| == planned
  {
    if actions == [] {
      NothingCalled(Start(planned, used).tasks);
    } else {
      ExecKeeps(limits, planned, used, actions[..|actions| - 1]);
      NextKeeps(limits, used, Exec(limits, Start(planned, used), actions[..|actions| - 1]), actions[|actions| - 1]);
    }
  }

  // Whatever the interleaving and the results, retries included, the counter never passes the limit.
  lemma BudgetHolds(limits: Limits, planned: nat, used: nat, actions: seq<Action>)
    requires used <= limits.maxSearches
    ensures var s := Exec(limits, Start(planned, used), actions);
      s.searches <= limits.maxSearches && s.searches == used + Calls(s.tasks) && Running(s.tasks) <= limits.maxParallel
  {
    ExecKeeps(limits, planned, used, actions);
  }

  // A task is skipped only when the budget is spent to the last search, and searches at most twice.
  lemma SkippedMeansSpent(limits: Limits, planned: nat, used: nat, actions: seq<Action>, i: nat)
    requires used <= limits.maxSearches && i < planned
    ensures var s := Exec(limits, Start(planned, used), actions);
      && |s.tasks| == planned
      && s.tasks[i].calls <= 2
      && (s.tasks[i].phase == Finished(Skipped) ==> s.searches == limits.maxSearches)
      && (s.tasks[i].phase.Finished? && s.tasks[i].phase.result != Skipped ==> s.tasks[i].calls >= 1)
  {
    ExecKeeps(limits, planned, used, actions);
    var s := Exec(limits, Start(planned, used), actions);
    assert TaskOk(limits, s, s.tasks[i]);
  }

  // --- it ends ---

  function StepsLeft(t: Task): nat {
    (if t.broadened then 0 else 2) + (match t.phase case Waiting => 2 case Calling => 1 case Finished(_) => 0)
    - (if t.phase.Finished? && !t.broadened then 2 else 0)
  }

  function Left(tasks: seq<Task>): nat {
    if tasks == [] then 0 else Left(tasks[..|tasks| - 1]) + StepsLeft(tasks[|tasks| - 1])
  }

  lemma {:induction false} LeftChanged(tasks: seq<Task>, i: nat, t: Task)
    requires i < |tasks|
    ensures Left(tasks[i := t]) == Left(tasks) - StepsLeft(tasks[i]) + StepsLeft(t)
  {
    var n := |tasks| - 1;
    if i < n {
      LeftChanged(tasks[..n], i, t);
      assert tasks[i := t][..n] == tasks[..n][i := t];
    } else {
      assert tasks[i := t][..n] == tasks[..n];
    }
  }

  // Steps that do something.
  function Effective(limits: Limits, s: State, actions: seq<Action>): nat {
    if actions == [] then 0
    else
      var front := actions[..|actions| - 1];
      Effective(limits, s, front) + if Enabled(limits, Exec(limits, s, front), actions[|actions| - 1]) then 1 else 0
  }

  // Every action that changes anything counts.
  lemma EffectiveCounts(limits: Limits, s: State, actions: seq<Action>, a: Action)
    ensures Effective(limits, s, []) == 0
    ensures Effective(limits, s, actions + [a]) ==
      Effective(limits, s, actions) + if Exec(limits, s, actions + [a]) != Exec(limits, s, actions) then 1 else 0
  {
    assert (actions + [a])[..|actions|] == actions;
    var now := Exec(limits, s, actions);
    if Enabled(limits, now, a) { assert Next(limits, now, a).tasks[a.task].phase != now.tasks[a.task].phase; }
  }

  lemma {:induction false} LeftAtStart(tasks: seq<Task>)
    requires forall i | 0 <= i < |tasks| :: tasks[i] == Task(Waiting, false, 0)
    ensures Left(tasks) == 4 * |tasks|
  {
    if tasks != [] { LeftAtStart(tasks[..|tasks| - 1]); }
  }

  // No interleaving takes more than four steps a planned query.
  lemma {:induction false} RoundEnds(limits: Limits, planned: nat, used: nat, actions: seq<Action>)
    ensures Effective(limits, Start(planned, used), actions) + Left(Exec(limits, Start(planned, used), actions).tasks) <= 4 * planned
  {
    if actions == [] {
      LeftAtStart(Start(planned, used).tasks);
    } else {
      var front, a := actions[..|actions| - 1], actions[|actions| - 1];
      RoundEnds(limits, planned, used, front);
      var s := Exec(limits, Start(planned, used), front);
      if Enabled(limits, s, a) { LeftChanged(s.tasks, a.task, Next(limits, s, a).tasks[a.task]); }
    }
  }

  // And as long as a task is unfinished and a slot is allowed at all, some step is possible.
  lemma {:induction false} NobodyRuns(tasks: seq<Task>)
    requires Running(tasks) > 0
    ensures exists i :: 0 <= i < |tasks| && tasks[i].phase == Calling
  {
    var front := tasks[..|tasks| - 1];
    if tasks[|tasks| - 1].phase != Calling {
      NobodyRuns(front);
      var i :| 0 <= i < |front| && front[i].phase == Calling;
      assert tasks[i] == front[i];
    }
  }

  lemma NoDeadlock(limits: Limits, s: State, i: nat)
    requires limits.maxParallel > 0 && i < |s.tasks| && !s.tasks[i].phase.Finished?
    ensures exists a :: Enabled(limits, s, a)
  {
    if Running(s.tasks) > 0 {
      NobodyRuns(s.tasks);
      var k: nat :| k < |s.tasks| && s.tasks[k].phase == Calling;
      assert Enabled(limits, s, End(k, Hits, false));
    } else if s.tasks[i].phase == Waiting {
      assert Enabled(limits, s, Begin(i));
    } else {
      assert Enabled(limits, s, End(i, Hits, false));
    }
  }
}
