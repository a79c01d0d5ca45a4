/**
 The `runs` table as the Go store and the Python repository write it, one method per statement or
 transaction, and the watchdog pass that runs on top. Each method is proved equal to the row
 functions of `RunRows`, which is what the protocol theorems are about.
 */
module RunsTable {
  import opened Wrappers
  import opened RunStates
  import opened RunRows
  import opened Watchdog

  datatype SettleResult = Committed | LostRace | Forbidden

  function Put(runs: map<RunId, Run>, id: RunId, run: Option<Run>): map<RunId, Run> {
    if run.Some? then runs[id := run.value] else runs
  }

  function SettleIn(runs: map<RunId, Run>, id: RunId, observed: Row, change: Change, now: Time): map<RunId, Run> {
    if id in runs then Put(runs, id, Settle(runs[id], observed, change, now)) else runs
  }

  predicate Watched(run: Run) {
    && (run.row.status in {Dispatched, Running} || (run.row.status == Queued && run.row.deadlineAt.Some?))
    && run.row.agent != Some("cli")
  }

  // The watchdog's effect for one entry of its list.
  function WatchOne(runs: map<RunId, Run>, id: RunId, observed: Row, clock: Time, now: Time, limits: Limits, backoff: nat): map<RunId, Run> {
    var decision := Decide(observed, clock, limits);
    if decision.AskAgentToCancel? then (if id in runs then runs[id := AskCancel(runs[id])] else runs)
    else match ChangeFor(decision, backoff)
      case None => runs
      case Some(change) => SettleIn(runs, id, observed, change, now)
  }

  function WatchPass(runs: map<RunId, Run>, list: seq<(RunId, Row)>, clock: Time, now: Time, limits: Limits, backoff: nat): map<RunId, Run>
    decreases |list|
  {
    if list == [] then runs else
    var last := list[|list| - 1];
    WatchOne(WatchPass(runs, list[..|list| - 1], clock, now, limits, backoff), last.0, last.1, clock, now, limits, backoff)
  }

  class Table {
    var runs: map<RunId, Run>
    var nextLease: Lease
    var now: Time

    constructor ()
      ensures runs == map[] && nextLease == 0 && now == 0
    {
      runs, nextLease, now := map[], 0, 0;
    }

    // --- agent/src/research_agent/db/repository.py: create ---

    method Create(id: RunId, wallClock: Option<nat>)
      requires id !in runs
      modifies this`runs
      ensures runs == old(runs)[id := NewRun(now, wallClock)]
    {
      runs := runs[id := NewRun(now, wallClock)];
    }

    // --- dispatcher/internal/store/store.go ---

    // SKIP LOCKED: rows another claimer holds are passed over, everything else in age order.
    method Claim(limits: Limits, locked: set<RunId>) returns (claimed: Option<RunId>)
      modifies this
      ensures now == old(now)
      ensures claimed.None? ==> runs == old(runs) && nextLease == old(nextLease)
      ensures claimed.None? <==> forall id | id in old(runs) && id !in locked :: !Claimable(old(runs)[id], now)
      // Claimable is queued and past any backoff.
      ensures claimed.Some? ==>
        claimed.value in old(runs) && var row := old(runs)[claimed.value].row; row.status == Queued && (row.availableAt.Some? ==> row.availableAt.value <= now)
      ensures claimed.None? ==> forall id | id in old(runs) && id !in locked && old(runs)[id].row.status == Queued ::
        old(runs)[id].row.availableAt.Some? && old(runs)[id].row.availableAt.value > now
      ensures claimed.Some? ==>
        && claimed.value in old(runs) && claimed.value !in locked && Claimable(old(runs)[claimed.value], now)
        && (forall id | id in old(runs) && id !in locked && Claimable(old(runs)[id], now) ::
              old(runs)[claimed.value].createdAt <= old(runs)[id].createdAt)
        && runs == old(runs)[claimed.value := Claimed(old(runs)[claimed.value], old(nextLease), limits, now)]
        && nextLease == old(nextLease) + 1
    {
      claimed := None;
      var rest := runs.Keys;
      while rest != {}
        invariant rest <= runs.Keys && runs == old(runs) && nextLease == old(nextLease) && now == old(now)
        invariant claimed.Some? ==> claimed.value in runs && claimed.value !in locked && Claimable(runs[claimed.value], now)
        invariant forall id | id in runs && id !in rest && id !in locked && Claimable(runs[id], now) ::
                    claimed.Some? && runs[claimed.value].createdAt <= runs[id].createdAt
        decreases rest
      {
        var id :| id in rest;
        rest := rest - {id};
        if id !in locked && Claimable(runs[id], now)
           && (claimed.None? || runs[id].createdAt < runs[claimed.value].createdAt) {
          claimed := Some(id);
        }
      }
      if claimed.Some? {
        var run := runs[claimed.value];
        var row := run.row;
        var deadline := row.deadlineAt;
        if deadline.None? {
          var seconds := limits.hardDeadline;
          if run.wallClock.Some? && run.wallClock.value + limits.wallClockMargin > seconds {
            seconds := run.wallClock.value + limits.wallClockMargin;
          }
          deadline := Some(now + seconds);
        }
        row := row.(status := Dispatched, dispatchedAt := Some(now), attempts := row.attempts + 1,
                    lease := Some(nextLease), agent := None, deadlineAt := deadline);
        runs := runs[claimed.value := run.(row := row)];
        nextLease := nextLease + 1;
      }
    }

    method Transition(id: RunId, observed: Row, change: Change) returns (result: SettleResult)
      modifies this`runs
      ensures runs == SettleIn(old(runs), id, observed, change, now)
      ensures result.Forbidden? <==> !CanTransition(observed.status, Target(change))
      ensures result.Committed? <==> id in old(runs) && Settle(old(runs)[id], observed, change, now).Some?
      // Only a deadline failure may overrun a heartbeat.
      ensures result.Committed? <==>
        && id in old(runs) && CanTransition(observed.status, Target(change))
        && old(runs)[id].row.status == observed.status && old(runs)[id].row.lease == observed.lease
        && (change == ToFailed(DeadlineExceeded) || old(runs)[id].row.heartbeatAt == observed.heartbeatAt)
    {
      if !CanTransition(observed.status, Target(change)) {
        return Forbidden;
      }
      if id !in runs || !StillAsObserved(runs[id].row, observed, ChecksHeartbeat(change)) {
        return LostRace;
      }
      var run := runs[id];
      match change {
        case ToQueue(backoff) =>
          run := run.(row := run.row.(
            status := Queued, agent := None, lease := None, heartbeatAt := None, dispatchedAt := None,
            availableAt := Some(now + backoff)));
        case ToFailed(code) =>
          run := run.(row := run.row.(status := Failed, errorCode := Some(code), finishedAt := Some(now)));
        case ToCancelled =>
          run := run.(row := run.row.(status := Cancelled, stopReason := Some("cancelled"), finishedAt := Some(now)));
      }
      if IsTerminal(Target(change)) {
        run := Append(run, Dispatcher, RunFinished);
        run := run.(secrets := {});
      }
      runs := runs[id := run];
      result := Committed;
    }

    method ReturnUnstarted(id: RunId, lease: Lease, backoff: nat) returns (result: SettleResult)
      modifies this`runs
      ensures runs == if id in old(runs) then Put(old(runs), id, GiveBack(old(runs)[id], lease, backoff, now)) else old(runs)
      ensures result.Committed? <==> id in old(runs) && old(runs)[id].row.status == Dispatched && old(runs)[id].row.lease == Some(lease)
      ensures !result.Forbidden?
    {
      if id !in runs || runs[id].row.status != Dispatched || runs[id].row.lease != Some(lease) {
        return LostRace;
      }
      var row := runs[id].row;
      var attempts: nat := if row.attempts - 1 > 0 then row.attempts - 1 else 0;
      runs := runs[id := runs[id].(row := row.(
        status := Queued, dispatchedAt := None, lease := None, attempts := attempts, availableAt := Some(now + backoff)))];
      result := Committed;
    }

    method Emit(id: RunId, kind: EventKind) returns (number: Option<nat>)
      modifies this`runs
      ensures runs == if id in old(runs) then old(runs)[id := Append(old(runs)[id], Dispatcher, kind)] else old(runs)
      ensures number == if id in old(runs) then Some(old(runs)[id].row.eventSeq + 1) else None
      ensures id in old(runs) && Numbered(old(runs)[id]) ==>
        Numbered(runs[id]) && runs[id].log == old(runs)[id].log + [Event(number.value, Dispatcher, kind)]
    {
      if id !in runs {
        return None;
      }
      runs := runs[id := Append(runs[id], Dispatcher, kind)];
      number := Some(runs[id].row.eventSeq);
    }

    method RequestCancel(id: RunId)
      modifies this`runs
      ensures runs == if id in old(runs) then old(runs)[id := AskCancel(old(runs)[id])] else old(runs)
    {
      if id in runs {
        runs := runs[id := runs[id].(row := runs[id].row.(cancelRequested := true))];
      }
    }

    method Watchlist() returns (list: seq<(RunId, Row)>)
      ensures forall id: RunId, row: Row :: (id, row) in list <==> id in runs && Watched(runs[id]) && row == runs[id].row
      ensures forall i, j | 0 <= i < j < |list| :: list[i].0 != list[j].0
      // Runs of the service that somebody works on, or that wait with a deadline.
      ensures forall id | id in runs :: (id, runs[id].row) in list <==>
        && runs[id].row.agent != Some("cli")
        && (runs[id].row.status == Dispatched || runs[id].row.status == Running || (runs[id].row.status == Queued && runs[id].row.deadlineAt.Some?))
    {
      list := [];
      var rest := runs.Keys;
      while rest != {}
        invariant rest <= runs.Keys
        invariant forall id: RunId, row: Row ::
                    (id, row) in list <==> id in runs && id !in rest && Watched(runs[id]) && row == runs[id].row
        invariant forall i | 0 <= i < |list| :: list[i] in list && list[i].0 !in rest
        invariant forall i, j | 0 <= i < j < |list| :: list[i].0 != list[j].0
        decreases rest
      {
        var id :| id in rest;
        rest := rest - {id};
        if Watched(runs[id]) {
          list := list + [(id, runs[id].row)];
        }
      }
    }

    // --- agent/src/research_agent/db/repository.py ---

    method WriteOwned(id: RunId, lease: Lease, write: OwnedWrite) returns (owned: bool)
      modifies this`runs
      ensures runs == if id in old(runs) then Put(old(runs), id, RunRows.WriteOwned(old(runs)[id], lease, write)) else old(runs)
      ensures owned <==> id in old(runs) && Owned(old(runs)[id], lease)
    {
      owned := id in runs && runs[id].row.lease == Some(lease) && runs[id].row.status == Running;
      if owned {
        var row := runs[id].row;
        match write {
          case Beat(at) => row := row.(heartbeatAt := Some(at));
          case Counters(counters) => row := row.(counters := row.counters + counters);
          case Metadata(metadata) => row := row.(metadata := row.metadata + metadata);
        }
        runs := runs[id := runs[id].(row := row)];
      }
    }

    method MarkRunning(id: RunId, lease: Lease, attempt: nat, first: Row, read: Row, agent: string) returns (started: bool)
      modifies this`runs
      ensures runs == if id in old(runs) then Put(old(runs), id, Start(old(runs)[id], lease, attempt, first, read, agent, now)) else old(runs)
      ensures started <==> id in old(runs) && Start(old(runs)[id], lease, attempt, first, read, agent, now).Some?
    {
      started := false;
      if first.attempts != attempt || first.lease != Some(lease) || read.lease != Some(lease) || !CanTransition(read.status, Running) {
        return;
      }
      if id !in runs || runs[id].row.status != read.status || runs[id].row.lease != Some(lease) {
        return;
      }
      var row := runs[id].row;
      row := row.(status := Running, agent := Some(agent), heartbeatAt := Some(now));
      if row.startedAt.None? {
        row := row.(startedAt := Some(now));
      }
      if first.deadlineAt.Some? {
        row := row.(deadlineAt := first.deadlineAt);
      }
      runs := runs[id := runs[id].(row := row)];
      started := true;
    }

    method Finish(id: RunId, bound: Option<Lease>, read: Row, outcome: Outcome) returns (finished: bool)
      modifies this`runs
      ensures runs == if id in old(runs) then Put(old(runs), id, RunRows.Finish(old(runs)[id], bound, read, outcome, now)) else old(runs)
      ensures finished <==> id in old(runs) && MayTransition(old(runs)[id], bound, read, outcome.status)
    {
      finished := false;
      if (bound.Some? && read.lease != bound) || !CanTransition(read.status, outcome.status) {
        return;
      }
      if id !in runs || runs[id].row.status != read.status || (bound.Some? && runs[id].row.lease != bound) {
        return;
      }
      var run := runs[id];
      var ready := "report_md" in outcome.artifacts && outcome.emitFinished;
      var row := run.row.(
        status := outcome.status, counters := run.row.counters + outcome.counters, stopReason := outcome.stopReason,
        errorCode := outcome.errorCode, finishedAt := Some(now));
      if outcome.emitFinished {
        row := row.(eventSeq := row.eventSeq + 1 + if ready then 1 else 0);
      }
      var log := run.log;
      if ready {
        log := log + [Event(row.eventSeq - 1, Agent, ReportReady)];
      }
      if outcome.emitFinished {
        log := log + [Event(row.eventSeq, Agent, RunFinished)];
      }
      assert log == run.log + Closing(run, outcome);
      runs := runs[id := run.(row := row, log := log, secrets := {}, artifacts := run.artifacts + outcome.artifacts)];
      finished := true;
    }

    // --- dispatcher/internal/dispatcher/dispatcher.go ---

    // The list may be arbitrarily old; every action goes through its compare-and-set.
    method WatchOnce(list: seq<(RunId, Row)>, clock: Time, limits: Limits, backoff: nat)
      modifies this`runs
      ensures runs == WatchPass(old(runs), list, clock, now, limits, backoff)
    {
      for i := 0 to |list|
        invariant runs == WatchPass(old(runs), list[..i], clock, now, limits, backoff)
      {
        assert list[..i + 1][..i] == list[..i];
        var decision := Decide(list[i].1, clock, limits);
        match decision {
          case Nothing =>
          case AskAgentToCancel => RequestCancel(list[i].0);
          case Requeue(code) => var _ := Transition(list[i].0, list[i].1, ToQueue(backoff));
          case Fail(code) => var _ := Transition(list[i].0, list[i].1, ToFailed(code));
          case Cancel => var _ := Transition(list[i].0, list[i].1, ToCancelled);
        }
      }
      assert list[..|list|] == list;
    }

    // One watchdog tick leaves no watched run alive past its deadline and grace.
    method Tick(clock: Time, limits: Limits, backoff: nat)
      modifies this`runs
      ensures runs.Keys == old(runs).Keys
      ensures forall id | id in old(runs) && Watched(old(runs)[id]) && PastDeadline(old(runs)[id].row, clock, limits.cancelGrace) ::
                runs[id].row.status == Failed && runs[id].secrets == {}
      ensures forall id | id in old(runs) && !Watched(old(runs)[id]) :: runs[id] == old(runs)[id]
    {
      var list := Watchlist();
      WatchOnce(list, clock, limits, backoff);
      PassKeepsKeys(old(runs), list, clock, now, limits, backoff);
      forall id | id in old(runs) && Watched(old(runs)[id]) && PastDeadline(old(runs)[id].row, clock, limits.cancelGrace)
        ensures runs[id].row.status == Failed && runs[id].secrets == {}
      {
        var i :| 0 <= i < |list| && list[i] == (id, old(runs)[id].row);
        PassFails(old(runs), list, clock, now, limits, backoff, i);
      }
      forall id | id in old(runs) && !Watched(old(runs)[id])
        ensures runs[id] == old(runs)[id]
      {
        PassSkips(old(runs), list, clock, now, limits, backoff, id);
      }
    }
  }

  lemma {:induction false} PassKeepsKeys(runs: map<RunId, Run>, list: seq<(RunId, Row)>, clock: Time, now: Time, limits: Limits, backoff: nat)
    ensures WatchPass(runs, list, clock, now, limits, backoff).Keys == runs.Keys
    decreases |list|
  {
    if list != [] { PassKeepsKeys(runs, list[..|list| - 1], clock, now, limits, backoff); }
  }

  lemma {:induction false} PassSkips(runs: map<RunId, Run>, list: seq<(RunId, Row)>, clock: Time, now: Time, limits: Limits, backoff: nat, id: RunId)
    requires id in runs && forall i | 0 <= i < |list| :: list[i].0 != id
    ensures id in WatchPass(runs, list, clock, now, limits, backoff)
    ensures WatchPass(runs, list, clock, now, limits, backoff)[id] == runs[id]
    decreases |list|
  {
    if list != [] { PassSkips(runs, list[..|list| - 1], clock, now, limits, backoff, id); }
  }

  lemma {:induction false} PassFails(runs: map<RunId, Run>, list: seq<(RunId, Row)>, clock: Time, now: Time, limits: Limits, backoff: nat, i: nat)
    requires i < |list| && forall j, k | 0 <= j < k < |list| :: list[j].0 != list[k].0
    requires list[i].0 in runs && runs[list[i].0].row.status == list[i].1.status && runs[list[i].0].row.lease == list[i].1.lease
    requires !IsTerminal(list[i].1.status) && PastDeadline(list[i].1, clock, limits.cancelGrace)
    ensures var after := WatchPass(runs, list, clock, now, limits, backoff);
      list[i].0 in after && after[list[i].0].row.status == Failed && after[list[i].0].secrets == {}
    decreases |list|
  {
    var rest := list[..|list| - 1];
    if i == |list| - 1 {
      PassSkips(runs, rest, clock, now, limits, backoff, list[i].0);
    } else {
      PassFails(runs, rest, clock, now, limits, backoff, i);
      assert rest[i].0 == list[i].0 != list[|list| - 1].0;
    }
  }
}
