/**
 A dispatcher pass over the replicas, and the replica's side of an offer: the code, proved to be the
 sequence of offers of `Offers`. Requests and answers may be lost, and the other writers of the table
 may do anything between two offers.
 */
module Dispatch {
  import opened Wrappers
  import opened RunStates
  import opened RunRows
  import opened RunsTable
  import opened Offers

  class Replica {
    const agent: string
    const slots: nat
    var draining: bool
    var tasks: map<RunId, Lease>

    ghost predicate Valid()
      reads this
    {
      |tasks| <= slots
    }

    constructor (agent: string, slots: nat)
      ensures Valid() && tasks == map[] && !draining && this.agent == agent && this.slots == slots
    {
      this.agent, this.slots, draining, tasks := agent, slots, false, map[];
    }

    function SlotsFree(): (n: nat)
      requires Valid()
      reads this
      ensures n == 0 <==> draining || |tasks| == slots
    {
      if draining then 0 else slots - |tasks|
    }

    // How it stands to a run when asked about it.
    ghost function Standing(id: RunId): Member
      reads this
    {
      Member(agent, id in tasks, !draining && |tasks| < slots)
    }

    // Under the accept lock: a slot, the row still as offered, then the start.
    method Execute(table: Table, request: Request) returns (answer: Answer)
      requires Valid()
      modifies this`tasks, table`runs
      ensures Valid()
      ensures answer == Answering(old(Standing(request.id)), old(table.runs), request)
      ensures answer.Accepted? ==>
        && request.id !in old(tasks) && tasks == old(tasks)[request.id := request.lease] && request.id in old(table.runs)
        && table.runs == Put(old(table.runs), request.id, Taking(old(table.runs)[request.id], request, agent, table.now))
      ensures !answer.Accepted? ==> tasks == old(tasks) && table.runs == old(table.runs)
    {
      if request.id in tasks {
        return AlreadyExecuting;
      }
      if SlotsFree() == 0 {
        return NoCapacity;
      }
      if request.id !in table.runs {
        return NoSuchRun;
      }
      var row := table.runs[request.id].row;
      TakesIfOfferable(table.runs[request.id], request, agent, table.now);
      var started := table.MarkRunning(request.id, request.lease, request.attempt, row, row, agent);
      if !started {
        return MovedOn;
      }
      tasks := tasks[request.id := request.lease];
      answer := Accepted;
    }
  }

  // --- one offer after the other ---

  // The replicas' tasks are `tasks`.
  ghost predicate Working(replicas: seq<Replica>, tasks: seq<map<RunId, Lease>>)
    reads replicas`tasks
  {
    |tasks| == |replicas| && forall k | 0 <= k < |replicas| :: replicas[k].tasks == tasks[k]
  }

  ghost predicate Distinct(replicas: seq<Replica>) {
    forall i, j | 0 <= i < j < |replicas| :: replicas[i] != replicas[j]
  }

  ghost predicate Fit(replicas: seq<Replica>, tasks: seq<map<RunId, Lease>>) {
    |tasks| == |replicas| && forall k | 0 <= k < |replicas| :: |tasks[k]| <= replicas[k].slots
  }

  ghost predicate Ready(replicas: seq<Replica>)
    reads replicas
  {
    Distinct(replicas) && forall k | 0 <= k < |replicas| :: replicas[k].Valid()
  }

  // How replicas with the tasks `was` stand to the run.
  ghost predicate Stand(replicas: seq<Replica>, was: seq<map<RunId, Lease>>, id: RunId, crew: seq<Member>)
    reads replicas`draining
  {
    && |crew| == |was| == |replicas|
    && forall k | 0 <= k < |replicas| ::
         crew[k] == Member(replicas[k].agent, id in was[k], !replicas[k].draining && |was[k]| < replicas[k].slots)
  }

  // The offers of a pass, one by one: how things stand before each and at the end, and which replicas take the run.
  datatype Course = Course(pass: seq<Pass>, took: seq<bool>)

  ghost predicate Runs(s: Setting, runs: map<RunId, Run>, course: Course) {
    && |course.pass| == |s.crew| + 1 && |course.took| == |s.crew|
    && (forall k: nat {:trigger After(s, runs, k)} | k <= |s.crew| :: course.pass[k] == After(s, runs, k))
    && (forall k: nat {:trigger Takes(s, runs, k)} | k < |s.crew| :: course.took[k] <==> Takes(s, runs, k))
  }

  // The run was added to the tasks of those of the first `n` replicas that took it, and nothing else changed.
  ghost predicate TasksAfter(replicas: seq<Replica>, was: seq<map<RunId, Lease>>, request: Request, took: seq<bool>, n: nat)
    reads replicas`tasks
  {
    && n <= |replicas| == |was| == |took|
    && forall k | 0 <= k < |replicas| :: replicas[k].tasks == if k < n && took[k] then was[k][request.id := request.lease] else was[k]
  }

  method Interfere(table: Table, around: Around, k: nat)
    modifies table`runs
    ensures table.runs == around.others(k, old(table.runs))
  {
    table.runs := around.others(k, table.runs);
  }

  // One turn of the loop: what the dispatcher makes of the answer, if it gets one.
  method TryReplica(table: Table, replica: Replica, k: nat, request: Request, around: Around, ghost s: Setting, ghost runs: map<RunId, Run>)
    returns (belief: Belief)
    requires replica.Valid() && k < |s.crew| && s.crew[k] == replica.Standing(request.id)
    requires s.request == request && s.around == around && s.now == table.now
    requires table.runs == After(s, runs, k).runs && After(s, runs, k).belief == Unheard
    modifies table`runs, replica`tasks
    ensures replica.Valid() && table.runs == After(s, runs, k + 1).runs && belief == After(s, runs, k + 1).belief
    ensures replica.tasks == if Takes(s, runs, k) then old(replica.tasks)[request.id := request.lease] else old(replica.tasks)
  {
    Interfere(table, around, k);
    belief := Unheard;
    if around.network(k).arrives {
      var answer := replica.Execute(table, request);
      if around.network(k).answered {
        belief := Heard(Code(answer));
      }
    }
  }

  method OfferNext(table: Table, ghost replicas: seq<Replica>, replica: Replica, k: nat, request: Request, around: Around,
                   ghost s: Setting, ghost runs: map<RunId, Run>, ghost was: seq<map<RunId, Lease>>, ghost course: Course)
    returns (belief: Belief)
    requires k < |replicas| && replica == replicas[k] && Distinct(replicas) && Fit(replicas, was)
    requires Stand(replicas, was, request.id, s.crew) && Runs(s, runs, course) && TasksAfter(replicas, was, request, course.took, k)
    requires s.request == request && s.around == around && s.now == table.now
    requires table.runs == course.pass[k].runs && course.pass[k].belief == Unheard
    modifies table`runs, replica`tasks
    ensures TasksAfter(replicas, was, request, course.took, k + 1)
    ensures table.runs == course.pass[k + 1].runs && belief == course.pass[k + 1].belief
  {
    assert course.pass[k] == After(s, runs, k) && course.pass[k + 1] == After(s, runs, k + 1) && (course.took[k] <==> Takes(s, runs, k));
    belief := TryReplica(table, replica, k, request, around, s, runs);
    forall j | 0 <= j < |replicas|
      ensures replicas[j].tasks == if j < k + 1 && course.took[j] then was[j][request.id := request.lease] else was[j]
    {
      if j != k { assert replicas[j] != replica; }
    }
  }

  method Offer(table: Table, replicas: seq<Replica>, request: Request, around: Around,
               ghost s: Setting, ghost runs: map<RunId, Run>, ghost was: seq<map<RunId, Lease>>, ghost course: Course)
    returns (belief: Belief)
    requires Ready(replicas) && Working(replicas, was) && Stand(replicas, was, request.id, s.crew) && Runs(s, runs, course)
    requires s.request == request && s.around == around && s.now == table.now && runs == table.runs
    modifies table`runs, replicas`tasks
    ensures Ready(replicas) && TasksAfter(replicas, was, request, course.took, |replicas|)
    ensures table.runs == course.pass[|replicas|].runs && belief == course.pass[|replicas|].belief
  {
    belief := Unheard;
    var k := 0;
    StartsUnheard(s, runs, course);
    while k < |replicas| && belief == Unheard
      invariant k <= |replicas| && TasksAfter(replicas, was, request, course.took, k)
      invariant table.runs == course.pass[k].runs && belief == course.pass[k].belief
    {
      belief := OfferNext(table, replicas, replicas[k], k, request, around, s, runs, was, course);
      k := k + 1;
    }
    Finished(replicas, was, s, runs, course, k);
    StillReady(replicas, was, s, runs, course);
  }

  lemma StartsUnheard(s: Setting, runs: map<RunId, Run>, course: Course)
    requires Runs(s, runs, course)
    ensures course.pass[0] == Pass(runs, Unheard, None)
  {
    assert course.pass[0] == After(s, runs, 0);
  }

  lemma Finished(replicas: seq<Replica>, was: seq<map<RunId, Lease>>, s: Setting, runs: map<RunId, Run>, course: Course, k: nat)
    requires |replicas| == |s.crew| && Runs(s, runs, course) && TasksAfter(replicas, was, s.request, course.took, k)
    requires k < |replicas| ==> course.pass[k].belief != Unheard
    ensures TasksAfter(replicas, was, s.request, course.took, |replicas|) && course.pass[|replicas|] == course.pass[k]
  {
    assert course.pass[k] == After(s, runs, k) && course.pass[|s.crew|] == After(s, runs, |s.crew|);
    if k < |replicas| {
      NobodyAfter(s, runs, k);
      assert forall j: nat | k <= j < |s.crew| :: course.took[j] <==> Takes(s, runs, j);
    }
  }

  // Only a replica with a slot to spare takes a run.
  lemma StillReady(replicas: seq<Replica>, was: seq<map<RunId, Lease>>, s: Setting, runs: map<RunId, Run>, course: Course)
    requires Distinct(replicas) && Fit(replicas, was) && Stand(replicas, was, s.request.id, s.crew) && Runs(s, runs, course)
    requires TasksAfter(replicas, was, s.request, course.took, |replicas|)
    ensures Ready(replicas)
  {
    forall k: nat | k < |replicas| ensures replicas[k].Valid() {
      assert course.took[k] <==> Takes(s, runs, k);
      if course.took[k] { OneMore(was[k], s.request.id, s.request.lease); }
    }
  }

  lemma OneMore(tasks: map<RunId, Lease>, id: RunId, lease: Lease)
    requires id !in tasks
    ensures |tasks[id := lease]| == |tasks| + 1
  {
    assert tasks[id := lease].Keys == tasks.Keys + {id};
    assert |tasks[id := lease]| == |tasks[id := lease].Keys|;
  }

  lemma NobodyAfter(s: Setting, runs: map<RunId, Run>, k: nat)
    requires k <= |s.crew| && After(s, runs, k).belief != Unheard
    ensures After(s, runs, |s.crew|) == After(s, runs, k)
    ensures forall j | k <= j < |s.crew| :: !Takes(s, runs, j)
  {
    Stopped(s, runs, k, |s.crew|);
    forall j | k <= j < |s.crew| ensures !Takes(s, runs, j) { Stopped(s, runs, k, j); }
  }

  // --- the pass ---

  method ActiveCount(table: Table) returns (n: nat)
    ensures n == |ActiveRuns(table.runs)|
  {
    n := 0;
    var rest := table.runs.Keys;
    ghost var counted: set<RunId> := {};
    while rest != {}
      invariant rest <= table.runs.Keys && n == |counted|
      invariant forall id :: id in counted <==> id in ActiveRuns(table.runs) && id !in rest
    {
      var id :| id in rest;
      rest := rest - {id};
      if Active(table.runs[id]) {
        n := n + 1;
        counted := counted + {id};
      }
    }
    assert counted == ActiveRuns(table.runs);
  }

  // Success is reported, an "already running" is not, and with neither the run is given back.
  method Conclude(table: Table, request: Request, around: Around, n: nat, belief: Belief, backoff: nat, ghost s: Setting, ghost p: Pass)
    requires s.request == request && s.around == around && |s.crew| == n && s.now == table.now
    requires table.runs == p.runs && belief == p.belief
    modifies table`runs
    ensures table.runs == Concluded(s, p, backoff)
  {
    if belief == Taken {
      var _ := table.Emit(request.id, RunDispatched);
    }
    if belief == Unheard {
      Interfere(table, around, n);
      var _ := table.ReturnUnstarted(request.id, request.lease, backoff);
      var _ := table.Emit(request.id, Problem);
    }
  }

  ghost function Tasks(replicas: seq<Replica>): (was: seq<map<RunId, Lease>>)
    reads replicas
    ensures Working(replicas, was)
  {
    seq(|replicas|, k requires 0 <= k < |replicas| reads replicas => replicas[k].tasks)
  }

  ghost function Crew(replicas: seq<Replica>, was: seq<map<RunId, Lease>>, id: RunId): (crew: seq<Member>)
    requires |was| == |replicas|
    reads replicas
    ensures Stand(replicas, was, id, crew)
  {
    seq(|replicas|, k requires 0 <= k < |replicas| reads replicas =>
      Member(replicas[k].agent, id in was[k], !replicas[k].draining && |was[k]| < replicas[k].slots))
  }

  ghost function CourseOf(s: Setting, runs: map<RunId, Run>): (course: Course)
    ensures Runs(s, runs, course)
  {
    Course(seq(|s.crew| + 1, k requires 0 <= k <= |s.crew| => After(s, runs, k)),
           seq(|s.crew|, k requires 0 <= k < |s.crew| => Takes(s, runs, k)))
  }

  // Everything after the claim.
  method HandOver(table: Table, limits: Limits, replicas: seq<Replica>, id: RunId, lease: Lease, around: Around, backoff: nat,
                  ghost before: Run, ghost was: seq<map<RunId, Lease>>)
    returns (dispatched: bool, ghost s: Setting, ghost course: Course)
    requires Ready(replicas) && Working(replicas, was) && id in table.runs && table.runs[id] == Claimed(before, lease, limits, table.now)
    modifies table`runs, replicas`tasks
    ensures Ready(replicas) && s == Setting(Request(id, lease, before.row.attempts + 1), s.crew, around, table.now)
    ensures old(Stand(replicas, was, id, s.crew)) && TasksAfter(replicas, was, s.request, course.took, |replicas|)
    ensures Runs(s, old(table.runs)[id := Announced(before, lease, limits, table.now)], course)
    ensures table.runs == Concluded(s, course.pass[|replicas|], backoff) && (dispatched <==> course.pass[|replicas|].belief != Unheard)
  {
    var _ := table.Emit(id, RunClaimed);
    var request := Request(id, lease, table.runs[id].row.attempts);
    s := Setting(request, Crew(replicas, was, id), around, table.now);
    course := CourseOf(s, table.runs);
    var belief := Offer(table, replicas, request, around, s, table.runs, was, course);
    Conclude(table, request, around, |replicas|, belief, backoff, s, course.pass[|replicas|]);
    dispatched := belief != Unheard;
  }

  // Hands at most one run to a replica. The ghost results describe the pass: the replicas' tasks before
  // it, how they stood to the run that was claimed, and the offers.
  method DispatchOnce(table: Table, limits: Limits, replicas: seq<Replica>, around: Around, locked: set<RunId>, backoff: nat)
    returns (dispatched: bool, claimed: Option<RunId>, ghost s: Setting, ghost was: seq<map<RunId, Lease>>, ghost course: Course)
    requires Ready(replicas)
    modifies table, replicas`tasks
    ensures Ready(replicas) && table.now == old(table.now) && old(Working(replicas, was))
    ensures claimed.None? ==>
      table.runs == old(table.runs) && table.nextLease == old(table.nextLease) && !dispatched && Working(replicas, was)
    ensures claimed.None? <==>
      || |ActiveRuns(old(table.runs))| >= limits.maxConcurrent || replicas == []
      || forall id | id in old(table.runs) && id !in locked :: !Claimable(old(table.runs)[id], table.now)
    ensures claimed.Some? ==>
      && claimed.value in old(table.runs) && Claimable(old(table.runs)[claimed.value], table.now) && table.nextLease == old(table.nextLease) + 1
      && s == Setting(Request(claimed.value, old(table.nextLease), old(table.runs)[claimed.value].row.attempts + 1), s.crew, around, table.now)
      && old(Stand(replicas, was, claimed.value, s.crew))
      && Runs(s, old(table.runs)[claimed.value := Announced(old(table.runs)[claimed.value], old(table.nextLease), limits, table.now)], course)
      && TasksAfter(replicas, was, s.request, course.took, |replicas|)
      && table.runs == Concluded(s, course.pass[|replicas|], backoff)
      && (dispatched <==> course.pass[|replicas|].belief != Unheard)
    ensures claimed.Some? ==> QuietlyHandled(s, old(table.runs), table.runs, course, limits, backoff)
  {
    dispatched, claimed, was := false, None, Tasks(replicas);
    s, course := Setting(Request(0, 0, 0), [], around, 0), Course([], []);
    var active := ActiveCount(table);
    if active >= limits.maxConcurrent || replicas == [] {
      return;
    }
    ghost var before := table.runs;
    var lease := table.nextLease;
    claimed := table.Claim(limits, locked);
    if claimed.Some? {
      dispatched, s, course := HandOver(table, limits, replicas, claimed.value, lease, around, backoff, before[claimed.value], was);
      Reclaimed(before, claimed.value, Claimed(before[claimed.value], lease, limits, table.now), Announced(before[claimed.value], lease, limits, table.now));
      QuietPass(s, before, course, limits, backoff);
    }
  }

  // If nobody else writes, only this run changes, and it ends as `Handled` says.
  ghost predicate QuietlyHandled(s: Setting, all: map<RunId, Run>, after: map<RunId, Run>, course: Course, limits: Limits, backoff: nat) {
    var id := s.request.id;
    id in all && |course.pass| == |s.crew| + 1
    && (Quiet(s, all[id := Announced(all[id], s.request.lease, limits, s.now)]) ==>
          var p := course.pass[|s.crew|];
          && id in after && after == all[id := after[id]]
          && Handled(all[id], after[id], s.request.lease, AgentOf(s, p.starter), p.belief, limits, s.now, backoff))
  }

  lemma QuietPass(s: Setting, all: map<RunId, Run>, course: Course, limits: Limits, backoff: nat)
    requires var id := s.request.id;
      && id in all && all[id].row.status == Queued && s.request.attempt == all[id].row.attempts + 1
      && Runs(s, all[id := Announced(all[id], s.request.lease, limits, s.now)], course)
    ensures QuietlyHandled(s, all, Concluded(s, course.pass[|s.crew|], backoff), course, limits, backoff)
  {
    var runs := all[s.request.id := Announced(all[s.request.id], s.request.lease, limits, s.now)];
    assert course.pass[|s.crew|] == After(s, runs, |s.crew|);
    if Quiet(s, runs) { QuietPassHandles(s, all, all[s.request.id], limits, backoff); }
  }

  lemma Reclaimed(before: map<RunId, Run>, id: RunId, claimed: Run, announced: Run)
    ensures before[id := claimed][id := announced] == before[id := announced]
  {
  }
}
