/**
 The offers of one claimed run to the replicas, one after the other, while anybody else may write the
 table in between. A replica answers 409 both for a run it is executing and for one whose row has moved
 on, and the dispatcher reads either as "taken": exactly when that is right is the subject here.
 */
module Offers {
  import opened Wrappers
  import opened RunStates
  import opened RunRows
  import opened RunsTable

  // Whether the request reaches the replica, and whether its answer comes back.
  datatype Delivery = Delivery(arrives: bool, answered: bool)

  // How a replica stands to the run when it is asked: already executing it; with a slot to spare.
  datatype Member = Member(agent: string, busy: bool, free: bool)

  datatype Request = Request(id: RunId, lease: Lease, attempt: nat)

  // What the other writers have made of the table by the kth offer; by the last number, before the run is given back.
  type Others = (nat, map<RunId, Run>) -> map<RunId, Run>

  datatype Around = Around(network: nat -> Delivery, others: Others)

  // --- one offer ---

  datatype Answer = Accepted | AlreadyExecuting | MovedOn | NoCapacity | NoSuchRun

  // The status code of the answer, and what the dispatcher makes of it.
  function Code(answer: Answer): nat {
    match answer
    case Accepted => 202
    case AlreadyExecuting => 409
    case MovedOn => 409
    case NoCapacity => 503
    case NoSuchRun => 404
  }

  datatype Belief = Unheard | Taken | AlreadyRunning

  function Heard(code: nat): Belief {
    if code == 202 then Taken else if code == 409 then AlreadyRunning else Unheard
  }

  predicate Offerable(row: Row, request: Request) {
    row.status == Dispatched && row.lease == Some(request.lease) && row.attempts == request.attempt
  }

  function Answering(member: Member, found: map<RunId, Run>, request: Request): Answer {
    if member.busy then AlreadyExecuting
    else if !member.free then NoCapacity
    else if request.id !in found then NoSuchRun
    else if Offerable(found[request.id].row, request) then Accepted
    else MovedOn
  }

  // The row a replica leaves when it takes the run.
  function Taking(run: Run, request: Request, agent: string, now: Time): Option<Run> {
    Start(run, request.lease, request.attempt, run.row, run.row, agent, now)
  }

  lemma TakesIfOfferable(run: Run, request: Request, agent: string, now: Time)
    ensures Taking(run, request, agent, now).Some? <==> Offerable(run.row, request)
    ensures Offerable(run.row, request) ==>
      var started := Taking(run, request, agent, now).value;
      && started.row.status == Running && started.row.agent == Some(agent) && started.row.lease == run.row.lease
      && started.row.attempts == run.row.attempts && started.log == run.log
  {
  }

  // --- all offers ---

  datatype Pass = Pass(runs: map<RunId, Run>, belief: Belief, starter: Option<nat>)

  datatype Setting = Setting(request: Request, crew: seq<Member>, around: Around, now: Time)

  function Step(s: Setting, k: nat, found: map<RunId, Run>, starter: Option<nat>): Pass
    requires k < |s.crew|
  {
    var delivery := s.around.network(k);
    var answer := Answering(s.crew[k], found, s.request);
    if !delivery.arrives then Pass(found, Unheard, starter)
    else
      Pass(if answer.Accepted? then Put(found, s.request.id, Taking(found[s.request.id], s.request, s.crew[k].agent, s.now)) else found,
           if delivery.answered then Heard(Code(answer)) else Unheard,
           if answer.Accepted? then Some(k) else starter)
  }

  // After `k` offers; none is made once the dispatcher believes the run taken.
  function After(s: Setting, runs: map<RunId, Run>, k: nat): Pass
    requires k <= |s.crew|
  {
    if k == 0 then Pass(runs, Unheard, None)
    else
      var p := After(s, runs, k - 1);
      if p.belief != Unheard then p else Step(s, k - 1, s.around.others(k - 1, p.runs), p.starter)
  }

  // The table as the kth offer finds it.
  function Found(s: Setting, runs: map<RunId, Run>, k: nat): map<RunId, Run>
    requires k <= |s.crew|
  {
    s.around.others(k, After(s, runs, k).runs)
  }

  // The kth replica is asked and takes the run.
  ghost predicate Takes(s: Setting, runs: map<RunId, Run>, k: nat)
    requires k < |s.crew|
  {
    After(s, runs, k).belief == Unheard && s.around.network(k).arrives && Answering(s.crew[k], Found(s, runs, k), s.request) == Accepted
  }

  lemma {:induction false} Stopped(s: Setting, runs: map<RunId, Run>, k: nat, n: nat)
    requires k <= n <= |s.crew| && After(s, runs, k).belief != Unheard
    ensures After(s, runs, n) == After(s, runs, k)
  {
    if k < n { Stopped(s, runs, k, n - 1); }
  }

  // --- what decides ---

  // What the others alone have made of the table by the kth offer.
  function Alone(s: Setting, runs: map<RunId, Run>, k: nat): map<RunId, Run> {
    s.around.others(k, if k == 0 then runs else Alone(s, runs, k - 1))
  }

  // The request reaches a replica with a slot while the row is still as it was claimed.
  ghost predicate WouldTake(s: Setting, runs: map<RunId, Run>, k: nat)
    requires k < |s.crew|
  {
    s.around.network(k).arrives && Answering(s.crew[k], Alone(s, runs, k), s.request) == Accepted
  }

  // A replica is heard to say 409: it executes the run already, or has a slot but finds the row moved.
  ghost predicate WouldRefuse(s: Setting, runs: map<RunId, Run>, k: nat)
    requires k < |s.crew|
  {
    && s.around.network(k).arrives && s.around.network(k).answered
    && Answering(s.crew[k], Alone(s, runs, k), s.request) in {AlreadyExecuting, MovedOn}
  }

  ghost predicate Decides(s: Setting, runs: map<RunId, Run>, k: nat)
    requires k < |s.crew|
  {
    WouldTake(s, runs, k) || WouldRefuse(s, runs, k)
  }

  ghost predicate FirstToDecide(s: Setting, runs: map<RunId, Run>, k: nat) {
    k < |s.crew| && Decides(s, runs, k) && forall j | 0 <= j < k :: !Decides(s, runs, j)
  }

  // Until somebody decides, only the others write.
  lemma {:induction false} Undecided(s: Setting, runs: map<RunId, Run>, k: nat)
    requires k <= |s.crew| && forall j | 0 <= j < k :: !Decides(s, runs, j)
    ensures After(s, runs, k) == Pass(if k == 0 then runs else Alone(s, runs, k - 1), Unheard, None)
    ensures Found(s, runs, k) == Alone(s, runs, k)
  {
    if k > 0 {
      Undecided(s, runs, k - 1);
      assert !Decides(s, runs, k - 1);
    }
  }

  // The one who decides first takes the run, or ends the offers with nobody having it.
  lemma FirstDecides(s: Setting, runs: map<RunId, Run>, k: nat)
    requires FirstToDecide(s, runs, k)
    ensures Takes(s, runs, k) <==> WouldTake(s, runs, k)
    ensures WouldTake(s, runs, k) ==>
      After(s, runs, k + 1).starter == Some(k) && (After(s, runs, k + 1).belief == if s.around.network(k).answered then Taken else Unheard)
    ensures !WouldTake(s, runs, k) ==>
      After(s, runs, k + 1) == Pass(Alone(s, runs, k), AlreadyRunning, None) == After(s, runs, |s.crew|)
  {
    Undecided(s, runs, k);
    if !WouldTake(s, runs, k) { Stopped(s, runs, k + 1, |s.crew|); }
  }

  lemma {:induction false} SomebodyIsFirst(s: Setting, runs: map<RunId, Run>, k: nat) returns (first: nat)
    requires k < |s.crew| && Decides(s, runs, k)
    ensures FirstToDecide(s, runs, first)
    decreases k
  {
    if j: nat :| j < k && Decides(s, runs, j) {
      first := SomebodyIsFirst(s, runs, j);
    } else {
      first := k;
    }
  }

  lemma {:induction false} StarterStays(s: Setting, runs: map<RunId, Run>, k: nat, n: nat)
    requires k <= n <= |s.crew| && After(s, runs, k).starter.Some?
    ensures After(s, runs, n).starter.Some?
  {
    if k < n { StarterStays(s, runs, k, n - 1); }
  }

  // The dispatcher believes the run taken though no replica took it when asked exactly when the first to decide is
  // a replica that refuses: one still executing the run, under an earlier attempt, or one with a slot
  // that finds the row moved by somebody else.
  lemma MisledIff(s: Setting, runs: map<RunId, Run>)
    ensures After(s, runs, |s.crew|).belief != Unheard && After(s, runs, |s.crew|).starter.None? <==>
      exists k: nat :: FirstToDecide(s, runs, k) && !WouldTake(s, runs, k)
  {
    if k: nat :| k < |s.crew| && Decides(s, runs, k) {
      var first := SomebodyIsFirst(s, runs, k);
      FirstDecides(s, runs, first);
      if WouldTake(s, runs, first) { StarterStays(s, runs, first + 1, |s.crew|); }
      forall j: nat | FirstToDecide(s, runs, j) ensures j == first {}
    } else {
      Undecided(s, runs, |s.crew|);
    }
  }

  // --- when a start is noticed ---

  // Dispatched under the lease.
  predicate Held(row: Row, lease: Lease) {
    row.status == Dispatched && row.lease == Some(lease)
  }

  // The others neither delete the run nor dispatch it again under the lease.
  ghost predicate Yields(before: map<RunId, Run>, after: map<RunId, Run>, request: Request) {
    request.id in before ==>
      request.id in after && (Held(after[request.id].row, request.lease) ==> Held(before[request.id].row, request.lease))
  }

  ghost predicate Fair(s: Setting, runs: map<RunId, Run>) {
    && s.request.id in runs
    && forall k: nat | k <= |s.crew| :: Yields(After(s, runs, k).runs, Found(s, runs, k), s.request)
  }

  // It executes the run or has a slot, so its answer, if heard, is "taken" whatever the row says.
  ghost predicate SaysTaken(s: Setting, k: nat)
    requires k < |s.crew|
  {
    s.around.network(k).arrives && s.around.network(k).answered && (s.crew[k].busy || s.crew[k].free)
  }

  ghost predicate SaidTakenAfter(s: Setting, k: nat, n: nat)
    requires n <= |s.crew|
  {
    exists j | k < j < n :: SaysTaken(s, j)
  }

  lemma {:induction false} RunStaysIn(s: Setting, runs: map<RunId, Run>, k: nat)
    requires Fair(s, runs) && k <= |s.crew|
    ensures s.request.id in After(s, runs, k).runs && s.request.id in Found(s, runs, k)
  {
    if k > 0 { RunStaysIn(s, runs, k - 1); }
    assert Yields(After(s, runs, k).runs, Found(s, runs, k), s.request);
  }

  // Once taken the run is not taken again, and the answers that count are "taken".
  lemma {:induction false} AfterTheStart(s: Setting, runs: map<RunId, Run>, k: nat, n: nat)
    requires Fair(s, runs) && FirstToDecide(s, runs, k) && WouldTake(s, runs, k) && k < n <= |s.crew|
    ensures var p := After(s, runs, n);
      && p.starter == Some(k) && s.request.id in p.runs
      && (p.belief == Taken <==> s.around.network(k).answered)
      && (p.belief == Unheard <==> !s.around.network(k).answered && !SaidTakenAfter(s, k, n))
      && !Held(p.runs[s.request.id].row, s.request.lease)
    ensures forall j | k < j < n :: !Takes(s, runs, j)
  {
    RunStaysIn(s, runs, n);
    if n == k + 1 {
      Undecided(s, runs, k);
      FirstDecides(s, runs, k);
      TakesIfOfferable(Found(s, runs, k)[s.request.id], s.request, s.crew[k].agent, s.now);
    } else {
      AfterTheStart(s, runs, k, n - 1);
      RunStaysIn(s, runs, n - 1);
      assert Yields(After(s, runs, n - 1).runs, Found(s, runs, n - 1), s.request);
      assert SaidTakenAfter(s, k, n) <==> SaidTakenAfter(s, k, n - 1) || SaysTaken(s, n - 1);
    }
  }

  // A replica takes the run exactly when it decides first and finds the row as claimed; the start goes
  // unnoticed exactly when from that replica on nobody who executes the run or has a slot is heard.
  lemma StarterIff(s: Setting, runs: map<RunId, Run>, k: nat)
    requires Fair(s, runs) && k < |s.crew|
    ensures var p := After(s, runs, |s.crew|);
      && (p.starter == Some(k) <==> FirstToDecide(s, runs, k) && WouldTake(s, runs, k))
      && (p.starter == Some(k) <==> Takes(s, runs, k))
      && (p.starter == Some(k) ==> (p.belief == Unheard <==> !s.around.network(k).answered && !SaidTakenAfter(s, k, |s.crew|)))
      && (p.starter == Some(k) ==> (p.belief == Taken <==> s.around.network(k).answered))
  {
    if j: nat :| j < |s.crew| && Decides(s, runs, j) {
      var first := SomebodyIsFirst(s, runs, j);
      OnlyTheFirst(s, runs, first, k);
    } else {
      Undecided(s, runs, |s.crew|);
      Undecided(s, runs, k);
      assert !Decides(s, runs, k);
    }
  }

  lemma OnlyTheFirst(s: Setting, runs: map<RunId, Run>, first: nat, k: nat)
    requires Fair(s, runs) && FirstToDecide(s, runs, first) && k < |s.crew|
    ensures FirstToDecide(s, runs, k) ==> k == first
    ensures Takes(s, runs, k) <==> k == first && WouldTake(s, runs, first)
    ensures var p := After(s, runs, |s.crew|);
      if WouldTake(s, runs, first) then
        && p.starter == Some(first) && (p.belief == Taken <==> s.around.network(first).answered)
        && (p.belief == Unheard <==> !s.around.network(first).answered && !SaidTakenAfter(s, first, |s.crew|))
      else p.starter.None?
  {
    FirstDecides(s, runs, first);
    if WouldTake(s, runs, first) { AfterTheStart(s, runs, first, |s.crew|); }
    if k < first {
      Undecided(s, runs, k);
      assert !Decides(s, runs, k);
    } else if k > first && !WouldTake(s, runs, first) {
      Stopped(s, runs, first + 1, k);
    }
  }

  // --- what becomes of the run ---

  // Given back if still dispatched under the lease; the problem is reported either way.
  function Problematic(run: Run, lease: Lease, backoff: nat, now: Time): Run {
    Append(GiveBack(run, lease, backoff, now).GetOr(run), Dispatcher, Problem)
  }

  function Concluded(s: Setting, p: Pass, backoff: nat): map<RunId, Run> {
    var id := s.request.id;
    match p.belief
    case Taken => if id in p.runs then p.runs[id := Append(p.runs[id], Dispatcher, RunDispatched)] else p.runs
    case AlreadyRunning => p.runs
    case Unheard =>
      var found := s.around.others(|s.crew|, p.runs);
      if id in found then found[id := Problematic(found[id], s.request.lease, backoff, s.now)] else found
  }

  // A run that was taken is never given back, even if every answer was lost.
  lemma NeverGivenBack(s: Setting, runs: map<RunId, Run>, backoff: nat)
    requires Fair(s, runs) && After(s, runs, |s.crew|).starter.Some? && After(s, runs, |s.crew|).belief == Unheard
    ensures var found := Found(s, runs, |s.crew|);
      && s.request.id in found
      && Concluded(s, After(s, runs, |s.crew|), backoff) == found[s.request.id := Append(found[s.request.id], Dispatcher, Problem)]
  {
    var n := |s.crew|;
    RunStaysIn(s, runs, n);
    if k: nat :| k < n && Decides(s, runs, k) {
      var first := SomebodyIsFirst(s, runs, k);
      FirstDecides(s, runs, first);
      AfterTheStart(s, runs, first, n);
      assert Yields(After(s, runs, n).runs, Found(s, runs, n), s.request);
    } else {
      Undecided(s, runs, n);
    }
  }

  // --- a pass in which nobody else writes ---

  ghost predicate Quiet(s: Setting, runs: map<RunId, Run>) {
    forall k: nat | k <= |s.crew| :: Found(s, runs, k) == After(s, runs, k).runs
  }

  ghost function AgentOf(s: Setting, starter: Option<nat>): Option<string> {
    if starter.Some? && starter.value < |s.crew| then Some(s.crew[starter.value].agent) else None
  }

  // Then the table is as before but for the start, if there was one.
  lemma {:induction false} QuietRuns(s: Setting, runs: map<RunId, Run>, k: nat)
    requires Quiet(s, runs) && k <= |s.crew| && s.request.id in runs && Offerable(runs[s.request.id].row, s.request)
    ensures var p := After(s, runs, k);
      && (p.starter.Some? ==> p.starter.value < k)
      && (p.starter.None? ==> p.runs == runs)
      && (p.starter.Some? ==>
            p.runs == Put(runs, s.request.id, Taking(runs[s.request.id], s.request, s.crew[p.starter.value].agent, s.now)))
  {
    if k > 0 {
      var p := After(s, runs, k - 1);
      QuietRuns(s, runs, k - 1);
      assert Found(s, runs, k - 1) == p.runs;
      if p.starter.Some? { TakesIfOfferable(runs[s.request.id], s.request, s.crew[p.starter.value].agent, s.now); }
    }
  }

  // A run given back is as it was, but for its log, its first deadline and when it may be claimed again.
  ghost predicate GivenBack(before: Run, after: Run, limits: Limits, now: Time, backoff: nat) {
    && after.row == before.row.(
         lease := None, dispatchedAt := None, agent := None, availableAt := Some(now + backoff), eventSeq := after.row.eventSeq,
         deadlineAt := Some(before.row.deadlineAt.GetOr(FirstDeadline(before, limits, now))))
    && before.log <= after.log && after.secrets == before.secrets
  }

  // A claimed run as it is offered.
  function Announced(before: Run, lease: Lease, limits: Limits, now: Time): Run {
    Append(Claimed(before, lease, limits, now), Dispatcher, RunClaimed)
  }

  lemma ReturnedIsGivenBack(before: Run, lease: Lease, limits: Limits, now: Time, backoff: nat)
    requires before.row.status == Queued
    ensures GivenBack(before, Problematic(Announced(before, lease, limits, now), lease, backoff, now), limits, now, backoff)
  {
  }

  // The dispatcher's own events: the claim, then success, a problem, or nothing.
  function Reported(before: Run, belief: Belief): seq<Event> {
    var n := before.row.eventSeq;
    [Event(n + 1, Dispatcher, RunClaimed)]
    + match belief
      case Taken => [Event(n + 2, Dispatcher, RunDispatched)]
      case AlreadyRunning => []
      case Unheard => [Event(n + 2, Dispatcher, Problem)]
  }

  // How a claimed run ends up: running where it was taken; dispatched, for the watchdog, if a replica
  // still busy with an earlier attempt was believed; otherwise given back, the attempt uncounted.
  ghost predicate Handled(before: Run, after: Run, lease: Lease, agent: Option<string>, belief: Belief, limits: Limits, now: Time, backoff: nat) {
    && after.log == before.log + Reported(before, belief)
    && if agent.Some? then
         after.row.status == Running && after.row.lease == Some(lease) && after.row.agent == agent && after.row.attempts == before.row.attempts + 1
       else if belief != Unheard then
         after.row.status == Dispatched && after.row.lease == Some(lease) && after.row.attempts == before.row.attempts + 1
       else
         GivenBack(before, after, limits, now, backoff)
  }

  lemma QuietPassHandles(s: Setting, all: map<RunId, Run>, before: Run, limits: Limits, backoff: nat)
    requires before.row.status == Queued && s.request.attempt == before.row.attempts + 1
    requires var runs := all[s.request.id := Announced(before, s.request.lease, limits, s.now)]; Quiet(s, runs)
    ensures var id := s.request.id;
      var p := After(s, all[id := Announced(before, s.request.lease, limits, s.now)], |s.crew|);
      var after := Concluded(s, p, backoff);
      && id in after && after == all[id := after[id]]
      && Handled(before, after[id], s.request.lease, AgentOf(s, p.starter), p.belief, limits, s.now, backoff)
  {
    var id, n := s.request.id, |s.crew|;
    var claimed := Announced(before, s.request.lease, limits, s.now);
    var runs := all[id := claimed];
    var p := After(s, runs, n);
    QuietRuns(s, runs, n);
    assert Found(s, runs, n) == p.runs;
    if p.belief == Taken { NobodyTaken(s, runs, n); }
    QuietEnd(s, all, before, p, limits, backoff);
  }

  lemma QuietEnd(s: Setting, all: map<RunId, Run>, before: Run, p: Pass, limits: Limits, backoff: nat)
    requires before.row.status == Queued && s.request.attempt == before.row.attempts + 1
    requires s.around.others(|s.crew|, p.runs) == p.runs && (p.belief == Taken ==> p.starter.Some?) && (p.starter.Some? ==> p.starter.value < |s.crew|)
    requires var claimed := Announced(before, s.request.lease, limits, s.now); var runs := all[s.request.id := claimed];
      && (p.starter.None? ==> p.runs == runs)
      && (p.starter.Some? ==> p.runs == Put(runs, s.request.id, Taking(claimed, s.request, s.crew[p.starter.value].agent, s.now)))
    ensures var id := s.request.id; var after := Concluded(s, p, backoff);
      && id in after && after == all[id := after[id]]
      && Handled(before, after[id], s.request.lease, AgentOf(s, p.starter), p.belief, limits, s.now, backoff)
  {
    var claimed := Announced(before, s.request.lease, limits, s.now);
    if p.starter.Some? {
      TakesIfOfferable(claimed, s.request, s.crew[p.starter.value].agent, s.now);
      assert Offerable(claimed.row, s.request);
    } else if p.belief == Unheard {
      ReturnedIsGivenBack(before, s.request.lease, limits, s.now, backoff);
    }
  }

  lemma {:induction false} NobodyTaken(s: Setting, runs: map<RunId, Run>, k: nat)
    requires k <= |s.crew| && After(s, runs, k).belief == Taken
    ensures After(s, runs, k).starter.Some?
  {
    if k > 0 && After(s, runs, k - 1).belief != Unheard { NobodyTaken(s, runs, k - 1); }
  }
}
