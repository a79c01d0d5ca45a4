/** The live event stream: status first, then events, while other transactions keep committing. */
module EventStream {
  import opened Wrappers
  import opened RunStates
  import opened RunRows
  import opened Lifecycle
  import opened LifecycleSafety
  import opened LifecycleTheorems

  const BATCH: nat := 200

  // What one read statement can see of a run: the state committed when it executes.
  datatype View = View(status: Option<Status>, log: seq<Event>)

  datatype Frame = EventFrame(event: Event) | RunClosed(status: Status) | NotFound | KeepAlive

  ghost predicate Gapless(log: seq<Event>) {
    forall k | 0 <= k < |log| :: log[k].number == k + 1
  }

  ghost predicate Later(view: View, after: View) {
    && view.log <= after.log
    && (view.status.Some? ==> after.status.Some?)
    && (view.status.Some? && IsTerminal(view.status.value) ==> after.status == view.status)
  }

  // Successive reads of one session, each at some later point of the history.
  ghost predicate Reads(views: seq<View>) {
    && (forall i | 0 <= i < |views| :: Gapless(views[i].log))
    && (forall i, j | 0 <= i < j < |views| :: Later(views[i], views[j]))
  }

  ghost function ViewOf(w: World, id: RunId): View {
    if id in w.runs then View(Some(w.runs[id].row.status), w.runs[id].log) else View(None, [])
  }

  // Two reads of a run, however many protocol steps apart.
  lemma TwoReads(w: World, actions: seq<Action>, limits: Limits, id: RunId)
    requires Inv(w, limits) && limits.maxAttempts >= 1
    ensures var now, after := ViewOf(w, id), ViewOf(Exec(w, actions, limits), id);
      Gapless(now.log) && Later(now, after)
  {
    if id in w.runs {
      LogGrows(w, actions, limits, id);
      if IsTerminal(w.runs[id].row.status) { TerminalIsAbsorbing(w, actions, limits, id); }
    }
  }

  // Points of a history, in order.
  ghost predicate InOrder(points: seq<nat>, n: nat) {
    (forall i | 0 <= i < |points| :: points[i] <= n) && forall i, j | 0 <= i < j < |points| :: points[i] <= points[j]
  }

  ghost function ViewAt(dispatchers: nat, actions: seq<Action>, limits: Limits, id: RunId, point: nat): View
    requires point <= |actions|
  {
    ViewOf(Exec(Start0(dispatchers), actions[..point], limits), id)
  }

  // `views` are what a session sees of run `id` at those points.
  ghost predicate SeenAt(views: seq<View>, dispatchers: nat, actions: seq<Action>, limits: Limits, id: RunId, points: seq<nat>) {
    InOrder(points, |actions|) && |views| == |points|
    && forall i | 0 <= i < |views| :: points[i] <= |actions| && views[i] == ViewAt(dispatchers, actions, limits, id, points[i])
  }

  lemma LaterInHistory(dispatchers: nat, actions: seq<Action>, limits: Limits, id: RunId, p: nat, q: nat)
    requires limits.maxAttempts >= 1 && p <= q <= |actions|
    ensures Gapless(ViewAt(dispatchers, actions, limits, id, p).log)
    ensures Later(ViewAt(dispatchers, actions, limits, id, p), ViewAt(dispatchers, actions, limits, id, q))
  {
    var w := Exec(Start0(dispatchers), actions[..p], limits);
    Initially(dispatchers, limits);
    ExecKeeps(Start0(dispatchers), actions[..p], limits);
    ExecSplits(Start0(dispatchers), actions[..p], actions[p..q], limits);
    assert actions[..p] + actions[p..q] == actions[..q];
    TwoReads(w, actions[p..q], limits, id);
  }

  // Whatever everybody else does, reads at any points of a history are such reads.
  lemma ProtocolReads(views: seq<View>, dispatchers: nat, actions: seq<Action>, limits: Limits, id: RunId, points: seq<nat>)
    requires limits.maxAttempts >= 1 && SeenAt(views, dispatchers, actions, limits, id, points)
    ensures Reads(views)
  {
    forall i | 0 <= i < |views| ensures Gapless(views[i].log) {
      LaterInHistory(dispatchers, actions, limits, id, points[i], points[i]);
    }
    forall i, j | 0 <= i < j < |views| ensures Later(views[i], views[j]) {
      LaterInHistory(dispatchers, actions, limits, id, points[i], points[j]);
    }
  }

  // WHERE seq > after ORDER BY seq LIMIT 200
  function Fetch(log: seq<Event>, after: nat, limit: nat): seq<Event> {
    if log == [] || limit == 0 then []
    else if log[0].number > after then [log[0]] + Fetch(log[1..], after, limit - 1)
    else Fetch(log[1..], after, limit)
  }

  lemma {:induction false} FetchIsSlice(log: seq<Event>, after: nat, limit: nat, offset: nat)
    requires forall k | 0 <= k < |log| :: log[k].number == offset + k + 1
    ensures var skip := if after <= offset then 0 else if after - offset <= |log| then after - offset else |log|;
      var take := if |log| - skip <= limit then |log| - skip else limit;
      Fetch(log, after, limit) == log[skip..skip + take]
    decreases |log|
  {
    if log != [] && limit != 0 {
      if log[0].number > after {
        FetchIsSlice(log[1..], after, limit - 1, offset + 1);
      } else {
        FetchIsSlice(log[1..], after, limit, offset + 1);
      }
    }
  }

  function Delivered(frames: seq<Frame>): seq<Event> {
    if frames == [] then []
    else var last := frames[|frames| - 1];
      Delivered(frames[..|frames| - 1]) + if last.EventFrame? then [last.event] else []
  }

  lemma DeliveredLast(frames: seq<Frame>, frame: Frame)
    ensures Delivered(frames + [frame]) == Delivered(frames) + if frame.EventFrame? then [frame.event] else []
  {
    assert (frames + [frame])[..|frames|] == frames;
  }

  // The events a client resuming after `from` has been sent are a contiguous piece of the log.
  ghost predicate Piece(sent: seq<Event>, log: seq<Event>, from: nat) {
    sent == [] || (from + |sent| <= |log| && sent == log[from..from + |sent|])
  }

  // What one turn sends of a log of that length: all that is new, at most a batch.
  ghost function Portion(length: nat, cursor: nat): nat {
    if length <= cursor then 0 else if length - cursor < BATCH then length - cursor else BATCH
  }

  lemma PieceGrows(sent: seq<Event>, log: seq<Event>, after: seq<Event>, from: nat, batch: seq<Event>, limit: nat)
    requires Piece(sent, log, from) && log <= after && Gapless(after)
    requires batch == Fetch(after, from + |sent|, limit)
    ensures Piece(sent + batch, after, from)
    ensures |batch| <= limit && (|batch| < limit ==> from + |sent| + |batch| >= |after|)
    ensures limit == BATCH ==> |batch| == Portion(|after|, from + |sent|)
    ensures batch != [] ==> batch[|batch| - 1].number == from + |sent| + |batch|
  {
    FetchIsSlice(after, from + |sent|, limit, 0);
    if batch != [] { assert sent + batch == after[from..from + |sent| + |batch|]; }
  }

  // Sending a batch moves the cursor to the last number sent.
  method Send(batch: seq<Event>, before: nat, sent: seq<Frame>) returns (frames: seq<Frame>, cursor: nat)
    ensures Delivered(frames) == Delivered(sent) + batch
    ensures cursor == if batch == [] then before else batch[|batch| - 1].number
    ensures (forall f | f in sent :: !f.RunClosed?) ==> forall f | f in frames :: !f.RunClosed?
  {
    frames, cursor := sent, before;
    for i := 0 to |batch|
      invariant Delivered(frames) == Delivered(sent) + batch[..i]
      invariant cursor == if i == 0 then before else batch[i - 1].number
      invariant (forall f | f in sent :: !f.RunClosed?) ==> forall f | f in frames :: !f.RunClosed?
    {
      DeliveredLast(frames, EventFrame(batch[i]));
      cursor := batch[i].number;
      frames := frames + [EventFrame(batch[i])];
    }
    assert batch[..|batch|] == batch;
  }

  datatype Next = Continue | Closed(status: Status) | Missing

  // One pass of the loop: the status is read first, the events at some later point.
  method Turn(before: View, after: View, cursor: nat, sent: seq<Frame>, ghost log: seq<Event>, ghost from: nat)
    returns (frames: seq<Frame>, moved: nat, next: Next)
    requires Gapless(after.log) && before.log <= after.log && log <= after.log
    requires cursor == from + |Delivered(sent)| && Piece(Delivered(sent), log, from) && forall f | f in sent :: !f.RunClosed?
    ensures moved == from + |Delivered(frames)| && Piece(Delivered(frames), after.log, from)
    ensures moved == cursor + Portion(|after.log|, cursor)
    ensures next == if Portion(|after.log|, cursor) == BATCH then Continue else if before.status.None? then Missing
      else if IsTerminal(before.status.value) then Closed(before.status.value) else Continue
    ensures !next.Closed? ==> forall f | f in frames :: !f.RunClosed?
    ensures next.Missing? ==> frames != [] && frames[|frames| - 1] == NotFound
    ensures next.Closed? ==>
      && before.status == Some(next.status) && IsTerminal(next.status)
      && frames != [] && frames[|frames| - 1] == RunClosed(next.status)
      && moved >= |before.log|
    ensures next.Missing? ==> before.status.None?
  {
    var batch := Fetch(after.log, cursor, BATCH);
    PieceGrows(Delivered(sent), log, after.log, from, batch, BATCH);
    frames, moved := Send(batch, cursor, sent);
    if |batch| == BATCH {
      return frames, moved, Continue;
    }
    if before.status.None? {
      DeliveredLast(frames, NotFound);
      return frames + [NotFound], moved, Missing;
    }
    if IsTerminal(before.status.value) {
      DeliveredLast(frames, RunClosed(before.status.value));
      return frames + [RunClosed(before.status.value)], moved, Closed(before.status.value);
    }
    // Woken by a notification, or by the timeout that sends a keepalive first.
    if * {
      DeliveredLast(frames, KeepAlive);
      frames := frames + [KeepAlive];
    }
    next := Continue;
  }

  // The log as the last read of the connection saw it.
  ghost function LastLog(views: seq<View>, turns: nat): seq<Event> {
    if 0 < 2 * turns <= |views| then views[2 * turns - 1].log else []
  }

  // Closing follows a terminal status, and everything committed when it was read has been delivered;
  // nothing else sends `run_closed`.
  ghost predicate Ended(views: seq<View>, turns: nat, frames: seq<Frame>, delivered: nat, end: Next) {
    match end
    case Closed(status) =>
      && 2 <= 2 * turns <= |views| && views[2 * turns - 2].status == Some(status) && IsTerminal(status)
      && frames != [] && frames[|frames| - 1] == RunClosed(status)
      && delivered >= |views[2 * turns - 2].log|
    case Missing =>
      && 2 <= 2 * turns <= |views| && views[2 * turns - 2].status.None? && (forall f | f in frames :: !f.RunClosed?)
      && frames != [] && frames[|frames| - 1] == NotFound
    case Continue => forall f | f in frames :: !f.RunClosed?
  }

  // --- turn by turn ---

  // How many events the first `t` turns send.
  ghost function Progress(views: seq<View>, from: nat, t: nat): nat
    requires 2 * t <= |views|
  {
    if t == 0 then 0 else Progress(views, from, t - 1) + Portion(|views[2 * t - 1].log|, from + Progress(views, from, t - 1))
  }

  // Turn `t` is the last: it has sent all there is, and the run was over or unknown when it began.
  ghost predicate Finishes(views: seq<View>, from: nat, t: nat)
    requires 2 * t + 2 <= |views|
  {
    && Portion(|views[2 * t + 1].log|, from + Progress(views, from, t)) < BATCH
    && (views[2 * t].status.None? || IsTerminal(views[2 * t].status.value))
  }

  // Every turn is full, or the client has all that was there when it connected.
  lemma {:induction false} KeepsUp(views: seq<View>, from: nat, t: nat)
    requires Reads(views) && 0 < 2 * t <= |views|
    ensures Progress(views, from, t) == BATCH * t || from + Progress(views, from, t) >= |views[1].log|
  {
    if t > 1 {
      KeepsUp(views, from, t - 1);
      assert Later(views[1], views[2 * t - 1]);
    }
  }

  lemma {:induction false} AllFull(views: seq<View>, from: nat, t: nat)
    requires 2 * t <= |views| && forall u | 0 <= u < t :: Portion(|views[2 * u + 1].log|, from + Progress(views, from, u)) == BATCH
    ensures Progress(views, from, t) == BATCH * t
  {
    if t > 0 {
      AllFull(views, from, t - 1);
      assert Portion(|views[2 * (t - 1) + 1].log|, from + Progress(views, from, t - 1)) == BATCH;
    }
  }

  // On a run that is over, a client is told so once it has had time to read what is left.
  lemma ClosesInTime(views: seq<View>, from: nat, t: nat)
    requires Reads(views) && 2 * t + 2 <= |views| && views[0].status.Some? && IsTerminal(views[0].status.value)
    requires from + BATCH * (t + 1) > |views[2 * t + 1].log|
    ensures exists u: nat :: u <= t && Finishes(views, from, u)
  {
    if forall u: nat | u <= t :: !Finishes(views, from, u) {
      forall u: nat | u <= t ensures Portion(|views[2 * u + 1].log|, from + Progress(views, from, u)) == BATCH {
        assert u > 0 ==> Later(views[0], views[2 * u]);
        assert !Finishes(views, from, u);
      }
      AllFull(views, from, t);
      assert false;
    }
  }

  ghost predicate Turns(views: seq<View>, from: nat, turns: nat, delivered: nat, end: Next) {
    && 2 * turns <= |views| && delivered == Progress(views, from, turns)
    && (forall u | 0 <= u < turns - 1 :: !Finishes(views, from, u))
    && (turns > 0 ==> (end.Continue? <==> !Finishes(views, from, turns - 1)))
    && (turns == 0 ==> end.Continue?)
  }

  lemma TurnsOn(views: seq<View>, from: nat, turns: nat, delivered: nat, portion: nat, end: Next)
    requires Turns(views, from, turns, delivered, Continue) && 2 * turns + 2 <= |views|
    requires portion == Portion(|views[2 * turns + 1].log|, from + delivered)
    requires end.Continue? <==> portion == BATCH || (views[2 * turns].status.Some? && !IsTerminal(views[2 * turns].status.value))
    ensures Turns(views, from, turns + 1, delivered + portion, end)
  {
    assert Progress(views, from, turns + 1) == Progress(views, from, turns) + Portion(|views[2 * turns + 1].log|, from + Progress(views, from, turns));
  }

  // Where a connection stands after some turns of two reads each.
  ghost predicate Streaming(views: seq<View>, from: nat, turns: nat, frames: seq<Frame>, end: Next) {
    && Piece(Delivered(frames), LastLog(views, turns), from)
    && Ended(views, turns, frames, from + |Delivered(frames)|, end)
    && Turns(views, from, turns, |Delivered(frames)|, end)
  }

  method NextTurn(views: seq<View>, lastEventId: nat, turns: nat, cursor: nat, sent: seq<Frame>) returns (frames: seq<Frame>, moved: nat, end: Next)
    requires 2 * turns + 2 <= |views| && cursor == lastEventId + |Delivered(sent)| && InStep(views, turns)
    requires Piece(Delivered(sent), LastLog(views, turns), lastEventId) && Ended(views, turns, sent, cursor, Continue)
    ensures moved == lastEventId + |Delivered(frames)| == cursor + Portion(|views[2 * turns + 1].log|, cursor)
    ensures Piece(Delivered(frames), LastLog(views, turns + 1), lastEventId) && Ended(views, turns + 1, frames, moved, end)
    ensures end.Continue? <==>
      Portion(|views[2 * turns + 1].log|, cursor) == BATCH || (views[2 * turns].status.Some? && !IsTerminal(views[2 * turns].status.value))
  {
    assert LastLog(views, turns + 1) == views[2 * turns + 1].log;
    frames, moved, end := Turn(views[2 * turns], views[2 * turns + 1], cursor, sent, LastLog(views, turns), lastEventId);
  }

  method OneTurn(views: seq<View>, lastEventId: nat, turns: nat, cursor: nat, sent: seq<Frame>) returns (frames: seq<Frame>, moved: nat, end: Next)
    requires Reads(views) && 2 * turns + 2 <= |views| && cursor == lastEventId + |Delivered(sent)|
    requires Streaming(views, lastEventId, turns, sent, Continue)
    ensures Streaming(views, lastEventId, turns + 1, frames, end) && moved == lastEventId + |Delivered(frames)|
  {
    LaterPair(views, turns);
    frames, moved, end := NextTurn(views, lastEventId, turns, cursor, sent);
    TurnsOn(views, lastEventId, turns, |Delivered(sent)|, moved - cursor, end);
  }

  // The next fetch reads a log that extends those of the status read before it and of the last fetch.
  ghost predicate InStep(views: seq<View>, turns: nat)
    requires 2 * turns + 2 <= |views|
  {
    var log := views[2 * turns + 1].log;
    Gapless(log) && views[2 * turns].log <= log && LastLog(views, turns) <= log
  }

  lemma LaterPair(views: seq<View>, turns: nat)
    requires Reads(views) && 2 * turns + 2 <= |views|
    ensures InStep(views, turns)
  {
    assert Later(views[2 * turns], views[2 * turns + 1]) && (turns > 0 ==> Later(views[2 * turns - 1], views[2 * turns + 1]));
  }

  // One connection of that many turns.
  method StreamEvents(views: seq<View>, lastEventId: nat) returns (frames: seq<Frame>, turns: nat, end: Next)
    requires Reads(views)
    // Exactly the events numbered lastEventId + 1, lastEventId + 2, ... of the run's log, in order; turn by
    // turn all there is, at most a batch, until the first turn that has reason to end the stream.
    ensures Streaming(views, lastEventId, turns, frames, end)
    ensures forall k | 0 <= k < |Delivered(frames)| :: Delivered(frames)[k].number == lastEventId + k + 1
    // An unfinished stream has only run out of reads.
    ensures 2 * turns <= |views| && (end.Continue? ==> 2 * turns + 2 > |views|)
  {
    frames, turns, end := [], 0, Continue;
    var cursor := lastEventId;
    while 2 * turns + 2 <= |views| && end.Continue?
      invariant 2 * turns <= |views| && cursor == lastEventId + |Delivered(frames)| && Streaming(views, lastEventId, turns, frames, end)
      decreases |views| - 2 * turns
    {
      frames, cursor, end := OneTurn(views, lastEventId, turns, cursor, frames);
      turns := turns + 1;
    }
    PieceNumbers(views, turns, frames, lastEventId);
  }

  lemma PieceNumbers(views: seq<View>, turns: nat, frames: seq<Frame>, from: nat)
    requires Reads(views) && 2 * turns <= |views| && Piece(Delivered(frames), LastLog(views, turns), from)
    ensures forall k | 0 <= k < |Delivered(frames)| :: Delivered(frames)[k].number == from + k + 1
  {
  }

  // A connection to the running system: what it delivers is the run's timeline from the event after
  // the client's last one, and once closed the run has the announced status for good, with every event
  // up to the one that closed it delivered.
  method StreamRun(views: seq<View>, lastEventId: nat,
                   ghost dispatchers: nat, ghost actions: seq<Action>, ghost limits: Limits, ghost id: RunId, ghost points: seq<nat>)
    returns (frames: seq<Frame>, turns: nat, end: Next)
    requires limits.maxAttempts >= 1 && SeenAt(views, dispatchers, actions, limits, id, points)
    ensures Streaming(views, lastEventId, turns, frames, end)
    ensures var final := ViewAt(dispatchers, actions, limits, id, |actions|);
      && Piece(Delivered(frames), final.log, lastEventId)
      && (end.Closed? ==> final.status == Some(end.status) && IsTerminal(end.status))
    ensures forall k | 0 <= k < |Delivered(frames)| :: Delivered(frames)[k].number == lastEventId + k + 1
    ensures 2 * turns <= |views| && (end.Continue? ==> 2 * turns + 2 > |views|)
  {
    ProtocolReads(views, dispatchers, actions, limits, id, points);
    frames, turns, end := StreamEvents(views, lastEventId);
    if 0 < turns { LaterInHistory(dispatchers, actions, limits, id, points[2 * turns - 1], |actions|); }
    if end.Closed? { LaterInHistory(dispatchers, actions, limits, id, points[2 * turns - 2], |actions|); }
    PieceOfLonger(Delivered(frames), LastLog(views, turns), ViewAt(dispatchers, actions, limits, id, |actions|).log, lastEventId);
  }

  lemma PieceOfLonger(sent: seq<Event>, log: seq<Event>, longer: seq<Event>, from: nat)
    requires Piece(sent, log, from) && log <= longer
    ensures Piece(sent, longer, from)
  {
  }
}
