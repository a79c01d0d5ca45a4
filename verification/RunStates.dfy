/** The run state machine: the table of `contracts/run_states.yaml` and the start-up check Go runs on it. */
module RunStates {
  import opened Wrappers

  datatype Status = Queued | Dispatched | Running | Succeeded | SucceededWithWarnings | Failed | Cancelled

  const ALL_STATUSES := [Queued, Dispatched, Running, Succeeded, SucceededWithWarnings, Failed, Cancelled]

  // `foreign`: names in the file that are none of the seven states.
  datatype StateMachine = StateMachine(terminal: seq<Status>, maxAttempts: int, states: map<Status, seq<Status>>, foreign: set<string>) {
    predicate CanTransition(source: Status, target: Status) {
      source in states && target in states[source]
    }

    predicate IsTerminal(status: Status) {
      status in terminal
    }
  }

  const CONTRACT := StateMachine(
    [Succeeded, SucceededWithWarnings, Failed, Cancelled],
    3,
    map[
      Queued := [Dispatched, Cancelled, Failed],
      Dispatched := [Running, Queued, Cancelled, Failed],
      Running := [Succeeded, SucceededWithWarnings, Failed, Cancelled, Queued],
      Succeeded := [],
      SucceededWithWarnings := [],
      Failed := [],
      Cancelled := []
    ],
    {})

  // The same table as a case distinction, the form every proof uses; `TableAgrees` ties the two.
  predicate CanTransition(source: Status, target: Status) {
    match source
    case Queued => target.Dispatched? || target.Cancelled? || target.Failed?
    case Dispatched => target.Running? || target.Queued? || target.Cancelled? || target.Failed?
    case Running => !target.Running? && !target.Dispatched?
    case _ => false
  }

  predicate IsTerminal(status: Status) {
    !status.Queued? && !status.Dispatched? && !status.Running?
  }

  lemma TableAgrees(source: Status, target: Status)
    ensures CONTRACT.CanTransition(source, target) <==> CanTransition(source, target)
    ensures CONTRACT.IsTerminal(source) <==> IsTerminal(source)
  {
  }

  lemma Listed(s: Status)
    ensures s in ALL_STATUSES
  {
    var all := ALL_STATUSES;
    assert all[0] == Queued && all[1] == Dispatched && all[2] == Running && all[3] == Succeeded;
    assert all[4] == SucceededWithWarnings && all[5] == Failed && all[6] == Cancelled;
  }

  datatype Problem = StateMissing(status: Status) | ForeignStates(count: nat) | TerminalHasTransitions(status: Status) | NoAttempts

  ghost predicate AllPresent(m: StateMachine) {
    forall s: Status :: s in m.states
  }

  ghost predicate TerminalsEnd(m: StateMachine, n: nat) {
    n <= |m.terminal| && forall j | 0 <= j < n :: m.terminal[j] in m.states && m.states[m.terminal[j]] == []
  }

  // The problem that is reported: the first in the order of the checks.
  ghost predicate IsFirst(m: StateMachine, problem: Problem) {
    match problem
    case StateMissing(s) =>
      exists i :: 0 <= i < |ALL_STATUSES| && ALL_STATUSES[i] == s && s !in m.states && forall j | 0 <= j < i :: ALL_STATUSES[j] in m.states
    case ForeignStates(n) => AllPresent(m) && n == |m.foreign| > 0
    case TerminalHasTransitions(s) =>
      && AllPresent(m) && m.foreign == {}
      && exists i: nat :: i < |m.terminal| && m.terminal[i] == s && m.states[s] != [] && TerminalsEnd(m, i)
    case NoAttempts => AllPresent(m) && m.foreign == {} && TerminalsEnd(m, |m.terminal|) && m.maxAttempts < 1
  }

  // The dispatcher refuses to start exactly on the files this method finds a problem in.
  method Validate(m: StateMachine) returns (problem: Option<Problem>)
    ensures problem.None? <==> AllPresent(m) && m.foreign == {} && TerminalsEnd(m, |m.terminal|) && m.maxAttempts >= 1
    ensures problem.Some? ==> IsFirst(m, problem.value)
  {
    for i := 0 to |ALL_STATUSES|
      invariant forall j | 0 <= j < i :: ALL_STATUSES[j] in m.states
    {
      if ALL_STATUSES[i] !in m.states {
        return Some(StateMissing(ALL_STATUSES[i]));
      }
    }
    forall s: Status ensures s in m.states { Listed(s); }
    if |m.foreign| != 0 {
      return Some(ForeignStates(|m.foreign|));
    }
    for i := 0 to |m.terminal|
      invariant TerminalsEnd(m, i)
    {
      if |m.states[m.terminal[i]]| > 0 {
        return Some(TerminalHasTransitions(m.terminal[i]));
      }
    }
    return if m.maxAttempts < 1 then Some(NoAttempts) else None;
  }
}
