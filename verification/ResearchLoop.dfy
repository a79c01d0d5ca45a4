/** The research loop: it ends for any answers of the model, and settled sub-questions stay settled. */
module ResearchLoop {
  import opened Wrappers
  import opened Evidence
  import opened Queries

  // --- one sub-question after a round ---

  predicate Answered(subq: SubQuestion) {
    subq.facets != [] && forall i | 0 <= i < |subq.facets| :: subq.facets[i].sufficient
  }

  function Progressed(subq: SubQuestion, gain: int, stagnation: nat): SubQuestion {
    if !Open(subq) then subq
    else if Answered(subq) then subq.(status := Sufficient, idle := 0)
    else if gain > 0 then subq.(status := Searching, idle := 0)
    else if subq.idle + 1 >= stagnation then subq.(status := Exhausted, idle := subq.idle + 1)
    else subq.(status := Searching, idle := subq.idle + 1)
  }

  lemma ProgressedShape(subq: SubQuestion, gain: int, stagnation: nat)
    requires stagnation >= 1
    ensures var p := Progressed(subq, gain, stagnation);
      && p == subq.(status := p.status, idle := p.idle)
      && (!Open(subq) ==> p == subq)
      && (Open(p) ==> p.idle < stagnation)
  {
  }

  // Only an open sub-question moves: answered once it has facets and all suffice; otherwise it goes on
  // while it gains or has not stagnated for long enough, and is given up when it has.
  lemma ProgressedIff(subq: SubQuestion, gain: int, stagnation: nat)
    ensures var p := Progressed(subq, gain, stagnation);
      var open := subq.status in {Pending, Searching}; var done := subq.facets != [] && forall f | f in subq.facets :: f.sufficient;
      if !open then p == subq
      else if done then p == subq.(status := Sufficient, idle := 0)
      else if gain > 0 then p == subq.(status := Searching, idle := 0)
      else p == subq.(status := if subq.idle + 1 < stagnation then Searching else Exhausted, idle := subq.idle + 1)
  {
    assert (forall f | f in subq.facets :: f.sufficient) <==> forall i | 0 <= i < |subq.facets| :: subq.facets[i].sufficient;
  }

  // The run stops for the first of these reasons: all that must be answered is, the rounds are used up,
  // another limit is hit, or nothing is open.
  lemma StopsFor(plan: seq<SubQuestion>, iteration: nat, budget: Budget, exceeded: bool)
    ensures var stop := Decide(plan, iteration, budget, exceeded);
      var answered := plan != [] && forall s | s in plan && (s.must || forall t | t in plan :: !t.must) :: s.status == Sufficient;
      var open := exists s :: s in plan && s.status in {Pending, Searching};
      && (stop == Some(AllAnswered) <==> answered)
      && (stop == Some(IterationsSpent) <==> !answered && iteration >= budget.maxIterations)
      && (stop == Some(BudgetSpent) <==> !answered && iteration < budget.maxIterations && exceeded)
      && (stop == Some(NoProgress) <==> !answered && iteration < budget.maxIterations && !exceeded && !open)
      && (stop == None <==> !answered && iteration < budget.maxIterations && !exceeded && open)
  {
    NeededMembers(plan);
    OpenOnesNonempty(plan);
    var needed := Needed(plan);
    assert (forall s | s in needed :: s.status == Sufficient) <==> forall i | 0 <= i < |needed| :: needed[i].status == Sufficient;
    if i :| 0 <= i < |plan| && Open(plan[i]) { assert plan[i] in plan; }
    if needed != [] { assert needed[0] in needed; }
  }

  // Rounds since the last gain, at most all of them.
  function Fruitless(gains: seq<int>): nat {
    if gains == [] || gains[|gains| - 1] > 0 then 0 else 1 + Fruitless(gains[..|gains| - 1])
  }

  // A sub-question over several rounds, with its facets as they stand in each.
  function Over(subq: SubQuestion, facets: seq<seq<Facet>>, gains: seq<int>, stagnation: nat): SubQuestion
    requires |facets| == |gains|
  {
    if gains == [] then subq
    else
      var n := |gains| - 1;
      Progressed(Over(subq, facets[..n], gains[..n], stagnation).(facets := facets[n]), gains[n], stagnation)
  }

  // A sub-question that is still open gained something in one of its last `stagnation` rounds, or has
  // not had that many; and it is not answered.
  lemma {:induction false} OpenMeansRecentGain(subq: SubQuestion, facets: seq<seq<Facet>>, gains: seq<int>, stagnation: nat)
    requires |facets| == |gains| && stagnation >= 1 && subq.idle == 0 && Open(subq)
    requires Open(Over(subq, facets, gains, stagnation))
    ensures Over(subq, facets, gains, stagnation).idle == Fruitless(gains) < stagnation
    ensures gains != [] ==> !Answered(Over(subq, facets, gains, stagnation))
  {
    if gains != [] {
      var n := |gains| - 1;
      OpenMeansRecentGain(subq, facets[..n], gains[..n], stagnation);
    }
  }

  // --- the router ---

  datatype StopReason = AllAnswered | IterationsSpent | BudgetSpent | NoProgress | NoEvidence

  function Musts(plan: seq<SubQuestion>): seq<SubQuestion> {
    if plan == [] then []
    else Musts(plan[..|plan| - 1]) + if plan[|plan| - 1].must then [plan[|plan| - 1]] else []
  }

  // The sub-questions that must be answered; all of them when none is marked.
  function Needed(plan: seq<SubQuestion>): seq<SubQuestion> {
    if Musts(plan) != [] then Musts(plan) else plan
  }

  predicate Succeeded(plan: seq<SubQuestion>) {
    var musts := Needed(plan);
    musts != [] && forall i | 0 <= i < |musts| :: musts[i].status == Sufficient
  }

  function Decide(plan: seq<SubQuestion>, iteration: nat, budget: Budget, exceeded: bool): Option<StopReason> {
    if Succeeded(plan) then Some(AllAnswered)
    else if iteration >= budget.maxIterations then Some(IterationsSpent)
    else if exceeded then Some(BudgetSpent)
    else if OpenOnes(plan) == [] then Some(NoProgress)
    else None
  }

  lemma {:induction false} MustsMembers(plan: seq<SubQuestion>)
    ensures forall s :: s in Musts(plan) <==> s in plan && s.must
  {
    if plan != [] {
      MustsMembers(plan[..|plan| - 1]);
      assert plan == plan[..|plan| - 1] + [plan[|plan| - 1]];
    }
  }

  lemma NeededMembers(plan: seq<SubQuestion>)
    ensures forall s :: s in Needed(plan) <==> s in plan && (s.must || forall t | t in plan :: !t.must)
    ensures plan != [] ==> Needed(plan) != []
  {
    MustsMembers(plan);
    if Musts(plan) != [] { assert Musts(plan)[0] in Musts(plan); }
  }

  lemma NotAllAnswered(needed: seq<SubQuestion>)
    ensures (exists i :: 0 <= i < |needed| && needed[i].status != Sufficient) <==> exists s :: s in needed && s.status != Sufficient
  {
    if i :| 0 <= i < |needed| && needed[i].status != Sufficient { assert needed[i] in needed; }
  }

  lemma OpenOnesNonempty(plan: seq<SubQuestion>)
    ensures OpenOnes(plan) != [] <==> exists i :: 0 <= i < |plan| && Open(plan[i])
  {
    OpenOnesAre(plan);
    if OpenOnes(plan) != [] { assert OpenOnes(plan)[0] in OpenOnes(plan); }
    if i :| 0 <= i < |plan| && Open(plan[i]) { assert i in OpenOnes(plan); }
  }

  // The loop goes on exactly when rounds and budget are left, something is open and not all that must be answered is.
  lemma ContinuesIff(plan: seq<SubQuestion>, iteration: nat, budget: Budget, exceeded: bool)
    ensures Decide(plan, iteration, budget, exceeded).None? <==>
      && iteration < budget.maxIterations && !exceeded && (exists i :: 0 <= i < |plan| && Open(plan[i]))
      && exists s :: s in Needed(plan) && s.status != Sufficient
  {
    OpenOnesNonempty(plan);
    NeededMembers(plan);
    NotAllAnswered(Needed(plan));
  }

  // --- the nodes that touch the plan ---

  // Everything a round takes from outside: the model's answers, the ledger's verdict on each facet,
  // given the number of facets beside it, the gain of each sub-question, the searches used so far, other limits.
  datatype Missing = Missing(subqId: string, names: seq<string>)

  datatype Round = Round(
    contradictions: seq<Contradiction>, seen: seq<string>, output: Option<seq<Suggestion>>, searchesUsed: nat,
    judge: (string, nat, string) -> bool, missing: Option<seq<Missing>>, gain: string -> int, exceeded: bool, hasClusters: bool)

  datatype Settings = Settings(budget: Budget, maxFacets: nat, asking: Asking, covered: (string, SubQuestion) -> bool, facetId: (SubQuestion, nat) -> string)

  function SearchesLeft(budget: Budget, used: nat): nat {
    if used >= budget.maxSearches then 0 else budget.maxSearches - used
  }

  lemma SearchesLeftMeans(budget: Budget, used: nat)
    ensures used <= budget.maxSearches ==> used + SearchesLeft(budget, used) == budget.maxSearches
    ensures used > budget.maxSearches ==> SearchesLeft(budget, used) == 0
  {
  }

  // What no node may undo: ids and order stay, and a settled sub-question keeps its status.
  ghost predicate Absorbs(before: seq<SubQuestion>, after: seq<SubQuestion>) {
    |after| == |before| && forall i: nat | i < |before| :: after[i].id == before[i].id && (!Open(before[i]) ==> after[i].status == before[i].status)
  }

  // A round is opened: targets are planned, queries admitted for them, and the sub-questions marked.
  ghost predicate Opened(settings: Settings, plan: seq<SubQuestion>, round: Round, iteration: nat, targets: seq<Target>, log: seq<Query>, after: seq<SubQuestion>) {
    && Planned(plan, round.contradictions, settings.budget, iteration, SearchesLeft(settings.budget, round.searchesUsed), targets)
    && Generated(settings.asking, targets, round.seen, round.output, log)
    && Marked(plan, targets, |targets|, log, iteration, after)
  }

  method OpenRound(settings: Settings, plan: seq<SubQuestion>, round: Round, iteration: nat)
    returns (after: seq<SubQuestion>, log: seq<Query>, ghost targets: seq<Target>)
    ensures Opened(settings, plan, round, iteration, targets, log, after)
    ensures Absorbs(plan, after)
    ensures iteration > 1 ==> |log| <= settings.budget.maxFollowup && |log| <= SearchesLeft(settings.budget, round.searchesUsed)
    ensures forall i: nat | i < |plan| && after[i].status == Sufficient :: plan[i].status == Sufficient
  {
    var left := SearchesLeft(settings.budget, round.searchesUsed);
    var planned := PlanTargets(plan, round.contradictions, settings.budget, iteration, left);
    log := GenerateQueries(settings.asking, planned, round.seen, round.output);
    after := MarkSubQuestions(plan, planned, log, iteration);
    forall i: nat | i < |plan|
      ensures after[i].id == plan[i].id && (!Open(plan[i]) ==> after[i].status == plan[i].status) && (after[i].status == Sufficient ==> plan[i].status == Sufficient)
    {
      assert MarkedAt(plan, planned, |planned|, log, iteration, i, after[i]);
      if k :| 0 <= k < |planned| && planned[k].subq == i { assert planned[k] in planned; }
    }
    targets := planned;
  }

  function Judged(subq: SubQuestion, judge: (string, nat, string) -> bool): SubQuestion {
    subq.(facets := seq(|subq.facets|, i requires 0 <= i < |subq.facets| =>
                          subq.facets[i].(sufficient := judge(subq.id, |subq.facets|, subq.facets[i].id))))
  }

  // One facet for every name that none of the facets up to then covers, while there are fewer than the limit.
  ghost function WithFacets(settings: Settings, subq: SubQuestion, names: seq<string>): SubQuestion {
    if names == [] then subq
    else
      var before := WithFacets(settings, subq, names[..|names| - 1]);
      if |before.facets| < settings.maxFacets && !settings.covered(names[|names| - 1], before)
      then before.(facets := before.facets + [Facet(settings.facetId(before, |before.facets| + 1), false)]) else before
  }

  lemma {:induction false} FullStaysFull(settings: Settings, subq: SubQuestion, names: seq<string>, n: nat)
    requires n <= |names| && |WithFacets(settings, subq, names[..n]).facets| >= settings.maxFacets
    ensures WithFacets(settings, subq, names) == WithFacets(settings, subq, names[..n])
  {
    if n == |names| {
      assert names[..n] == names;
    } else {
      assert names[..|names| - 1][..n] == names[..n];
      FullStaysFull(settings, subq, names[..|names| - 1], n);
    }
  }

  // Facets are only added, under the next number and unanswered, and none over the limit.
  lemma {:induction false} FacetsGrow(settings: Settings, subq: SubQuestion, names: seq<string>)
    ensures var more := WithFacets(settings, subq, names);
      && more == subq.(facets := more.facets) && subq.facets <= more.facets && (|more.facets| <= settings.maxFacets || more == subq)
      && forall k | |subq.facets| <= k < |more.facets| :: !more.facets[k].sufficient
           && more.facets[k].id == settings.facetId(subq.(facets := more.facets[..k]), k + 1)
  {
    if names != [] {
      FacetsGrow(settings, subq, names[..|names| - 1]);
      var before, more := WithFacets(settings, subq, names[..|names| - 1]), WithFacets(settings, subq, names);
      assert before.facets == more.facets[..|before.facets|];
      forall k | |subq.facets| <= k < |before.facets| ensures more.facets[k] == before.facets[k] && more.facets[..k] == before.facets[..k] {}
    }
  }

  // A missing name goes without a facet only if it was covered at its turn or the limit was reached.
  lemma {:induction false} NameIsHeard(settings: Settings, subq: SubQuestion, names: seq<string>, n: nat)
    requires n < |names|
    ensures var before, after := WithFacets(settings, subq, names[..n]), WithFacets(settings, subq, names[..n + 1]);
      && after.facets <= WithFacets(settings, subq, names).facets
      && (|after.facets| == |before.facets| + 1 || settings.covered(names[n], before) || |before.facets| >= settings.maxFacets)
  {
    assert names[..n + 1][..n] == names[..n];
    if n + 1 < |names| {
      NameIsHeard(settings, subq, names[..|names| - 1], n);
      assert names[..|names| - 1][..n] == names[..n] && names[..|names| - 1][..n + 1] == names[..n + 1];
    } else {
      assert names[..n + 1] == names;
    }
  }

  method AddFacets(settings: Settings, subq: SubQuestion, names: seq<string>) returns (more: SubQuestion)
    ensures more == WithFacets(settings, subq, names)
  {
    more := subq;
    for i := 0 to |names|
      invariant more == WithFacets(settings, subq, names[..i])
    {
      assert names[..i + 1][..i] == names[..i];
      if |more.facets| >= settings.maxFacets {
        FullStaysFull(settings, subq, names, i);
        return;
      }
      if !settings.covered(names[i], more) {
        more := more.(facets := more.facets + [Facet(settings.facetId(more, |more.facets| + 1), false)]);
      }
    }
    assert names[..|names|] == names;
  }

  // Same sub-questions, possibly with more facets where they are open.
  ghost predicate Widened(settings: Settings, before: seq<SubQuestion>, after: seq<SubQuestion>) {
    |after| == |before| && forall i: nat | i < |before| ::
      && after[i] == before[i].(facets := after[i].facets)
      && before[i].facets <= after[i].facets
      && (|after[i].facets| > settings.maxFacets || !Open(before[i]) ==> |after[i].facets| == |before[i].facets|)
  }

  // What the model reports missing, in order, each for the first sub-question of its id if that is open.
  ghost function WithMissing(settings: Settings, plan: seq<SubQuestion>, missing: seq<Missing>): seq<SubQuestion> {
    if missing == [] then plan
    else
      var before, last := WithMissing(settings, plan, missing[..|missing| - 1]), missing[|missing| - 1];
      var at := Find(before, last.subqId);
      FindFinds(before, last.subqId);
      if at.Some? && Open(before[at.value]) then before[at.value := WithFacets(settings, before[at.value], last.names)] else before
  }

  lemma {:induction false} MissingWidens(settings: Settings, plan: seq<SubQuestion>, missing: seq<Missing>)
    ensures Widened(settings, plan, WithMissing(settings, plan, missing))
  {
    if missing != [] {
      var before, last := WithMissing(settings, plan, missing[..|missing| - 1]), missing[|missing| - 1];
      MissingWidens(settings, plan, missing[..|missing| - 1]);
      var at := Find(before, last.subqId);
      FindFinds(before, last.subqId);
      if at.Some? { FacetsGrow(settings, before[at.value], last.names); }
    }
  }

  method AddMissing(settings: Settings, plan: seq<SubQuestion>, missing: seq<Missing>) returns (after: seq<SubQuestion>)
    ensures after == WithMissing(settings, plan, missing)
  {
    after := plan;
    for i := 0 to |missing|
      invariant after == WithMissing(settings, plan, missing[..i])
    {
      assert missing[..i + 1][..i] == missing[..i];
      var at := Find(after, missing[i].subqId);
      FindFinds(after, missing[i].subqId);
      if at.Some? && Open(after[at.value]) {
        var more := AddFacets(settings, after[at.value], missing[i].names);
        after := after[at.value := more];
      }
    }
    assert missing[..|missing|] == missing;
  }

  ghost function JudgedPlan(plan: seq<SubQuestion>, judge: (string, nat, string) -> bool): seq<SubQuestion> {
    seq(|plan|, i requires 0 <= i < |plan| => Judged(plan[i], judge))
  }

  method JudgeAll(plan: seq<SubQuestion>, judge: (string, nat, string) -> bool) returns (after: seq<SubQuestion>)
    ensures after == JudgedPlan(plan, judge)
  {
    after := [];
    for i := 0 to |plan|
      invariant |after| == i && forall k: nat | k < i :: after[k] == Judged(plan[k], judge)
    {
      after := after + [Judged(plan[i], judge)];
    }
  }

  // The facets of a round: judged, and while anything is open widened by what is missing and judged again.
  ghost function WithVerdicts(settings: Settings, plan: seq<SubQuestion>, round: Round): seq<SubQuestion> {
    var judged := JudgedPlan(plan, round.judge);
    if OpenOnes(judged) == [] then judged else JudgedPlan(WithMissing(settings, judged, round.missing.GetOr([])), round.judge)
  }

  // Each sub-question of the plan with all its facets judged.
  ghost predicate VerdictsShape(settings: Settings, plan: seq<SubQuestion>, round: Round, judged: seq<SubQuestion>) {
    && |judged| == |plan|
    && forall i: nat | i < |plan| ::
         && judged[i] == plan[i].(facets := judged[i].facets)
         && (forall k | 0 <= k < |judged[i].facets| :: judged[i].facets[k].sufficient == round.judge(plan[i].id, |judged[i].facets|, judged[i].facets[k].id))
         && |plan[i].facets| <= |judged[i].facets| && (forall k | 0 <= k < |plan[i].facets| :: judged[i].facets[k].id == plan[i].facets[k].id)
         && (|judged[i].facets| > settings.maxFacets || !Open(plan[i]) ==> |judged[i].facets| == |plan[i].facets|)
  }

  lemma VerdictsAre(settings: Settings, plan: seq<SubQuestion>, round: Round)
    ensures VerdictsShape(settings, plan, round, WithVerdicts(settings, plan, round))
  {
    var judged := JudgedPlan(plan, round.judge);
    MissingWidens(settings, judged, round.missing.GetOr([]));
    var wider := WithMissing(settings, judged, round.missing.GetOr([]));
    forall i: nat | i < |plan| ensures Open(judged[i]) <==> Open(plan[i]) {}
    assert forall i: nat | i < |plan| :: judged[i].facets <= wider[i].facets;
  }

  // The round's verdicts, the progress of every sub-question, and the router's decision.
  ghost predicate Assessed(settings: Settings, plan: seq<SubQuestion>, round: Round, iteration: nat, after: seq<SubQuestion>, stop: Option<StopReason>) {
    var judged := WithVerdicts(settings, plan, round);
    && |after| == |judged|
    && (forall i: nat | i < |judged| :: after[i] == Progressed(judged[i], round.gain(judged[i].id), settings.budget.stagnation))
    && stop == Routed(after, iteration, settings.budget, round)
  }

  // Without any finding the reason to stop is that.
  function Routed(plan: seq<SubQuestion>, iteration: nat, budget: Budget, round: Round): Option<StopReason> {
    var stop := Decide(plan, iteration, budget, round.exceeded);
    if stop.Some? && !round.hasClusters then Some(NoEvidence) else stop
  }

  lemma RoutedIff(plan: seq<SubQuestion>, iteration: nat, budget: Budget, round: Round)
    ensures var stop, decided := Routed(plan, iteration, budget, round), Decide(plan, iteration, budget, round.exceeded);
      && (stop.None? <==> decided.None?)
      && (stop == Some(NoEvidence) <==> decided.Some? && !round.hasClusters)
      && (round.hasClusters ==> stop == decided)
  {
  }

  method AssessCoverage(settings: Settings, plan: seq<SubQuestion>, round: Round, iteration: nat)
    returns (after: seq<SubQuestion>, stop: Option<StopReason>)
    ensures Assessed(settings, plan, round, iteration, after, stop)
  {
    var judged := JudgeAll(plan, round.judge);
    if OpenOnes(judged) != [] {
      if round.missing.Some? {
        judged := AddMissing(settings, judged, round.missing.value);
      }
      judged := JudgeAll(judged, round.judge);
    }
    after := [];
    for i := 0 to |judged|
      invariant |after| == i
      invariant forall k: nat | k < i :: after[k] == Progressed(judged[k], round.gain(judged[k].id), settings.budget.stagnation)
    {
      after := after + [Progressed(judged[i], round.gain(judged[i].id), settings.budget.stagnation)];
    }
    stop := Decide(after, iteration, settings.budget, round.exceeded);
    if stop.Some? && !round.hasClusters {
      stop := Some(NoEvidence);
    }
  }

  // Facets keep their ids and grow within the limit, for open sub-questions only; each is judged by the ledger.
  lemma AssessedShape(settings: Settings, plan: seq<SubQuestion>, round: Round, iteration: nat, after: seq<SubQuestion>, stop: Option<StopReason>)
    requires settings.budget.stagnation >= 1 && Assessed(settings, plan, round, iteration, after, stop)
    ensures Absorbs(plan, after)
    ensures forall i: nat | i < |plan| ::
      after[i] == Progressed(plan[i].(facets := after[i].facets), round.gain(plan[i].id), settings.budget.stagnation)
    ensures VerdictsShape(settings, plan, round, seq(|plan|, i requires 0 <= i < |plan| => plan[i].(facets := after[i].facets)))
    ensures forall i: nat | i < |after| && Open(after[i]) :: after[i].idle < settings.budget.stagnation
  {
    var judged := WithVerdicts(settings, plan, round);
    VerdictsAre(settings, plan, round);
    forall i: nat | i < |plan|
      ensures after[i] == Progressed(plan[i].(facets := after[i].facets), round.gain(plan[i].id), settings.budget.stagnation)
      ensures after[i].id == plan[i].id && (!Open(plan[i]) ==> after[i].status == plan[i].status)
      ensures Open(after[i]) ==> after[i].idle < settings.budget.stagnation
      ensures judged[i] == plan[i].(facets := after[i].facets)
    {
      ProgressedShape(judged[i], round.gain(judged[i].id), settings.budget.stagnation);
    }
    assert seq(|plan|, i requires 0 <= i < |plan| => plan[i].(facets := after[i].facets)) == judged;
  }

  // --- the graph ---

  datatype Node =
    | IntakeGuard | AnalyzeQuery | MakePlan | CheckPlan
    | Generate | Search | ProcessResults | EvaluateSources | ExtractClaims | Cluster | DetectContradictions | Assess
    | Synthesize | VerifyCitations | ReviewEvidence | OutputGate
    | End

  function Successor(node: Node, stop: bool): Node {
    match node
    case IntakeGuard => AnalyzeQuery
    case AnalyzeQuery => MakePlan
    case MakePlan => CheckPlan
    case CheckPlan => Generate
    case Generate => Search
    case Search => ProcessResults
    case ProcessResults => EvaluateSources
    case EvaluateSources => ExtractClaims
    case ExtractClaims => Node.Cluster
    case Cluster => DetectContradictions
    case DetectContradictions => Assess
    case Assess => if stop then Synthesize else Generate
    case Synthesize => VerifyCitations
    case VerifyCitations => ReviewEvidence
    case ReviewEvidence => OutputGate
    case OutputGate => End
    case End => End
  }

  function RecursionLimit(budget: Budget): nat {
    4 + 8 * budget.maxIterations + 4 + 5
  }

  // Steps taken when `node` is next and `rounds` rounds have been opened.
  function StepsBefore(node: Node, rounds: nat): int {
    match node
    case IntakeGuard => 0
    case AnalyzeQuery => 1
    case MakePlan => 2
    case CheckPlan => 3
    case Generate => 4 + 8 * rounds
    case Search => 8 * rounds - 3
    case ProcessResults => 8 * rounds - 2
    case EvaluateSources => 8 * rounds - 1
    case ExtractClaims => 8 * rounds
    case Cluster => 8 * rounds + 1
    case DetectContradictions => 8 * rounds + 2
    case Assess => 8 * rounds + 3
    case Synthesize => 8 * rounds + 4
    case VerifyCitations => 8 * rounds + 5
    case ReviewEvidence => 8 * rounds + 6
    case OutputGate => 8 * rounds + 7
    case End => 8 * rounds + 8
  }

  predicate BeforeLoop(node: Node) {
    node == IntakeGuard || node == AnalyzeQuery || node == MakePlan || node == CheckPlan
  }

  // Where a run stands: the node to visit next, the rounds opened, the plan, and the router's last decision.
  datatype Stand = Stand(node: Node, rounds: nat, plan: seq<SubQuestion>, stop: Option<StopReason>)

  ghost predicate OpensTo(settings: Settings, plan: seq<SubQuestion>, round: Round, iteration: nat, after: seq<SubQuestion>) {
    exists targets, log :: Opened(settings, plan, round, iteration, targets, log, after)
  }

  // One visit: two nodes change the plan, each by what its round brings, and one of them decides.
  ghost predicate Follows(settings: Settings, inputs: nat -> Round, s: Stand, t: Stand) {
    && t.node == Successor(s.node, t.stop.Some?)
    && match s.node
       case Generate => t.rounds == s.rounds + 1 && t.stop == s.stop && OpensTo(settings, s.plan, inputs(t.rounds), t.rounds, t.plan)
       case Assess => t.rounds == s.rounds && Assessed(settings, s.plan, inputs(s.rounds), s.rounds, t.plan, t.stop)
       case _ => t.rounds == s.rounds && t.stop == s.stop && t.plan == s.plan
  }

  ghost predicate Linked<T>(rel: (T, T) -> bool, s: seq<T>, i: nat)
    requires i + 1 < |s|
  {
    rel(s[i], s[i + 1])
  }

  // Each related to the next.
  ghost predicate Chain<T>(rel: (T, T) -> bool, s: seq<T>) {
    s != [] && forall i | 0 <= i < |s| - 1 :: Linked(rel, s, i)
  }

  lemma ChainGrows<T>(rel: (T, T) -> bool, s: seq<T>, next: T)
    requires Chain(rel, s) && rel(s[|s| - 1], next)
    ensures Chain(rel, s + [next])
  {
    forall i | 0 <= i < |s| ensures Linked(rel, s + [next], i) {
      if i + 1 < |s| { assert Linked(rel, s, i); }
    }
  }

  ghost function Visits(settings: Settings, inputs: nat -> Round): (Stand, Stand) -> bool {
    (s, t) => Follows(settings, inputs, s, t)
  }

  ghost predicate Trail(settings: Settings, inputs: nat -> Round, start: seq<SubQuestion>, trail: seq<Stand>) {
    Chain(Visits(settings, inputs), trail) && trail[0] == Stand(IntakeGuard, 0, start, None)
  }

  lemma TrailGrows(settings: Settings, inputs: nat -> Round, start: seq<SubQuestion>, trail: seq<Stand>, next: Stand)
    requires Trail(settings, inputs, start, trail) && Follows(settings, inputs, trail[|trail| - 1], next)
    ensures Trail(settings, inputs, start, trail + [next])
  {
    ChainGrows(Visits(settings, inputs), trail, next);
  }

  // Settled sub-questions stay settled from any point of a run to any later one.
  ghost predicate StaysSettled(trail: seq<Stand>) {
    forall i, j | 0 <= i <= j < |trail| :: Absorbs(trail[i].plan, trail[j].plan)
  }

  lemma SettledNext(trail: seq<Stand>, next: Stand)
    requires trail != [] && StaysSettled(trail) && Absorbs(trail[|trail| - 1].plan, next.plan)
    ensures StaysSettled(trail + [next])
  {
    var longer := trail + [next];
    forall i, j | 0 <= i <= j < |longer| ensures Absorbs(longer[i].plan, longer[j].plan) {
      if i < |trail| == j { assert Absorbs(trail[i].plan, trail[|trail| - 1].plan); }
    }
  }

  // Past the router: the decision was made on this plan.
  ghost predicate Decided(settings: Settings, inputs: nat -> Round, s: Stand) {
    && s.stop.Some? && s.stop == Routed(s.plan, s.rounds, settings.budget, inputs(s.rounds))
    && (forall i: nat | i < |s.plan| && Open(s.plan[i]) :: s.plan[i].idle < settings.budget.stagnation)
  }

  predicate AfterLoop(node: Node) {
    node == Synthesize || node == VerifyCitations || node == ReviewEvidence || node == OutputGate || node == End
  }

  ghost predicate At(settings: Settings, inputs: nat -> Round, s: Stand) {
    Timely(s.node, s.rounds, settings.budget.maxIterations) && (AfterLoop(s.node) ==> Decided(settings, inputs, s))
  }

  predicate Timely(node: Node, rounds: nat, most: nat) {
    && rounds <= most && (BeforeLoop(node) ==> rounds == 0) && (node == Generate ==> rounds < most)
    && (!BeforeLoop(node) && node != Generate ==> rounds >= 1)
  }

  lemma TimelyNext(node: Node, stop: bool, rounds: nat, most: nat)
    requires most >= 1 && Timely(node, rounds, most) && node != End && (node == Assess && !stop ==> rounds < most)
    ensures Timely(Successor(node, stop), rounds + if node == Generate then 1 else 0, most)
    ensures node != Assess && AfterLoop(Successor(node, stop)) ==> AfterLoop(node)
    ensures AfterLoop(node) ==> node != Generate && node != Assess
    ensures node == Assess && !stop ==> !AfterLoop(Successor(node, stop))
  {
  }

  lemma AtNext(settings: Settings, inputs: nat -> Round, s: Stand, t: Stand)
    requires settings.budget.maxIterations >= 1 && settings.budget.stagnation >= 1 && s.node != End && At(settings, inputs, s)
    requires Follows(settings, inputs, s, t)
    ensures At(settings, inputs, t)
  {
    if s.node == Assess { AssessDecides(settings, inputs, s, t); }
    TimelyNext(s.node, t.stop.Some?, s.rounds, settings.budget.maxIterations);
  }

  lemma AssessDecides(settings: Settings, inputs: nat -> Round, s: Stand, t: Stand)
    requires settings.budget.stagnation >= 1 && Assessed(settings, s.plan, inputs(s.rounds), s.rounds, t.plan, t.stop) && t.rounds == s.rounds
    ensures t.stop.Some? ==> Decided(settings, inputs, t)
    ensures t.stop.None? ==> t.rounds < settings.budget.maxIterations
  {
    AssessedShape(settings, s.plan, inputs(s.rounds), s.rounds, t.plan, t.stop);
    if t.stop.None? { GoesOn(settings, t.plan, s.rounds, inputs(s.rounds)); }
  }

  lemma GoesOn(settings: Settings, plan: seq<SubQuestion>, rounds: nat, round: Round)
    requires Routed(plan, rounds, settings.budget, round).None?
    ensures rounds < settings.budget.maxIterations
  {
  }

  method Visit(settings: Settings, inputs: nat -> Round, s: Stand) returns (t: Stand)
    requires settings.budget.stagnation >= 1
    ensures Follows(settings, inputs, s, t) && Absorbs(s.plan, t.plan)
  {
    if s.node == Generate {
      var plan, log;
      ghost var targets;
      plan, log, targets := OpenRound(settings, s.plan, inputs(s.rounds + 1), s.rounds + 1);
      t := Stand(Search, s.rounds + 1, plan, s.stop);
    } else if s.node == Assess {
      var plan, stop := AssessCoverage(settings, s.plan, inputs(s.rounds), s.rounds);
      AssessedShape(settings, s.plan, inputs(s.rounds), s.rounds, plan, stop);
      t := Stand(Successor(Assess, stop.Some?), s.rounds, plan, stop);
    } else {
      t := s.(node := Successor(s.node, s.stop.Some?));
    }
  }

  lemma OneMoreStep(node: Node, stop: bool, rounds: nat)
    requires node != End && (BeforeLoop(node) ==> rounds == 0)
    ensures StepsBefore(Successor(node, stop), rounds + if node == Generate then 1 else 0) == StepsBefore(node, rounds) + 1
  {
  }

  ghost predicate Walked(settings: Settings, inputs: nat -> Round, start: seq<SubQuestion>, trail: seq<Stand>, s: Stand) {
    && Trail(settings, inputs, start, trail) && StaysSettled(trail) && trail[|trail| - 1] == s && At(settings, inputs, s)
  }

  lemma WalkOn(settings: Settings, inputs: nat -> Round, start: seq<SubQuestion>, trail: seq<Stand>, s: Stand, next: Stand)
    requires settings.budget.maxIterations >= 1 && settings.budget.stagnation >= 1 && s.node != End
    requires Walked(settings, inputs, start, trail, s) && Follows(settings, inputs, s, next) && Absorbs(s.plan, next.plan)
    ensures Walked(settings, inputs, start, trail + [next], next)
  {
    AtNext(settings, inputs, s, next);
    SettledNext(trail, next);
    TrailGrows(settings, inputs, start, trail, next);
  }

  // A whole run, for any inputs round by round.
  method Research(settings: Settings, start: seq<SubQuestion>, inputs: nat -> Round)
    returns (plan: seq<SubQuestion>, rounds: nat, steps: nat, reason: StopReason, ghost trail: seq<Stand>)
    requires settings.budget.maxIterations >= 1 && settings.budget.stagnation >= 1
    ensures 1 <= rounds <= settings.budget.maxIterations
    ensures steps == 8 + 8 * rounds && RecursionLimit(settings.budget) == steps + 5 + 8 * (settings.budget.maxIterations - rounds)
    ensures Trail(settings, inputs, start, trail) && |trail| == steps + 1 && trail[steps] == Stand(End, rounds, plan, Some(reason))
    ensures StaysSettled(trail)
    ensures forall i: nat | i < |plan| && Open(plan[i]) :: plan[i].idle < settings.budget.stagnation
    ensures Some(reason) == Routed(plan, rounds, settings.budget, inputs(rounds))
  {
    var s := Stand(IntakeGuard, 0, start, None);
    steps, trail := 0, [s];
    while s.node != End
      invariant Paced(settings, inputs, start, trail, s, steps)
      decreases 8 * settings.budget.maxIterations + 8 - steps
    {
      var next := Visit(settings, inputs, s);
      PaceHolds(settings, inputs, start, trail, s, steps, next);
      trail := trail + [next];
      s, steps := next, steps + 1;
    }
    plan, rounds, reason := s.plan, s.rounds, s.stop.value;
  }

  ghost predicate Paced(settings: Settings, inputs: nat -> Round, start: seq<SubQuestion>, trail: seq<Stand>, s: Stand, steps: nat) {
    steps == StepsBefore(s.node, s.rounds) && |trail| == steps + 1 && Walked(settings, inputs, start, trail, s)
  }

  lemma PaceHolds(settings: Settings, inputs: nat -> Round, start: seq<SubQuestion>, trail: seq<Stand>, s: Stand, steps: nat, next: Stand)
    requires settings.budget.maxIterations >= 1 && settings.budget.stagnation >= 1 && s.node != End
    requires Paced(settings, inputs, start, trail, s, steps) && Follows(settings, inputs, s, next) && Absorbs(s.plan, next.plan)
    ensures Paced(settings, inputs, start, trail + [next], next, steps + 1) && steps < 8 * settings.budget.maxIterations + 8
  {
    WalkOn(settings, inputs, start, trail, s, next);
    NextNode(settings, inputs, s, next);
  }

  lemma NextNode(settings: Settings, inputs: nat -> Round, s: Stand, next: Stand)
    requires Timely(s.node, s.rounds, settings.budget.maxIterations) && s.node != End && Follows(settings, inputs, s, next)
    ensures StepsBefore(next.node, next.rounds) == StepsBefore(s.node, s.rounds) + 1
    ensures 0 <= StepsBefore(s.node, s.rounds) < 8 * settings.budget.maxIterations + 8
  {
    StepOn(s.node, next.stop.Some?, s.rounds, settings.budget.maxIterations);
  }

  lemma StepOn(node: Node, stop: bool, rounds: nat, most: nat)
    requires Timely(node, rounds, most) && node != End
    ensures StepsBefore(Successor(node, stop), rounds + if node == Generate then 1 else 0) == StepsBefore(node, rounds) + 1
    ensures 0 <= StepsBefore(node, rounds) < 8 * most + 8
  {
    OneMoreStep(node, stop, rounds);
    IsEarly(node, rounds, most);
  }

  lemma IsEarly(node: Node, rounds: nat, most: nat)
    requires Timely(node, rounds, most) && node != End
    ensures 0 <= StepsBefore(node, rounds) < 8 * most + 8
  {
  }
}
