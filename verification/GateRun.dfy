/** The gate as a whole: evaluate, remediate, evaluate again, add the drop note, decide the verdict. */
module GateRun {
  import opened Wrappers
  import opened Evidence
  import opened Reports
  import opened GateRules
  import opened GateRemedy
  import opened GateRound
  import opened GateSentences
  import opened GateCitations
  import opened GateTheorems
  import opened GateConvergence
  import opened GateOutcome
  import opened GateConservation
  import opened GateEvaluate

  datatype Verdict = Fail | PassWithWarnings | Pass

  datatype Outcome = Outcome(verdict: Verdict, report: Report, initial: seq<Violation>, left: seq<Violation>, removed: nat, rounds: nat)

  // --- the drop note ---

  function DropNote(words: Wording, removed: nat): Sentence {
    Sentence(words.note(removed), Meta, [], [], [GateNote])
  }

  function Noted(report: Report, note: Sentence): Report {
    var sections := EnsureSection(report.sections, Summary);
    report.(sections := Replace(sections, Summary, Sentences(sections, Summary) + [note]))
  }

  lemma NotedLooksUp(report: Report, note: Sentence)
    requires DistinctKeys(report.sections)
    ensures var r := Noted(report, note).sections;
      && DistinctKeys(r)
      && (forall key :: HasKey(r, key) <==> HasKey(report.sections, key) || key == Summary)
      && (forall key :: Sentences(r, key) == Sentences(report.sections, key) + if key == Summary then [note] else [])
  {
    var sections := EnsureSection(report.sections, Summary);
    EnsureLooksUp(report.sections, Summary);
    ReplaceLooksUp(sections, Summary, Sentences(sections, Summary) + [note]);
  }

  // --- the note cites nothing ---

  lemma NoteCitesNothing(report: Report, note: Sentence, ledger: Ledger, d: string)
    requires DistinctKeys(report.sections) && Authored(note)
    ensures d in CitedDocs(Noted(report, note).sections, ledger) <==> d in CitedDocs(report.sections, ledger)
  {
    var now := Noted(report, note).sections;
    NotedLooksUp(report, note);
    CitedMembers(AllCitations(report.sections), ledger, d);
    CitedMembers(AllCitations(now), ledger, d);
    forall c ensures c in AllCitations(now) <==> c in AllCitations(report.sections) {
      CitesIsCited(now, c);
      CitesIsCited(report.sections, c);
      forall key ensures Mentions(Sentences(now, key), c) <==> Mentions(Sentences(report.sections, key), c) {
        MentionsAppend(Sentences(report.sections, key), note, c);
        assert Sentences(report.sections, key) + [] == Sentences(report.sections, key);
      }
    }
  }

  lemma MentionsAppend(sentences: seq<Sentence>, note: Sentence, c: string)
    requires Authored(note)
    ensures Mentions(sentences + [note], c) <==> Mentions(sentences, c)
  {
    if i: nat :| i < |sentences| && c in sentences[i].clusterIds + sentences[i].findingRefs {
      assert (sentences + [note])[i] == sentences[i];
    }
  }

  // --- the verdict is about the delivered report ---

  ghost predicate SameErrors(left: seq<Violation>, others: seq<Violation>) {
    forall v | IsError(v) :: v in left <==> v in others
  }

  lemma NoteAddsNoSentenceError(report: Report, ctx: Context, note: Sentence, v: Violation)
    requires DistinctKeys(report.sections) && Authored(note) && ctx.texts.redact(note.text) == note.text
    requires HasAddress(v)
    ensures Flagged(Noted(report, note), ctx, v) <==> Flagged(report, ctx, v)
  {
    NotedLooksUp(report, note);
    var were, are := Sentences(report.sections, v.at.key), Sentences(Noted(report, note).sections, v.at.key);
    if v.at.index < |were| {
      assert are[v.at.index] == were[v.at.index];
    } else if v.at.index < |are| {
      assert are[v.at.index] == note;
      AuthoredIsClean(ctx, |report.sources|, v.at, note);
      NoteIsNotMasked(ctx, |report.sources|, v.at, note);
    }
  }

  lemma NoteIsNotMasked(ctx: Context, listed: nat, at: Address, note: Sentence)
    requires Authored(note) && ctx.texts.redact(note.text) == note.text
    ensures forall rule :: AtSentence(rule, ctx, listed, at, note) == []
  {
    assert note.clusterIds + note.findingRefs == [];
  }

  lemma NoteAddsNoOtherError(report: Report, ctx: Context, note: Sentence, v: Violation)
    requires DistinctKeys(report.sections) && Authored(note)
    requires Summary in Required(ctx) ==> HasKey(report.sections, Summary)
    requires !HasAddress(v) && IsError(v)
    ensures Flagged(Noted(report, note), ctx, v) <==> Flagged(report, ctx, v)
  {
    NotedLooksUp(report, note);
    if v.ListedNotCited? || v.CitedNotListed? {
      NoteCitesNothing(report, note, ctx.ledger, v.docId);
    }
    assert forall key | key != Summary :: Sentences(Noted(report, note).sections, key) == Sentences(report.sections, key);
  }

  // Evaluating the delivered report, note included, finds the errors the verdict was based on.
  lemma NoteChangesNoError(report: Report, ctx: Context, note: Sentence, left: seq<Violation>)
    requires DistinctKeys(report.sections) && Authored(note) && ctx.texts.redact(note.text) == note.text
    requires Summary in Required(ctx) ==> HasKey(report.sections, Summary)
    requires AllFlags(report, ctx, left)
    ensures SameErrors(left, Violations(Noted(report, note), ctx))
  {
    NotedLooksUp(report, note);
    ViolationsAreFlags(Noted(report, note), ctx);
    SameFlags(report, ctx, note, left, Violations(Noted(report, note), ctx));
  }

  lemma SameFlags(report: Report, ctx: Context, note: Sentence, left: seq<Violation>, others: seq<Violation>)
    requires DistinctKeys(report.sections) && Authored(note) && ctx.texts.redact(note.text) == note.text
    requires Summary in Required(ctx) ==> HasKey(report.sections, Summary)
    requires AllFlags(report, ctx, left) && AllFlags(Noted(report, note), ctx, others)
    ensures SameErrors(left, others)
  {
    forall v | IsError(v) ensures v in left <==> v in others {
      assert v in left <==> Flagged(report, ctx, v);
      assert v in others <==> Flagged(Noted(report, note), ctx, v);
      if HasAddress(v) { NoteAddsNoSentenceError(report, ctx, note, v); } else { NoteAddsNoOtherError(report, ctx, note, v); }
    }
  }

  // --- what every round keeps ---

  function Start(report: Report, ctx: Context, maxRounds: int): Report {
    if maxRounds > 0 && AnyExhausted(ctx.ledger.plan) then report.(sections := EnsureSection(report.sections, KnownGaps)) else report
  }

  lemma StartConserves(report: Report, ctx: Context, maxRounds: int)
    requires DistinctKeys(report.sections)
    ensures DistinctKeys(Start(report, ctx, maxRounds).sections)
    ensures AllConserved(ctx, report, Start(report, ctx, maxRounds), key => 0)
  {
    EnsureLooksUp(report.sections, KnownGaps);
    forall key ensures Conserved(ctx, Sentences(report.sections, key), Sentences(report.sections, key), 0) {
      NothingChanged(ctx, Sentences(report.sections, key));
    }
  }

  ghost predicate AddsUp(m: SectionKey -> nat, n: SectionKey -> nat, all: SectionKey -> nat) {
    forall key :: all(key) == m(key) + n(key)
  }

  lemma SumAdds(m: SectionKey -> nat, n: SectionKey -> nat, all: SectionKey -> nat)
    requires AddsUp(m, n, all)
    ensures Sum(key => all(key)) == Sum(key => m(key)) + Sum(key => n(key))
  {
  }

  lemma AllConservedTwice(ctx: Context, a: Report, b: Report, c: Report, m: SectionKey -> nat, n: SectionKey -> nat, all: SectionKey -> nat)
    requires AllConserved(ctx, a, b, m) && AllConserved(ctx, b, c, n) && AddsUp(m, n, all)
    ensures AllConserved(ctx, a, c, all)
  {
    forall key ensures Conserved(ctx, Sentences(a.sections, key), Sentences(c.sections, key), all(key)) {
      ConservedTwice(ctx, Sentences(a.sections, key), Sentences(b.sections, key), Sentences(c.sections, key), m(key), n(key));
    }
  }

  lemma NoteConserves(ctx: Context, report: Report, note: Sentence)
    requires DistinctKeys(report.sections) && Authored(note)
    ensures AllConserved(ctx, report, Noted(report, note), key => 0)
  {
    NotedLooksUp(report, note);
    forall key ensures Conserved(ctx, Sentences(report.sections, key), Sentences(Noted(report, note).sections, key), 0) {
      var were := Sentences(report.sections, key);
      NothingChanged(ctx, were);
      JoinConserves(ctx, were, were, if key == Summary then [note] else [], 0);
    }
  }

  lemma RequiredArePresent(ctx: Context, words: Wording, before: Report, after: Report, removed: nat)
    requires DistinctKeys(before.sections) && Round(ctx, words, before, ToRemedy(Violations(before, ctx)), after, removed)
    ensures forall key | key in Required(ctx) :: HasKey(after.sections, key)
  {
    var found := Violations(before, ctx);
    ViolationsAreFlags(before, ctx);
    forall key | key in Required(ctx) ensures HasKey(after.sections, key) {
      SectionsAreThere(ctx, words, before, found, ToRemedy(found), after, removed, key);
    }
  }

  lemma JoinLosses(ctx: Context, a: Report, b: Report, c: Report, m: SectionKey -> nat, n: SectionKey -> nat) returns (all: SectionKey -> nat)
    requires AllConserved(ctx, a, b, m) && AllConserved(ctx, b, c, n)
    ensures AllConserved(ctx, a, c, all) && Sum(key => all(key)) == Sum(key => m(key)) + Sum(key => n(key))
  {
    all := key => m(key) + n(key);
    SumAdds(m, n, all);
    AllConservedTwice(ctx, a, b, c, m, n, all);
  }

  // --- the code ---

  lemma DeliveryConserves(ctx: Context, report: Report, working: Report, note: Sentence, lost: SectionKey -> nat)
    requires DistinctKeys(working.sections) && AllConserved(ctx, report, working, lost) && Authored(note)
    ensures AllConserved(ctx, report, Noted(working, note), lost)
  {
    var none: SectionKey -> nat := key => 0;
    NoteConserves(ctx, working, note);
    AllConservedTwice(ctx, report, working, Noted(working, note), lost, none, lost);
  }

  lemma NoteKeepsErrors(report: Report, ctx: Context, note: Sentence)
    requires DistinctKeys(report.sections) && Authored(note) && ctx.texts.redact(note.text) == note.text
    requires forall key | key in Required(ctx) :: HasKey(report.sections, key)
    ensures SameErrors(Violations(report, ctx), Violations(Noted(report, note), ctx))
  {
    ViolationsAreFlags(report, ctx);
    NoteChangesNoError(report, ctx, note, Violations(report, ctx));
  }

  predicate HasError(left: seq<Violation>) {
    exists i | 0 <= i < |left| :: IsError(left[i])
  }

  // --- a run, round by round ---

  // One round, made because something in the report could be remedied.
  ghost predicate Remedied(ctx: Context, words: Wording, before: Report, after: Report, removed: nat) {
    OneRound(ctx, words, before, after, removed) && exists v :: v in Violations(before, ctx) && !v.NoSupportedFinding?
  }

  ghost function RoundStep(ctx: Context, words: Wording): (Report, Report, nat) -> bool {
    (before: Report, after: Report, removed: nat) => Remedied(ctx, words, before, after, removed)
  }

  ghost predicate Chained<R, N>(step: (R, R, N) -> bool, history: seq<R>, drops: seq<N>) {
    |history| == |drops| + 1 && forall i | 0 <= i < |drops| :: step(history[i], history[i + 1], drops[i])
  }

  // The reports of a run, each the last one remediated once.
  ghost predicate Rounds(ctx: Context, words: Wording, history: seq<Report>, drops: seq<nat>) {
    Chained(RoundStep(ctx, words), history, drops)
  }

  lemma ChainShrinks<R, N>(step: (R, R, N) -> bool, history: seq<R>, drops: seq<N>)
    requires Chained(step, history, drops) && drops != []
    ensures Chained(step, history[..|drops|], drops[..|drops| - 1])
  {
  }

  lemma ChainGrows<R, N>(step: (R, R, N) -> bool, history: seq<R>, drops: seq<N>, after: R, more: N)
    requires Chained(step, history, drops) && step(history[|drops|], after, more)
    ensures Chained(step, history + [after], drops + [more])
  {
    var longer, all := history + [after], drops + [more];
    forall i | 0 <= i < |all| ensures step(longer[i], longer[i + 1], all[i]) {
      if i < |drops| { assert longer[i] == history[i] && longer[i + 1] == history[i + 1] && all[i] == drops[i]; }
    }
  }

  ghost function Total(drops: seq<nat>): nat {
    if drops == [] then 0 else Total(drops[..|drops| - 1]) + drops[|drops| - 1]
  }

  // The first of them: with room for the known gaps if rounds are allowed and a sub-question was given up.
  ghost predicate Opens(report: Report, ctx: Context, maxRounds: int, first: Report) {
    && first.sources == report.sources
    && (forall key :: Sentences(first.sections, key) == Sentences(report.sections, key))
    && forall key :: HasKey(first.sections, key) <==>
         || HasKey(report.sections, key)
         || (key == KnownGaps && maxRounds > 0 && exists i :: 0 <= i < |ctx.ledger.plan| && ctx.ledger.plan[i].status == Exhausted)
  }

  // The last of them is delivered, with a note in the summary if any sentence was removed, and nothing else added.
  ghost predicate Delivered(words: Wording, last: Report, removed: nat, delivered: Report) {
    && delivered.sources == last.sources
    && (forall key :: HasKey(delivered.sections, key) <==> HasKey(last.sections, key) || (key == Summary && removed > 0))
    && forall key :: Sentences(delivered.sections, key) ==
         Sentences(last.sections, key)
         + if key == Summary && removed > 0 then [Sentence(words.note(removed), Meta, [], [], [GateNote])] else []
  }

  lemma NothingRemoved(drops: seq<nat>)
    ensures drops == [] ==> Total(drops) == 0
  {
  }

  lemma SomethingToDo(vs: seq<Violation>)
    ensures ToRemedy(vs) != [] <==> exists v :: v in vs && !v.NoSupportedFinding?
  {
    ToRemedyMembers(vs);
    if ToRemedy(vs) != [] { assert ToRemedy(vs)[0] in ToRemedy(vs); }
  }

  lemma StartOpens(report: Report, ctx: Context, words: Wording, maxRounds: int)
    requires DistinctKeys(report.sections)
    ensures var start := Start(report, ctx, maxRounds);
      Opens(report, ctx, maxRounds, start) && DistinctKeys(start.sections) && AllConserved(ctx, report, start, key => 0)
  {
    StartConserves(report, ctx, maxRounds);
    EnsureLooksUp(report.sections, KnownGaps);
  }

  // What each round takes away, section by section.
  ghost function KeepStep(ctx: Context): (Report, Report, SectionKey -> nat) -> bool {
    (before: Report, after: Report, lost: SectionKey -> nat) => AllConserved(ctx, before, after, lost)
  }

  ghost predicate SumUp(drops: seq<nat>, losses: seq<SectionKey -> nat>) {
    |drops| == |losses| && forall i | 0 <= i < |drops| :: drops[i] == Sum(key => losses[i](key))
  }

  // And all of it together.
  lemma {:induction false} LossesAddUp(ctx: Context, history: seq<Report>, drops: seq<nat>, losses: seq<SectionKey -> nat>) returns (lost: SectionKey -> nat)
    requires Chained(KeepStep(ctx), history, losses) && SumUp(drops, losses)
    ensures AllConserved(ctx, history[0], history[|losses|], lost) && Total(drops) == Sum(key => lost(key))
    decreases |losses|
  {
    if losses == [] {
      lost := key => 0;
      ConservesItself(ctx, history[0]);
    } else {
      var n := |losses| - 1;
      ChainShrinks(KeepStep(ctx), history, losses);
      var earlier := LossesAddUp(ctx, history[..n + 1], drops[..n], losses[..n]);
      assert KeepStep(ctx)(history[n], history[n + 1], losses[n]);
      lost := JoinLosses(ctx, history[0], history[n], history[n + 1], earlier, losses[n]);
    }
  }

  lemma ConservesItself(ctx: Context, report: Report)
    ensures AllConserved(ctx, report, report, key => 0)
  {
    forall key ensures Conserved(ctx, Sentences(report.sections, key), Sentences(report.sections, key), 0) {
      NothingChanged(ctx, Sentences(report.sections, key));
    }
  }

  ghost predicate AllPresent(ctx: Context, report: Report) {
    forall key | key in Required(ctx) :: HasKey(report.sections, key)
  }

  // Where a run stands: the report and what it violates, and how it came to this.
  datatype Stage = Stage(working: Report, left: seq<Violation>, removed: nat, history: seq<Report>, drops: seq<nat>, losses: seq<SectionKey -> nat>)

  ghost predicate Stands(ctx: Context, round: (Report, Report, nat) -> bool, keep: (Report, Report, SectionKey -> nat) -> bool, start: Report, stage: Stage) {
    && DistinctKeys(stage.working.sections) && (stage.drops != [] ==> AllPresent(ctx, stage.working))
    && stage.left == Violations(stage.working, ctx)
    && Chained(round, stage.history, stage.drops) && Chained(keep, stage.history, stage.losses) && SumUp(stage.drops, stage.losses)
    && stage.history[0] == start && stage.history[|stage.drops|] == stage.working && Total(stage.drops) == stage.removed
  }

  // `stands` is `Stands`, for the loop to carry along without looking inside.
  ghost predicate Means(ctx: Context, words: Wording, start: Report, stands: Stage -> bool) {
    forall stage {:trigger Stands(ctx, RoundStep(ctx, words), KeepStep(ctx), start, stage)} ::
      stands(stage) <==> Stands(ctx, RoundStep(ctx, words), KeepStep(ctx), start, stage)
  }

  lemma NextStage(ctx: Context, round: (Report, Report, nat) -> bool, keep: (Report, Report, SectionKey -> nat) -> bool, start: Report, stage: Stage,
                  after: Report, more: nat, lost: SectionKey -> nat, leftover: seq<Violation>) returns (next: Stage)
    requires Stands(ctx, round, keep, start, stage) && round(stage.working, after, more) && keep(stage.working, after, lost)
    requires more == Sum(key => lost(key)) && DistinctKeys(after.sections) && AllPresent(ctx, after) && leftover == Violations(after, ctx)
    ensures Stands(ctx, round, keep, start, next)
    ensures next.working == after && next.left == leftover && next.removed == stage.removed + more && |next.drops| == |stage.drops| + 1
  {
    ChainGrows(round, stage.history, stage.drops, after, more);
    ChainGrows(keep, stage.history, stage.losses, after, lost);
    TotalGrows(stage.drops, more);
    next := Stage(after, leftover, stage.removed + more, stage.history + [after], stage.drops + [more], stage.losses + [lost]);
  }

  lemma TotalGrows(drops: seq<nat>, more: nat)
    ensures Total(drops + [more]) == Total(drops) + more
  {
    assert (drops + [more])[..|drops|] == drops;
  }

  // One turn of the loop.
  method RunRound(ctx: Context, words: Wording, working: Report, left: seq<Violation>, ghost start: Report, ghost stage: Stage, ghost stands: Stage -> bool)
    returns (after: Report, more: nat, leftover: seq<Violation>, ghost next: Stage)
    requires Means(ctx, words, start, stands) && stands(stage) && stage.working == working && stage.left == left && ToRemedy(left) != []
    ensures stands(next) && next.working == after && next.left == leftover && next.removed == stage.removed + more && |next.drops| == |stage.drops| + 1
  {
    Unpacked(ctx, words, start, stands, stage);
    ghost var lost;
    after, more, lost := RemedyOnce(ctx, words, working, left);
    leftover := Evaluate(after, ctx);
    next := NextStage(ctx, RoundStep(ctx, words), KeepStep(ctx), start, stage, after, more, lost, leftover);
  }

  method RemedyOnce(ctx: Context, words: Wording, working: Report, left: seq<Violation>) returns (after: Report, more: nat, ghost lost: SectionKey -> nat)
    requires DistinctKeys(working.sections) && left == Violations(working, ctx) && ToRemedy(left) != []
    ensures RoundStep(ctx, words)(working, after, more) && KeepStep(ctx)(working, after, lost)
    ensures more == Sum(key => lost(key)) && DistinctKeys(after.sections) && AllPresent(ctx, after)
  {
    ViolationsAreGenuine(working, ctx);
    after, more := Remediate(ctx, words, working, ToRemedy(left));
    lost := RoundTakes(ctx, words, working, after, more);
  }

  lemma RoundTakes(ctx: Context, words: Wording, working: Report, after: Report, more: nat) returns (lost: SectionKey -> nat)
    requires OneRound(ctx, words, working, after, more) && ToRemedy(Violations(working, ctx)) != []
    ensures RoundStep(ctx, words)(working, after, more) && KeepStep(ctx)(working, after, lost)
    ensures more == Sum(key => lost(key)) && AllPresent(ctx, after)
  {
    StepTaken(ctx, words, working, after, more);
    lost := RoundConserves(ctx, words, working, after, more);
    RequiredArePresent(ctx, words, working, after, more);
  }

  lemma StepTaken(ctx: Context, words: Wording, working: Report, after: Report, more: nat)
    requires OneRound(ctx, words, working, after, more) && ToRemedy(Violations(working, ctx)) != []
    ensures RoundStep(ctx, words)(working, after, more)
  {
    SomethingToDo(Violations(working, ctx));
  }

  method RunRounds(ctx: Context, words: Wording, start: Report, initial: seq<Violation>, maxRounds: nat, ghost stands: Stage -> bool)
    returns (working: Report, left: seq<Violation>, removed: nat, rounds: nat, ghost stage: Stage)
    requires Means(ctx, words, start, stands) && stands(Stage(start, initial, 0, [start], [], []))
    ensures stands(stage) && stage.working == working && stage.left == left && stage.removed == removed
    ensures |stage.drops| == rounds <= maxRounds && (rounds < maxRounds ==> ToRemedy(left) == [])
  {
    working, left, removed, rounds := start, initial, 0, 0;
    stage := Stage(start, initial, 0, [start], [], []);
    while ToRemedy(left) != [] && rounds < maxRounds
      invariant stands(stage) && stage.working == working && stage.left == left && stage.removed == removed
      invariant |stage.drops| == rounds <= maxRounds
      decreases maxRounds - rounds
    {
      var after, more, leftover;
      after, more, leftover, stage := RunRound(ctx, words, working, left, start, stage, stands);
      working, left, removed, rounds := after, leftover, removed + more, rounds + 1;
    }
  }

  lemma Unpacked(ctx: Context, words: Wording, start: Report, stands: Stage -> bool, stage: Stage)
    requires Means(ctx, words, start, stands) && stands(stage)
    ensures Stands(ctx, RoundStep(ctx, words), KeepStep(ctx), start, stage)
  {
  }

  lemma Packed(ctx: Context, words: Wording, start: Report, stage: Stage) returns (stands: Stage -> bool)
    requires Stands(ctx, RoundStep(ctx, words), KeepStep(ctx), start, stage)
    ensures Means(ctx, words, start, stands) && stands(stage)
  {
    stands := (other: Stage) => Stands(ctx, RoundStep(ctx, words), KeepStep(ctx), start, other);
  }

  // The prose of the report, over the first report of the run and all its rounds.
  lemma RunConserves(ctx: Context, report: Report, history: seq<Report>, drops: seq<nat>, losses: seq<SectionKey -> nat>) returns (lost: SectionKey -> nat)
    requires Chained(KeepStep(ctx), history, losses) && SumUp(drops, losses) && AllConserved(ctx, report, history[0], key => 0)
    ensures AllConserved(ctx, report, history[|losses|], lost) && Total(drops) == Sum(key => lost(key))
  {
    lost := LossesAddUp(ctx, history, drops, losses);
    AllConservedTwice(ctx, report, history[0], history[|losses|], key => 0, lost, lost);
  }

  method Deliver(ctx: Context, words: Wording, working: Report, removed: nat, ghost report: Report, ghost lost: SectionKey -> nat) returns (delivered: Report)
    requires DistinctKeys(working.sections) && AllConserved(ctx, report, working, lost) && (removed > 0 ==> AllPresent(ctx, working))
    ensures Delivered(words, working, removed, delivered) && AllConserved(ctx, report, delivered, lost)
    ensures ctx.texts.redact(words.note(removed)) == words.note(removed) ==> SameErrors(Violations(working, ctx), Violations(delivered, ctx))
  {
    delivered := working;
    if removed > 0 {
      var note := DropNote(words, removed);
      delivered := Noted(working, note);
      NotedLooksUp(working, note);
      DeliveryConserves(ctx, report, working, note, lost);
      if ctx.texts.redact(note.text) == note.text {
        NoteKeepsErrors(working, ctx, note);
      }
    }
  }

  // What the only round of a run leaves, if there was one to run.
  lemma OnlyRound(ctx: Context, words: Wording, history: seq<Report>, drops: seq<nat>)
    requires Rounds(ctx, words, history, drops) && |drops| <= 1 && PlainWords(ctx, words)
    requires drops == [] ==> ToRemedy(Violations(history[0], ctx)) == []
    ensures OnlyFindingsLack(Violations(history[|drops|], ctx)) <==>
      (drops == [] || RoundSafe(ctx, ToRemedy(Violations(history[0], ctx)), history[0]))
  {
    if drops == [] {
      ToRemedyMembers(Violations(history[0], ctx));
    } else {
      assert RoundStep(ctx, words)(history[0], history[1], drops[0]);
      OneRoundIsEnough(ctx, words, history[0], history[1], drops[0]);
    }
  }

  lemma ErrorsAre(left: seq<Violation>)
    ensures HasError(left) <==> exists v :: v in left && !v.WithinTolerance? && !v.Unhedged? && !v.Unlabelled? && !v.WrongLanguage?
  {
    if i :| 0 <= i < |left| && IsError(left[i]) { assert left[i] in left; }
  }

  method RunGate(report: Report, ctx: Context, words: Wording, maxRounds: int)
    returns (r: Option<Outcome>, ghost lost: SectionKey -> nat, ghost history: seq<Report>, ghost drops: seq<nat>)
    requires DistinctKeys(report.sections)
    ensures r.None? <==> maxRounds < 0
    // Round after round, as long as something can be remedied and a round is left; then the note.
    ensures r.Some? ==> Rounds(ctx, words, history, drops) && |drops| == r.value.rounds <= maxRounds && r.value.removed == Total(drops)
    ensures r.Some? ==> Opens(report, ctx, maxRounds, history[0]) && Delivered(words, history[r.value.rounds], r.value.removed, r.value.report)
    ensures r.Some? ==> r.value.initial == Violations(history[0], ctx) && r.value.left == Violations(history[r.value.rounds], ctx)
    ensures r.Some? && r.value.rounds < maxRounds ==> forall v | v in r.value.left :: v.NoSupportedFinding?
    // The delivered prose is the report's, but for what was removed, and its errors are those the verdict is about.
    ensures r.Some? ==> AllConserved(ctx, report, r.value.report, lost) && r.value.removed == Sum(key => lost(key))
    ensures r.Some? && ctx.texts.redact(words.note(r.value.removed)) == words.note(r.value.removed) ==>
      SameErrors(r.value.left, Violations(r.value.report, ctx))
    ensures r.Some? ==>
      (r.value.verdict == Fail <==>
        exists v :: v in r.value.left && !v.WithinTolerance? && !v.Unhedged? && !v.Unlabelled? && !v.WrongLanguage?)
    ensures r.Some? ==> (r.value.verdict == Pass <==> r.value.initial == [] && r.value.left == [] && r.value.removed == 0)
    // What a single round leaves.
    ensures maxRounds == 1 && PlainWords(ctx, words) ==>
      (OnlyFindingsLack(r.value.left) <==> r.value.rounds == 0 || RoundSafe(ctx, ToRemedy(r.value.initial), history[0]))
  {
    lost, history, drops := key => 0, [], [];
    if maxRounds < 0 {
      r := None;
      return;
    }
    StartOpens(report, ctx, words, maxRounds);
    var start := Start(report, ctx, maxRounds);
    var initial := Evaluate(start, ctx);
    ghost var stands := Packed(ctx, words, start, Stage(start, initial, 0, [start], [], []));
    var working, left, removed, rounds;
    ghost var stage;
    working, left, removed, rounds, stage := RunRounds(ctx, words, start, initial, maxRounds, stands);
    Unpacked(ctx, words, start, stands, stage);
    history, drops := stage.history, stage.drops;
    lost := RunConserves(ctx, report, history, drops, stage.losses);
    NothingRemoved(drops);
    SomethingToDo(left);
    var delivered := Deliver(ctx, words, working, removed, report, lost);
    ErrorsAre(left);
    var verdict := if HasError(left) then Fail else if initial != [] || left != [] || removed != 0 then PassWithWarnings else Pass;
    if maxRounds == 1 && PlainWords(ctx, words) { OnlyRound(ctx, words, history, drops); }
    r := Some(Outcome(verdict, delivered, initial, left, removed, rounds));
  }
}
