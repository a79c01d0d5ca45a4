/** One remediation round settles every sentence rule; the other rules hold exactly under the stated conditions. */
module GateConvergence {
  import opened Wrappers
  import opened Evidence
  import opened Reports
  import opened GateRules
  import opened GateRemedy
  import opened GateSentences
  import opened GateTheorems
  import opened GateSources

  function ToRemedy(vs: seq<Violation>): seq<Violation> {
    if vs == [] then [] else ToRemedy(vs[..|vs| - 1]) + if Remediable(vs[|vs| - 1]) then [vs[|vs| - 1]] else []
  }

  lemma {:induction false} ToRemedyMembers(vs: seq<Violation>)
    ensures forall v :: v in ToRemedy(vs) <==> v in vs && Remediable(v)
  {
    if vs != [] {
      ToRemedyMembers(vs[..|vs| - 1]);
      assert vs == vs[..|vs| - 1] + [vs[|vs| - 1]];
    }
  }

  // `found` are the violations of the report, in any order.
  ghost predicate AllFlags(report: Report, ctx: Context, found: seq<Violation>) {
    forall v :: v in found <==> Flagged(report, ctx, v)
  }

  ghost predicate Selected(found: seq<Violation>, vs: seq<Violation>) {
    forall v :: v in vs <==> v in found && Remediable(v)
  }

  lemma ViolationsAreFlags(report: Report, ctx: Context)
    requires DistinctKeys(report.sections)
    ensures AllFlags(report, ctx, Violations(report, ctx))
    ensures Selected(Violations(report, ctx), ToRemedy(Violations(report, ctx)))
  {
    forall v ensures v in Violations(report, ctx) <==> Flagged(report, ctx, v) { ViolationMembers(report, ctx, v); }
    ToRemedyMembers(Violations(report, ctx));
  }

  // The violations a round starts from address sentences that exist.
  lemma ViolationsAreGenuine(report: Report, ctx: Context)
    requires DistinctKeys(report.sections)
    ensures Genuine(report.sections, ToRemedy(Violations(report, ctx)))
  {
    var found := Violations(report, ctx);
    ViolationsAreFlags(report, ctx);
    FlagsAreGenuine(report, ctx, found, ToRemedy(found));
  }

  lemma FlagsAreGenuine(report: Report, ctx: Context, found: seq<Violation>, vs: seq<Violation>)
    requires AllFlags(report, ctx, found) && Selected(found, vs)
    ensures Genuine(report.sections, vs)
  {
    forall v | v in vs && HasAddress(v) ensures InReport(report.sections, v.at) {
      assert v in found;
    }
  }

  lemma EverythingIsReported(report: Report, ctx: Context, found: seq<Violation>, vs: seq<Violation>, at: Address)
    requires InReport(report.sections, at) && AllFlags(report, ctx, found) && Selected(found, vs)
    ensures Reported(ctx, |report.sources|, at, Sentences(report.sections, at.key)[at.index], vs)
  {
    var s := Sentences(report.sections, at.key)[at.index];
    forall rule: Rule, v | v in AtSentence(rule, ctx, |report.sources|, at, s) ensures v in vs {
      FlagsMove(rule, ctx, |report.sources|, at.key, at.index, at.index, s, v);
      assert Flagged(report, ctx, v);
      assert Remediable(v);
    }
  }

  lemma {:induction false} SurvivorSource(ctx: Context, vs: seq<Violation>, key: SectionKey, before: seq<Sentence>, t: Sentence) returns (i: nat)
    requires t in Survivors(ctx, vs, key, before)
    ensures i < |before| && !Doomed(ctx, vs, Address(key, i), before[i]) && t == Treated(ctx, vs, Address(key, i), before[i])
  {
    if t in Survivors(ctx, vs, key, before[..|before| - 1]) {
      i := SurvivorSource(ctx, vs, key, before[..|before| - 1], t);
    } else {
      i := |before| - 1;
    }
  }

  // One round on what the rules reported.
  ghost predicate Treatment(ctx: Context, words: Wording, before: Report, found: seq<Violation>, vs: seq<Violation>, after: Report, removed: nat) {
    AllFlags(before, ctx, found) && Selected(found, vs) && Round(ctx, words, before, vs, after, removed)
  }

  // Its effect on the sentences.
  ghost predicate Effect(ctx: Context, words: Wording, before: Report, found: seq<Violation>, vs: seq<Violation>, after: Report) {
    AllFlags(before, ctx, found) && Selected(found, vs) && Rewritten(ctx, words, before, vs, after)
  }

  // A rule flags a sentence of the report.
  ghost predicate Shows(report: Report, ctx: Context, rule: Rule, v: Violation) {
    HasAddress(v) && InReport(report.sections, v.at) && v in AtSentence(rule, ctx, |report.sources|, v.at, At(report, v.at))
  }

  lemma ShownIsFlagged(report: Report, ctx: Context, rule: Rule, v: Violation)
    requires Shows(report, ctx, rule, v)
    ensures Flagged(report, ctx, v)
  {
  }

  lemma FlaggedIsShown(report: Report, ctx: Context, v: Violation) returns (rule: Rule)
    requires HasAddress(v) && Flagged(report, ctx, v)
    ensures Shows(report, ctx, rule, v)
  {
    rule :| v in AtSentence(rule, ctx, |report.sources|, v.at, Sentences(report.sections, v.at.key)[v.at.index]);
  }

  // The setting of the theorems.
  ghost predicate OneRound(ctx: Context, words: Wording, before: Report, after: Report, removed: nat) {
    DistinctKeys(before.sections) && Round(ctx, words, before, ToRemedy(Violations(before, ctx)), after, removed)
  }

  lemma RoundAt(ctx: Context, words: Wording, before: Report, vs: seq<Violation>, after: Report, key: SectionKey)
    requires Rewritten(ctx, words, before, vs, after)
    ensures Sentences(after.sections, key) ==
      Survivors(ctx, vs, key, Sentences(before.sections, key)) + Tail(ctx, words, vs, key, |Sentences(before.sections, key)|)
  {
  }

  // --- sentences ---

  function At(report: Report, at: Address): Sentence
    requires at.index < |Sentences(report.sections, at.key)|
  {
    Sentences(report.sections, at.key)[at.index]
  }

  // A sentence of the report that the round keeps.
  ghost predicate Stays(ctx: Context, vs: seq<Violation>, before: Report, at: Address) {
    InReport(before.sections, at) && !Doomed(ctx, vs, at, At(before, at))
  }

  // What the gate wrote itself stands behind the survivors.
  ghost predicate ByGate(ctx: Context, vs: seq<Violation>, before: Report, at: Address) {
    at.index >= |Survivors(ctx, vs, at.key, Sentences(before.sections, at.key))|
  }

  // Masking leaves every sentence that is masked and kept with a text that the rules accept.
  ghost predicate MaskSafe(ctx: Context, vs: seq<Violation>, before: Report) {
    forall at | Stays(ctx, vs, before, at) && SensitiveText(at) in vs :: ReadsWell(ctx, vs, |before.sources|, at, At(before, at))
  }

  lemma MaskSafeForAll(ctx: Context, before: Report, found: seq<Violation>, vs: seq<Violation>, at: Address)
    requires AllFlags(before, ctx, found) && Selected(found, vs) && MaskSafe(ctx, vs, before) && Stays(ctx, vs, before, at)
    ensures ReadsWell(ctx, vs, |before.sources|, at, At(before, at))
  {
    EverythingIsReported(before, ctx, found, vs, at);
    if SensitiveText(at) !in vs { UnmaskedReadsWell(ctx, vs, |before.sources|, at, At(before, at)); }
  }

  // An approximation, or gate prose that the mask would change.
  ghost predicate Excused(ctx: Context, vs: seq<Violation>, before: Report, v: Violation) {
    HasAddress(v) ==> v.WithinTolerance? || (v.SensitiveText? && ByGate(ctx, vs, before, v.at))
  }

  // Where a surviving sentence of the new report comes from.
  lemma {:induction false} SurvivorOrigin(ctx: Context, vs: seq<Violation>, key: SectionKey, before: seq<Sentence>, p: nat) returns (i: nat)
    requires p < |Survivors(ctx, vs, key, before)|
    ensures i < |before| && !Doomed(ctx, vs, Address(key, i), before[i])
    ensures Survivors(ctx, vs, key, before)[p] == Treated(ctx, vs, Address(key, i), before[i])
  {
    i := SurvivorSource(ctx, vs, key, before, Survivors(ctx, vs, key, before)[p]);
  }

  // And where a kept sentence goes.
  lemma {:induction false} SurvivorPlace(ctx: Context, vs: seq<Violation>, key: SectionKey, before: seq<Sentence>, i: nat) returns (p: nat)
    requires i < |before| && !Doomed(ctx, vs, Address(key, i), before[i])
    ensures p < |Survivors(ctx, vs, key, before)|
    ensures Survivors(ctx, vs, key, before)[p] == Treated(ctx, vs, Address(key, i), before[i])
  {
    var n := |before| - 1;
    if i < n {
      p := SurvivorPlace(ctx, vs, key, before[..n], i);
    } else {
      p := |Survivors(ctx, vs, key, before)| - 1;
    }
  }

  // The sentence at `at` in the new report: a survivor in place or something the gate wrote.
  lemma SentenceAfter(ctx: Context, words: Wording, before: Report, vs: seq<Violation>, after: Report, at: Address)
    requires Rewritten(ctx, words, before, vs, after) && InReport(after.sections, at)
    ensures var were := Sentences(before.sections, at.key); var left := Survivors(ctx, vs, at.key, were);
      if ByGate(ctx, vs, before, at) then At(after, at) in Tail(ctx, words, vs, at.key, |were|) else At(after, at) == left[at.index]
  {
    var were := Sentences(before.sections, at.key);
    var left, tail := Survivors(ctx, vs, at.key, were), Tail(ctx, words, vs, at.key, |were|);
    RoundAt(ctx, words, before, vs, after, at.key);
    EitherPart(Sentences(after.sections, at.key), left, tail, at.index);
  }

  lemma EitherPart(all: seq<Sentence>, left: seq<Sentence>, tail: seq<Sentence>, i: nat)
    requires all == left + tail && i < |all|
    ensures if i < |left| then all[i] == left[i] else all[i] in tail
  {
  }

  lemma GateProseFlags(ctx: Context, words: Wording, vs: seq<Violation>, held: nat, relisted: nat, rule: Rule, at: Address, t: Sentence, v: Violation)
    requires t in Tail(ctx, words, vs, at.key, held) && v in AtSentence(rule, ctx, relisted, at, t)
    ensures v.SensitiveText?
  {
    TailIsAuthored(ctx, words, vs, at.key, held);
    AuthoredIsClean(ctx, relisted, at, t);
  }

  lemma NumbersDrop(ctx: Context, vs: seq<Violation>, listed: nat, at: Address, s: Sentence, v: Violation)
    requires v in ShownNumbers(ctx, vs, listed, at, s)
    ensures v == LedgerMismatch(at) || v == BareFact(at) || v == WithinTolerance(at)
  {
    var text := Shown(ctx, vs, at, s);
    NumberFlags(at, text, ctx.texts.quantities(text), Refs(s), ctx, listed, v);
  }

  // A flag on a survivor is a flag on what became of the sentence it came from.
  lemma SurvivorFlags(ctx: Context, before: Report, found: seq<Violation>, vs: seq<Violation>, relisted: nat, rule: Rule, at: Address, t: Sentence, v: Violation)
    returns (origin: Address)
    requires AllFlags(before, ctx, found) && Selected(found, vs) && !ByGate(ctx, vs, before, at)
    requires t == Survivors(ctx, vs, at.key, Sentences(before.sections, at.key))[at.index] && v in AtSentence(rule, ctx, relisted, at, t)
    ensures Stays(ctx, vs, before, origin)
    ensures ReadsWell(ctx, vs, |before.sources|, origin, At(before, origin)) ==> v.WithinTolerance?
    ensures NumbersFit(ctx, vs, |before.sources|, origin, At(before, origin)) ==> !Drops(v) && !v.UnknownCitation?
  {
    var were := Sentences(before.sections, at.key);
    var i := SurvivorOrigin(ctx, vs, at.key, were, at.index);
    origin := Address(at.key, i);
    EverythingIsReported(before, ctx, found, vs, origin);
    FlagsMove(rule, ctx, relisted, at.key, at.index, i, t, v);
    SurvivorFlagged(ctx, vs, |before.sources|, relisted, rule, origin, were[i], Relocated(v, origin));
    OnlyTextFlags(ctx, vs, |before.sources|, origin, were[i], v);
  }

  lemma OnlyTextFlags(ctx: Context, vs: seq<Violation>, listed: nat, at: Address, s: Sentence, v: Violation)
    requires Relocated(v, at) in ShownNumbers(ctx, vs, listed, at, s)
      || (Relocated(v, at) == SensitiveText(at) && ctx.texts.redact(Shown(ctx, vs, at, s)) != Shown(ctx, vs, at, s))
    ensures NumbersFit(ctx, vs, listed, at, s) ==> !Drops(v) && !v.UnknownCitation?
    ensures ReadsWell(ctx, vs, listed, at, s) ==> v.WithinTolerance?
  {
    var moved := Relocated(v, at);
    if moved in ShownNumbers(ctx, vs, listed, at, s) { NumbersDrop(ctx, vs, listed, at, s, moved); }
  }

  lemma SectionsAreThere(ctx: Context, words: Wording, before: Report, found: seq<Violation>, vs: seq<Violation>, after: Report, removed: nat, key: SectionKey)
    requires AllFlags(before, ctx, found) && Selected(found, vs) && Round(ctx, words, before, vs, after, removed)
    requires key in Required(ctx)
    ensures HasKey(after.sections, key)
  {
    if !HasKey(before.sections, key) {
      var v := MissingSection(key);
      assert Flagged(before, ctx, v);
      assert v in vs && Creates(ctx, v, key);
      assert Present(ctx, vs, before.sections, key);
    }
  }

  // --- known gaps ---

  ghost predicate CarrierSurvives(ctx: Context, before: Report, vs: seq<Violation>, subq: string) {
    var gaps := Sentences(before.sections, KnownGaps);
    exists i: nat :: i < |gaps| && Gap(subq) in gaps[i].labels && !Doomed(ctx, vs, Address(KnownGaps, i), gaps[i])
  }

  lemma {:induction false} SurvivorStays(ctx: Context, vs: seq<Violation>, key: SectionKey, before: seq<Sentence>, i: nat)
    requires i < |before| && !Doomed(ctx, vs, Address(key, i), before[i])
    ensures Treated(ctx, vs, Address(key, i), before[i]) in Survivors(ctx, vs, key, before)
  {
    if i < |before| - 1 { SurvivorStays(ctx, vs, key, before[..|before| - 1], i); }
  }

  lemma {:induction false} PlanHas(plan: seq<SubQuestion>, id: string)
    requires ExhaustedIn(plan, id)
    ensures SubQuestionOf(plan, id).Some? && SubQuestionOf(plan, id).value.id == id
  {
    if plan[0].id != id {
      var i :| 0 <= i < |plan| && plan[i].status == Exhausted && plan[i].id == id;
      assert plan[1..][i - 1] == plan[i];
      PlanHas(plan[1..], id);
    }
  }

  lemma {:induction false} SubQuestionHasId(plan: seq<SubQuestion>, id: string)
    ensures SubQuestionOf(plan, id).Some? ==> SubQuestionOf(plan, id).value.id == id
  {
    if plan != [] { SubQuestionHasId(plan[1..], id); }
  }

  lemma {:induction false} TailGaps(ctx: Context, words: Wording, vs: seq<Violation>, held: nat, id: string)
    requires SubQuestionOf(ctx.ledger.plan, id).Some?
    ensures HasGap(Tail(ctx, words, vs, KnownGaps, held), id) <==> MissingGap(id) in vs
  {
    if vs != [] {
      var front, v := vs[..|vs| - 1], vs[|vs| - 1];
      TailGaps(ctx, words, front, held, id);
      assert vs == front + [v];
      SubQuestionHasId(ctx.ledger.plan, id);
      var was, now := Tail(ctx, words, front, KnownGaps, held), Tail(ctx, words, vs, KnownGaps, held);
      if AddsGap(ctx, v) {
        SubQuestionHasId(ctx.ledger.plan, v.subq);
        assert now == was + [GapNote(words, SubQuestionOf(ctx.ledger.plan, v.subq).value)];
        GapsAppend(was, now[|was|], id);
      }
    }
  }

  lemma GapsAppend(sentences: seq<Sentence>, s: Sentence, id: string)
    ensures HasGap(sentences + [s], id) <==> HasGap(sentences, id) || Gap(id) in s.labels
  {
    var all := sentences + [s];
    if i :| 0 <= i < |sentences| && Gap(id) in sentences[i].labels { assert all[i] == sentences[i]; }
    if Gap(id) in s.labels { assert all[|sentences|] == s; }
  }

  lemma GapsJoin(left: seq<Sentence>, tail: seq<Sentence>, id: string)
    ensures HasGap(left + tail, id) <==> HasGap(left, id) || HasGap(tail, id)
  {
    if i :| 0 <= i < |left| && Gap(id) in left[i].labels { assert (left + tail)[i] == left[i]; }
    if i :| 0 <= i < |tail| && Gap(id) in tail[i].labels { assert (left + tail)[|left| + i] == tail[i]; }
  }

  lemma CarriersLeft(ctx: Context, before: Report, vs: seq<Violation>, id: string)
    ensures var gaps := Sentences(before.sections, KnownGaps);
      HasGap(Survivors(ctx, vs, KnownGaps, gaps), id) <==> CarrierSurvives(ctx, before, vs, id)
  {
    var gaps := Sentences(before.sections, KnownGaps);
    var left := Survivors(ctx, vs, KnownGaps, gaps);
    if k :| 0 <= k < |left| && Gap(id) in left[k].labels {
      var i := SurvivorSource(ctx, vs, KnownGaps, gaps, left[k]);
      TreatedShape(ctx, vs, Address(KnownGaps, i), gaps[i]);
    }
    if i: nat :| i < |gaps| && Gap(id) in gaps[i].labels && !Doomed(ctx, vs, Address(KnownGaps, i), gaps[i]) {
      TreatedShape(ctx, vs, Address(KnownGaps, i), gaps[i]);
      SurvivorStays(ctx, vs, KnownGaps, gaps, i);
    }
  }

  // An exhausted sub-question is missing after the round exactly if it was listed before it and
  // every sentence listing it was dropped.
  lemma GapsAfterTreatment(ctx: Context, words: Wording, before: Report, found: seq<Violation>, vs: seq<Violation>, after: Report, id: string)
    requires Effect(ctx, words, before, found, vs, after) && ExhaustedIn(ctx.ledger.plan, id)
    ensures HasGap(Sentences(after.sections, KnownGaps), id) <==>
      HasGap(Sentences(before.sections, KnownGaps), id) ==> CarrierSurvives(ctx, before, vs, id)
  {
    var gaps := Sentences(before.sections, KnownGaps);
    var left, tail := Survivors(ctx, vs, KnownGaps, gaps), Tail(ctx, words, vs, KnownGaps, |gaps|);
    RoundAt(ctx, words, before, vs, after, KnownGaps);
    GapSelected(before, ctx, found, vs, id);
    PlanHas(ctx.ledger.plan, id);
    TailGaps(ctx, words, vs, |gaps|, id);
    GapsJoin(left, tail, id);
    CarriersLeft(ctx, before, vs, id);
  }

  lemma GapSelected(report: Report, ctx: Context, found: seq<Violation>, vs: seq<Violation>, id: string)
    requires AllFlags(report, ctx, found) && Selected(found, vs) && ExhaustedIn(ctx.ledger.plan, id)
    ensures MissingGap(id) in vs <==> !HasGap(Sentences(report.sections, KnownGaps), id)
  {
    GapFlag(report, ctx, found, id);
  }

  lemma GapsAfterwards(ctx: Context, words: Wording, before: Report, after: Report, removed: nat, id: string)
    requires OneRound(ctx, words, before, after, removed) && ExhaustedIn(ctx.ledger.plan, id)
    ensures MissingGap(id) in Violations(after, ctx) <==>
      HasGap(Sentences(before.sections, KnownGaps), id) && !CarrierSurvives(ctx, before, ToRemedy(Violations(before, ctx)), id)
  {
    var found := Violations(before, ctx);
    ViolationsAreFlags(before, ctx);
    ViolationsAreFlags(after, ctx);
    GapsAfterTreatment(ctx, words, before, found, ToRemedy(found), after, id);
    GapFlag(after, ctx, Violations(after, ctx), id);
  }

  // In particular a known gap stays listed when the sentences listing it cite nothing.
  lemma CitationFreeGapsStay(ctx: Context, words: Wording, before: Report, after: Report, removed: nat, id: string)
    requires OneRound(ctx, words, before, after, removed)
    requires forall s | s in Sentences(before.sections, KnownGaps) && Gap(id) in s.labels :: Authored(s)
    ensures MissingGap(id) !in Violations(after, ctx)
  {
    var found := Violations(before, ctx);
    ViolationsAreFlags(before, ctx);
    ViolationsAreFlags(after, ctx);
    GapFlag(after, ctx, Violations(after, ctx), id);
    if ExhaustedIn(ctx.ledger.plan, id) {
      GapsAfterwards(ctx, words, before, after, removed, id);
      var gaps := Sentences(before.sections, KnownGaps);
      if i: nat :| i < |gaps| && Gap(id) in gaps[i].labels {
        AuthoredSurvives(before, ctx, found, ToRemedy(found), Address(KnownGaps, i));
      }
    }
  }

  lemma AuthoredSurvives(report: Report, ctx: Context, found: seq<Violation>, vs: seq<Violation>, at: Address)
    requires AllFlags(report, ctx, found) && Selected(found, vs) && InReport(report.sections, at)
    requires Authored(Sentences(report.sections, at.key)[at.index])
    ensures !Doomed(ctx, vs, at, Sentences(report.sections, at.key)[at.index])
  {
    var s := Sentences(report.sections, at.key)[at.index];
    AuthoredIsClean(ctx, |report.sources|, at, s);
    forall v | v in vs && HasAddress(v) && v.at == at ensures v.SensitiveText? {
      assert v in found && Flagged(report, ctx, v);
    }
    if Doomed(ctx, vs, at, s) {
      var v := DoomedHasCause(ctx, vs, at, s);
    }
  }

  lemma GapFlag(report: Report, ctx: Context, found: seq<Violation>, id: string)
    requires AllFlags(report, ctx, found)
    ensures MissingGap(id) in found <==> ExhaustedIn(ctx.ledger.plan, id) && !HasGap(Sentences(report.sections, KnownGaps), id)
  {
    assert MissingGap(id) in found <==> Flagged(report, ctx, MissingGap(id));
  }
  // --- sentences after the round ---

  lemma FlagIsExcused(ctx: Context, words: Wording, before: Report, found: seq<Violation>, vs: seq<Violation>, after: Report, rule: Rule, v: Violation)
    requires Effect(ctx, words, before, found, vs, after) && MaskSafe(ctx, vs, before) && Shows(after, ctx, rule, v)
    ensures Excused(ctx, vs, before, v)
  {
    SentenceAfter(ctx, words, before, vs, after, v.at);
    if ByGate(ctx, vs, before, v.at) {
      GateProseFlags(ctx, words, vs, |Sentences(before.sections, v.at.key)|, |after.sources|, rule, v.at, At(after, v.at), v);
    } else {
      var origin := SurvivorFlags(ctx, before, found, vs, |after.sources|, rule, v.at, At(after, v.at), v);
      MaskSafeForAll(ctx, before, found, vs, origin);
    }
  }

  // A kept sentence in the new report, at its new place.
  lemma KeptSentence(ctx: Context, words: Wording, before: Report, vs: seq<Violation>, after: Report, at: Address) returns (moved: Address)
    requires Rewritten(ctx, words, before, vs, after) && Stays(ctx, vs, before, at)
    ensures moved.key == at.key && InReport(after.sections, moved) && !ByGate(ctx, vs, before, moved)
    ensures At(after, moved) == Treated(ctx, vs, at, At(before, at))
  {
    var were := Sentences(before.sections, at.key);
    var p := SurvivorPlace(ctx, vs, at.key, were, at.index);
    moved := Address(at.key, p);
    RoundAt(ctx, words, before, vs, after, at.key);
    EitherPart(Sentences(after.sections, at.key), Survivors(ctx, vs, at.key, were), Tail(ctx, words, vs, at.key, |were|), p);
  }

  // A number that the masked text brings in is flagged on the new report ...
  lemma UnfitNumberShows(ctx: Context, words: Wording, before: Report, found: seq<Violation>, vs: seq<Violation>, after: Report, at: Address, v: Violation)
    returns (flag: Violation)
    requires Effect(ctx, words, before, found, vs, after) && Stays(ctx, vs, before, at)
    requires v in ShownNumbers(ctx, vs, |before.sources|, at, At(before, at)) && !v.WithinTolerance?
    ensures Drops(flag) && Shows(after, ctx, G4, flag)
  {
    var s := At(before, at);
    var moved := KeptSentence(ctx, words, before, vs, after, at);
    EverythingIsReported(before, ctx, found, vs, at);
    NumbersAfter(ctx, vs, |before.sources|, |after.sources|, at, s);
    FlagsMove(G4, ctx, |after.sources|, at.key, at.index, moved.index, At(after, moved), v);
    NumbersDrop(ctx, vs, |before.sources|, at, s, v);
    flag := Relocated(v, moved);
  }

  // ... and so is a mask that changes its own output.
  lemma UnstableMaskShows(ctx: Context, words: Wording, before: Report, vs: seq<Violation>, after: Report, at: Address) returns (flag: Violation)
    requires Rewritten(ctx, words, before, vs, after) && Stays(ctx, vs, before, at)
    requires var shown := Shown(ctx, vs, at, At(before, at)); ctx.texts.redact(shown) != shown
    ensures flag.SensitiveText? && !ByGate(ctx, vs, before, flag.at) && Shows(after, ctx, G9, flag)
  {
    var moved := KeptSentence(ctx, words, before, vs, after, at);
    flag := SensitiveText(moved);
  }

  lemma UnsafeMaskShows(ctx: Context, words: Wording, before: Report, found: seq<Violation>, vs: seq<Violation>, after: Report, at: Address)
    returns (rule: Rule, flag: Violation)
    requires Effect(ctx, words, before, found, vs, after) && Stays(ctx, vs, before, at)
    requires !ReadsWell(ctx, vs, |before.sources|, at, At(before, at))
    ensures Shows(after, ctx, rule, flag) && !Excused(ctx, vs, before, flag)
  {
    if !NumbersFit(ctx, vs, |before.sources|, at, At(before, at)) {
      var v :| v in ShownNumbers(ctx, vs, |before.sources|, at, At(before, at)) && !v.WithinTolerance?;
      rule := G4;
      flag := UnfitNumberShows(ctx, words, before, found, vs, after, at, v);
    } else {
      rule := G9;
      flag := UnstableMaskShows(ctx, words, before, vs, after, at);
    }
  }

  ghost predicate AllExcused(ctx: Context, vs: seq<Violation>, before: Report, left: seq<Violation>) {
    forall v | v in left :: Excused(ctx, vs, before, v)
  }

  lemma ExcusedIffMaskSafe(ctx: Context, words: Wording, before: Report, found: seq<Violation>, vs: seq<Violation>, after: Report, left: seq<Violation>)
    requires Effect(ctx, words, before, found, vs, after) && AllFlags(after, ctx, left)
    ensures AllExcused(ctx, vs, before, left) <==> MaskSafe(ctx, vs, before)
  {
    if MaskSafe(ctx, vs, before) {
      forall v | v in left && HasAddress(v) ensures Excused(ctx, vs, before, v) {
        var rule := FlaggedIsShown(after, ctx, v);
        FlagIsExcused(ctx, words, before, found, vs, after, rule, v);
      }
    } else {
      var at :| Stays(ctx, vs, before, at) && SensitiveText(at) in vs && !ReadsWell(ctx, vs, |before.sources|, at, At(before, at));
      var rule, flag := UnsafeMaskShows(ctx, words, before, found, vs, after, at);
      ShownIsFlagged(after, ctx, rule, flag);
    }
  }

  lemma NoneUncited(ctx: Context, words: Wording, before: Report, vs: seq<Violation>, after: Report, removed: nat, d: string)
    requires Round(ctx, words, before, vs, after, removed) && Listed(after.sources, d)
    ensures d in CitedDocs(after.sections, ctx.ledger)
  {
    CitedOnce(AllCitations(after.sections), ctx.ledger);
    SourceListShape(ctx, CitedDocs(after.sections, ctx.ledger));
  }

  lemma NothingMissing(ctx: Context, words: Wording, before: Report, found: seq<Violation>, vs: seq<Violation>, after: Report, removed: nat)
    requires Treatment(ctx, words, before, found, vs, after, removed)
    ensures forall key | key in Required(ctx) :: HasKey(after.sections, key)
    ensures forall d | Listed(after.sources, d) :: d in CitedDocs(after.sections, ctx.ledger)
  {
    forall key | key in Required(ctx) ensures HasKey(after.sections, key) {
      SectionsAreThere(ctx, words, before, found, vs, after, removed, key);
    }
    forall d | Listed(after.sources, d) ensures d in CitedDocs(after.sections, ctx.ledger) {
      NoneUncited(ctx, words, before, vs, after, removed, d);
    }
  }

  lemma NothingMissingIsFlagged(report: Report, ctx: Context, left: seq<Violation>)
    requires AllFlags(report, ctx, left)
    requires forall key | key in Required(ctx) :: HasKey(report.sections, key)
    requires forall d | Listed(report.sources, d) :: d in CitedDocs(report.sections, ctx.ledger)
    ensures forall v | v in left :: !v.MissingSection? && !v.ListedNotCited?
  {
    forall v | v in left ensures !v.MissingSection? && !v.ListedNotCited? {
      assert Flagged(report, ctx, v);
    }
  }

  // After one round no required section is missing and no listed source is uncited; and no rule flags a
  // sentence except as an approximation, or for gate prose the mask would change, exactly if what the
  // round masked reads well.
  lemma Convergence(ctx: Context, words: Wording, before: Report, after: Report, removed: nat)
    requires OneRound(ctx, words, before, after, removed)
    ensures var vs := ToRemedy(Violations(before, ctx));
      AllExcused(ctx, vs, before, Violations(after, ctx)) <==> MaskSafe(ctx, vs, before)
    ensures forall v | v in Violations(after, ctx) :: !v.MissingSection? && !v.ListedNotCited?
  {
    var found, left := Violations(before, ctx), Violations(after, ctx);
    ViolationsAreFlags(before, ctx);
    ViolationsAreFlags(after, ctx);
    ExcusedIffMaskSafe(ctx, words, before, found, ToRemedy(found), after, left);
    NothingMissing(ctx, words, before, found, ToRemedy(found), after, removed);
    NothingMissingIsFlagged(after, ctx, left);
  }

  // --- a second round ---

  ghost predicate MaskedNumbersFit(ctx: Context, vs: seq<Violation>, before: Report) {
    forall at | Stays(ctx, vs, before, at) && SensitiveText(at) in vs :: NumbersFit(ctx, vs, |before.sources|, at, At(before, at))
  }

  lemma {:induction false} NothingDoomed(ctx: Context, vs: seq<Violation>, key: SectionKey, before: seq<Sentence>)
    requires forall i: nat | i < |before| :: !Doomed(ctx, vs, Address(key, i), before[i])
    ensures |Survivors(ctx, vs, key, before)| == |before|
  {
    if before != [] { NothingDoomed(ctx, vs, key, before[..|before| - 1]); }
  }

  lemma {:induction false} SomethingDoomed(ctx: Context, vs: seq<Violation>, key: SectionKey, before: seq<Sentence>, i: nat)
    requires i < |before| && Doomed(ctx, vs, Address(key, i), before[i])
    ensures |Survivors(ctx, vs, key, before)| < |before|
  {
    if i < |before| - 1 { SomethingDoomed(ctx, vs, key, before[..|before| - 1], i); } else { SurvivorsAtMost(ctx, vs, key, before[..i]); }
  }

  lemma {:induction false} SurvivorsAtMost(ctx: Context, vs: seq<Violation>, key: SectionKey, before: seq<Sentence>)
    ensures |Survivors(ctx, vs, key, before)| <= |before|
  {
    if before != [] { SurvivorsAtMost(ctx, vs, key, before[..|before| - 1]); }
  }

  lemma HarmlessKeepAll(ctx: Context, vs: seq<Violation>, key: SectionKey, sentences: seq<Sentence>)
    requires forall v | v in vs && HasAddress(v) :: !Drops(v) && !v.UnknownCitation?
    ensures |Survivors(ctx, vs, key, sentences)| == |sentences|
  {
    forall i: nat | i < |sentences| ensures !Doomed(ctx, vs, Address(key, i), sentences[i]) {
      if Doomed(ctx, vs, Address(key, i), sentences[i]) {
        var v := DoomedHasCause(ctx, vs, Address(key, i), sentences[i]);
      }
    }
    NothingDoomed(ctx, vs, key, sentences);
  }

  lemma LostAdds(f: SectionKey -> int)
    requires forall key :: f(key) >= 0
    ensures Sum(f) == 0 <==> forall key :: f(key) == 0
  {
    if Sum(f) == 0 {
      forall key: SectionKey ensures f(key) == 0 {
        match key {
          case Summary => case KeyFindings => case Conflicting => case Recommendations => case Conclusion => case KnownGaps => case Sources =>
        }
      }
    }
  }

  // A flag of the new report that drops a sentence comes from a number of a masked text.
  lemma DropsOnlyUnfit(ctx: Context, words: Wording, before: Report, found: seq<Violation>, vs: seq<Violation>, after: Report, rule: Rule, v: Violation)
    requires Effect(ctx, words, before, found, vs, after) && MaskedNumbersFit(ctx, vs, before) && Shows(after, ctx, rule, v)
    ensures !Drops(v) && !v.UnknownCitation?
  {
    SentenceAfter(ctx, words, before, vs, after, v.at);
    if ByGate(ctx, vs, before, v.at) {
      GateProseFlags(ctx, words, vs, |Sentences(before.sections, v.at.key)|, |after.sources|, rule, v.at, At(after, v.at), v);
    } else {
      var origin := SurvivorFlags(ctx, before, found, vs, |after.sources|, rule, v.at, At(after, v.at), v);
      EverythingIsReported(before, ctx, found, vs, origin);
      if SensitiveText(origin) !in vs { UnmaskedReadsWell(ctx, vs, |before.sources|, origin, At(before, origin)); }
    }
  }

  // A second round, whatever it relabels or relists, removes no sentence exactly if every number in a
  // masked text is supported; with nothing masked it never does.
  lemma SecondRoundRemovesNothing(ctx: Context, words: Wording, before: Report, after: Report, removed: nat, again: Report, removedAgain: nat)
    requires OneRound(ctx, words, before, after, removed)
    requires Round(ctx, words, after, ToRemedy(Violations(after, ctx)), again, removedAgain)
    ensures removedAgain == 0 <==> MaskedNumbersFit(ctx, ToRemedy(Violations(before, ctx)), before)
  {
    var found, left := Violations(before, ctx), Violations(after, ctx);
    ViolationsAreFlags(before, ctx);
    ViolationsAreFlags(after, ctx);
    SecondTreatment(ctx, words, before, found, ToRemedy(found), after, removed, left, ToRemedy(left), again, removedAgain);
  }

  lemma SecondTreatment(ctx: Context, words: Wording, before: Report, found: seq<Violation>, vs: seq<Violation>, after: Report, removed: nat,
                        left: seq<Violation>, more: seq<Violation>, again: Report, removedAgain: nat)
    requires Treatment(ctx, words, before, found, vs, after, removed) && Treatment(ctx, words, after, left, more, again, removedAgain)
    ensures removedAgain == 0 <==> MaskedNumbersFit(ctx, vs, before)
  {
    var lost := key => Lost(ctx, more, after.sections, key);
    RemovedIsLost(ctx, words, after, more, again, removedAgain, lost);
    LostAdds(lost);
    LostIffUnfit(ctx, words, before, found, vs, after, left, more);
  }

  lemma RemovedIsLost(ctx: Context, words: Wording, before: Report, vs: seq<Violation>, after: Report, removed: nat, lost: SectionKey -> int)
    requires Round(ctx, words, before, vs, after, removed) && forall key :: lost(key) == Lost(ctx, vs, before.sections, key)
    ensures removed == Sum(lost) && forall key :: lost(key) >= 0
  {
    forall key ensures lost(key) >= 0 { SurvivorsAtMost(ctx, vs, key, Sentences(before.sections, key)); }
  }

  lemma LostIffUnfit(ctx: Context, words: Wording, before: Report, found: seq<Violation>, vs: seq<Violation>, after: Report,
                     left: seq<Violation>, more: seq<Violation>)
    requires Effect(ctx, words, before, found, vs, after) && AllFlags(after, ctx, left) && Selected(left, more)
    ensures (forall key :: Lost(ctx, more, after.sections, key) == 0) <==> MaskedNumbersFit(ctx, vs, before)
  {
    if MaskedNumbersFit(ctx, vs, before) {
      forall v | v in more && HasAddress(v) ensures !Drops(v) && !v.UnknownCitation? {
        var rule := FlaggedIsShown(after, ctx, v);
        DropsOnlyUnfit(ctx, words, before, found, vs, after, rule, v);
      }
      forall key ensures Lost(ctx, more, after.sections, key) == 0 { HarmlessKeepAll(ctx, more, key, Sentences(after.sections, key)); }
    } else {
      var at :| Stays(ctx, vs, before, at) && SensitiveText(at) in vs && !NumbersFit(ctx, vs, |before.sources|, at, At(before, at));
      var v :| v in ShownNumbers(ctx, vs, |before.sources|, at, At(before, at)) && !v.WithinTolerance?;
      var flag := UnfitNumberShows(ctx, words, before, found, vs, after, at, v);
      ShownIsFlagged(after, ctx, G4, flag);
      DropDooms(ctx, more, flag, flag.at, At(after, flag.at));
      SomethingDoomed(ctx, more, flag.at.key, Sentences(after.sections, flag.at.key), flag.at.index);
      assert Lost(ctx, more, after.sections, flag.at.key) > 0;
    }
  }
}
