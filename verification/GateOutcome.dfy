/**
 What one round leaves of the whole report, told from the report it starts with: which documents are
 still cited, which source rules still fire, and exactly when nothing but a lack of findings can fail.
 */
module GateOutcome {
  import opened Wrappers
  import opened Reports
  import opened GateRules
  import opened GateRemedy
  import opened GateSentences
  import opened GateCitations
  import opened GateTheorems
  import opened GateSources
  import opened GateConvergence

  // --- the documents still cited ---

  // Behind a finding that a kept sentence cites.
  ghost predicate StillCited(ctx: Context, vs: seq<Violation>, before: Report, d: string) {
    exists at :: Stays(ctx, vs, before, at) && RestsOn(At(before, at), ctx.ledger, d)
  }

  lemma TreatedRests(ctx: Context, vs: seq<Violation>, at: Address, s: Sentence, d: string)
    ensures RestsOn(Treated(ctx, vs, at, s), ctx.ledger, d) <==> RestsOn(s, ctx.ledger, d)
  {
    TreatedShape(ctx, vs, at, s);
    KnownMembers(s.clusterIds, ctx.ledger);
    var t := Treated(ctx, vs, at, s);
    assert forall c | c in ctx.ledger.clusters :: c in t.clusterIds + t.findingRefs <==> c in s.clusterIds + s.findingRefs;
  }

  lemma CitedAfterwards(ctx: Context, words: Wording, before: Report, vs: seq<Violation>, after: Report, d: string)
    requires Rewritten(ctx, words, before, vs, after) && DistinctKeys(after.sections)
    ensures d in CitedDocs(after.sections, ctx.ledger) <==> StillCited(ctx, vs, before, d)
  {
    DocumentMembers(after.sections, ctx.ledger, d);
    if key :| CitesDoc(Sentences(after.sections, key), ctx.ledger, d) {
      var p: nat :| p < |Sentences(after.sections, key)| && RestsOn(Sentences(after.sections, key)[p], ctx.ledger, d);
      RestsOnKept(ctx, words, before, vs, after, Address(key, p), d);
    }
    if at :| Stays(ctx, vs, before, at) && RestsOn(At(before, at), ctx.ledger, d) {
      var moved := KeptSentence(ctx, words, before, vs, after, at);
      TreatedRests(ctx, vs, at, At(before, at), d);
      assert CitesDoc(Sentences(after.sections, moved.key), ctx.ledger, d);
    }
  }

  lemma RestsOnKept(ctx: Context, words: Wording, before: Report, vs: seq<Violation>, after: Report, at: Address, d: string)
    requires Rewritten(ctx, words, before, vs, after) && InReport(after.sections, at) && RestsOn(At(after, at), ctx.ledger, d)
    ensures StillCited(ctx, vs, before, d)
  {
    var were := Sentences(before.sections, at.key);
    SentenceAfter(ctx, words, before, vs, after, at);
    if ByGate(ctx, vs, before, at) {
      TailIsAuthored(ctx, words, vs, at.key, |were|);
    } else {
      var i := SurvivorOrigin(ctx, vs, at.key, were, at.index);
      var origin := Address(at.key, i);
      TreatedRests(ctx, vs, origin, At(before, origin), d);
      assert Stays(ctx, vs, before, origin);
    }
  }

  // A round adds no citation.
  lemma CitedBefore(ctx: Context, before: Report, vs: seq<Violation>, d: string)
    requires DistinctKeys(before.sections) && StillCited(ctx, vs, before, d)
    ensures d in CitedDocs(before.sections, ctx.ledger)
  {
    var at :| Stays(ctx, vs, before, at) && RestsOn(At(before, at), ctx.ledger, d);
    assert CitesDoc(Sentences(before.sections, at.key), ctx.ledger, d);
    DocumentMembers(before.sections, ctx.ledger, d);
  }

  // --- the source list ---

  // Each document of `docs` has a valid URL of its own.
  ghost predicate UrlsProper(ctx: Context, cited: string -> bool) {
    && (forall d | cited(d) :: UrlOf(ctx, d).Some?)
    && (forall d, e | cited(d) && cited(e) && d != e :: UrlOf(ctx, d) != UrlOf(ctx, e))
  }

  // And that URL is a fixed point of canonicalisation.
  ghost predicate UrlsStable(ctx: Context, cited: string -> bool) {
    forall d | cited(d) && UrlOf(ctx, d).Some? :: ctx.texts.canonical(UrlOf(ctx, d).value) == UrlOf(ctx, d)
  }

  // Masking its title twice is masking it once.
  ghost predicate TitlesStable(ctx: Context, cited: string -> bool) {
    forall d | cited(d) && UrlOf(ctx, d).Some? :: ctx.texts.redact(TitleOf(ctx, d)) == TitleOf(ctx, d)
  }

  function TitleOf(ctx: Context, d: string): string {
    if UrlOf(ctx, d).Some? then Entry(ctx, d, UrlOf(ctx, d).value, 0).title else ""
  }

  lemma ProperIsSetwise(ctx: Context, docs: seq<string>)
    requires NoRepeats(docs)
    ensures ProperUrls(ctx, docs) <==> UrlsProper(ctx, d => d in docs)
  {
    if ProperUrls(ctx, docs) {
      forall d | d in docs ensures UrlOf(ctx, d).Some? { var i :| 0 <= i < |docs| && docs[i] == d; }
      forall d, e | d in docs && e in docs && d != e ensures UrlOf(ctx, d) != UrlOf(ctx, e) {
        var i :| 0 <= i < |docs| && docs[i] == d;
        var j :| 0 <= j < |docs| && docs[j] == e;
        assert i < j || j < i;
      }
    }
    if UrlsProper(ctx, d => d in docs) {
      forall i, j | 0 <= i < j < |docs| ensures UrlOf(ctx, docs[i]) != UrlOf(ctx, docs[j]) {
        assert docs[i] in docs && docs[j] in docs && docs[i] != docs[j];
      }
      assert forall i | 0 <= i < |docs| :: docs[i] in docs;
    }
  }

  // Every URL of a cited document is listed, if perhaps for another document.
  lemma {:induction false} UrlsListed(ctx: Context, docs: seq<string>, url: string)
    ensures Lists(SourceList(ctx, docs), url) <==> exists d :: d in docs && UrlOf(ctx, d) == Some(url)
  {
    if docs != [] {
      var front, last := docs[..|docs| - 1], docs[|docs| - 1];
      assert docs == front + [last];
      UrlsListed(ctx, front, url);
      var was, now := SourceList(ctx, front), SourceList(ctx, docs);
      if now != was { ListsAppend(was, now[|was|], url); }
    }
  }

  lemma ListsAppend(sources: seq<Source>, source: Source, url: string)
    ensures Lists(sources + [source], url) <==> Lists(sources, url) || source.url == url
  {
    var all := sources + [source];
    if i :| 0 <= i < |sources| && sources[i].url == url { assert all[i].url == url; }
    assert all[|sources|] == source;
  }

  lemma StableIfListed(ctx: Context, docs: seq<string>)
    ensures (forall i | 0 <= i < |SourceList(ctx, docs)| :: ctx.texts.canonical(SourceList(ctx, docs)[i].url) == Some(SourceList(ctx, docs)[i].url))
      <==> UrlsStable(ctx, d => d in docs)
  {
    var sources := SourceList(ctx, docs);
    if UrlsStable(ctx, d => d in docs) {
      forall i | 0 <= i < |sources| ensures ctx.texts.canonical(sources[i].url) == Some(sources[i].url) {
        UrlsListed(ctx, docs, sources[i].url);
        assert Lists(sources, sources[i].url);
      }
    } else {
      var d :| d in docs && UrlOf(ctx, d).Some? && ctx.texts.canonical(UrlOf(ctx, d).value) != UrlOf(ctx, d);
      UrlsListed(ctx, docs, UrlOf(ctx, d).value);
    }
  }

  lemma SourceFlags(report: Report, ctx: Context, left: seq<Violation>)
    requires AllFlags(report, ctx, left)
    ensures (forall d :: CitedNotListed(d) !in left) <==> forall d | d in CitedDocs(report.sections, ctx.ledger) :: Listed(report.sources, d)
    ensures (forall v | v in left :: !AboutSources(v)) <==>
      forall i: nat, v :: i < |report.sources| && v in CheckSource(report.sources, i, ctx.texts.canonical) ==> !AboutSources(v)
  {
    forall d ensures CitedNotListed(d) in left <==> d in CitedDocs(report.sections, ctx.ledger) && !Listed(report.sources, d) {
      assert CitedNotListed(d) in left <==> Flagged(report, ctx, CitedNotListed(d));
    }
    forall v | AboutSources(v)
      ensures v in left <==> FlagsSource(report.sources, |report.sources|, ctx.texts.canonical, v)
    {
      assert v in left <==> Flagged(report, ctx, v);
    }
  }

  // What G3 and G8 find on a derived source list.
  lemma DerivedSources(report: Report, ctx: Context, left: seq<Violation>, docs: seq<string>)
    requires AllFlags(report, ctx, left) && docs == CitedDocs(report.sections, ctx.ledger) && report.sources == SourceList(ctx, docs)
    ensures (forall d :: CitedNotListed(d) !in left) <==> UrlsProper(ctx, d => d in docs)
    ensures (forall v | v in left :: !AboutSources(v)) <==> UrlsStable(ctx, d => d in docs)
  {
    CitedOnce(AllCitations(report.sections), ctx.ledger);
    AllListed(ctx, docs);
    ProperIsSetwise(ctx, docs);
    UrlsAfterwards(ctx, report.sources, docs);
    StableIfListed(ctx, docs);
    SourceFlags(report, ctx, left);
  }

  // After a round no cited document is missing from the list exactly if those still cited have valid
  // URLs of their own, and no listed URL is flagged exactly if their URLs are stable.
  lemma SourcesAfterwards(ctx: Context, words: Wording, before: Report, after: Report, removed: nat)
    requires OneRound(ctx, words, before, after, removed)
    ensures var vs := ToRemedy(Violations(before, ctx));
      && ((forall d :: CitedNotListed(d) !in Violations(after, ctx)) <==> UrlsProper(ctx, d => StillCited(ctx, vs, before, d)))
      && ((forall v | v in Violations(after, ctx) :: !AboutSources(v)) <==> UrlsStable(ctx, d => StillCited(ctx, vs, before, d)))
  {
    var vs, docs := ToRemedy(Violations(before, ctx)), CitedDocs(after.sections, ctx.ledger);
    ViolationsAreFlags(after, ctx);
    DerivedSources(after, ctx, Violations(after, ctx), docs);
    forall d ensures d in docs <==> StillCited(ctx, vs, before, d) { CitedAfterwards(ctx, words, before, vs, after, d); }
    SameDocuments(ctx, d => d in docs, d => StillCited(ctx, vs, before, d));
  }

  lemma SameDocuments(ctx: Context, cited: string -> bool, likewise: string -> bool)
    requires forall d :: cited(d) <==> likewise(d)
    ensures UrlsProper(ctx, cited) <==> UrlsProper(ctx, likewise)
    ensures UrlsStable(ctx, cited) <==> UrlsStable(ctx, likewise)
    ensures TitlesStable(ctx, cited) <==> TitlesStable(ctx, likewise)
  {
  }

  // --- titles ---

  lemma {:induction false} TitleFlags(sources: seq<Source>, redact: string -> string)
    ensures SensitiveTitles(sources, redact) == [] <==> forall i | 0 <= i < |sources| :: redact(sources[i].title) == sources[i].title
  {
    if sources != [] { TitleFlags(sources[..|sources| - 1], redact); }
  }

  lemma {:induction false} ListedTitles(ctx: Context, docs: seq<string>)
    ensures forall i | 0 <= i < |SourceList(ctx, docs)| :: SourceList(ctx, docs)[i].title == TitleOf(ctx, SourceList(ctx, docs)[i].docId)
  {
    if docs != [] { ListedTitles(ctx, docs[..|docs| - 1]); }
  }

  // With proper URLs, every cited document is listed under its masked title.
  lemma TitlesAfterwards(ctx: Context, docs: seq<string>)
    requires NoRepeats(docs) && UrlsProper(ctx, d => d in docs)
    ensures SensitiveTitles(SourceList(ctx, docs), ctx.texts.redact) == [] <==> TitlesStable(ctx, d => d in docs)
  {
    var sources := SourceList(ctx, docs);
    TitleFlags(sources, ctx.texts.redact);
    ListedTitles(ctx, docs);
    SourceListShape(ctx, docs);
    ProperIsSetwise(ctx, docs);
    AllListed(ctx, docs);
    if forall i | 0 <= i < |sources| :: ctx.texts.redact(sources[i].title) == sources[i].title {
      forall d | d in docs ensures ctx.texts.redact(TitleOf(ctx, d)) == TitleOf(ctx, d) {
        var i :| 0 <= i < |sources| && sources[i].docId == d;
      }
    }
  }

  // --- when a round is enough ---

  // The gate's own wording contains nothing the mask would change.
  ghost predicate PlainWords(ctx: Context, words: Wording) {
    ctx.texts.redact(words.none) == words.none && forall subq :: ctx.texts.redact(words.gap(subq)) == words.gap(subq)
  }

  // A listed gap stays listed.
  ghost predicate GapsSafe(ctx: Context, vs: seq<Violation>, before: Report) {
    forall id | ExhaustedIn(ctx.ledger.plan, id) && HasGap(Sentences(before.sections, KnownGaps), id) :: CarrierSurvives(ctx, before, vs, id)
  }

  ghost predicate SourcesSafe(ctx: Context, cited: string -> bool) {
    UrlsProper(ctx, cited) && UrlsStable(ctx, cited) && TitlesStable(ctx, cited)
  }

  ghost predicate RoundSafe(ctx: Context, vs: seq<Violation>, before: Report) {
    MaskSafe(ctx, vs, before) && GapsSafe(ctx, vs, before) && SourcesSafe(ctx, d => StillCited(ctx, vs, before, d))
  }

  ghost predicate OnlyFindingsLack(left: seq<Violation>) {
    forall v | v in left && IsError(v) :: v.NoSupportedFinding?
  }

  lemma {:induction false} TailIsPlain(ctx: Context, words: Wording, vs: seq<Violation>, key: SectionKey, held: nat)
    requires PlainWords(ctx, words)
    ensures forall s | s in Tail(ctx, words, vs, key, held) :: ctx.texts.redact(s.text) == s.text
  {
    if vs != [] { TailIsPlain(ctx, words, vs[..|vs| - 1], key, held); }
  }

  // A sentence of the new report is an error only through the mask.
  lemma SentenceErrors(ctx: Context, words: Wording, before: Report, found: seq<Violation>, vs: seq<Violation>, after: Report, rule: Rule, v: Violation)
    requires Effect(ctx, words, before, found, vs, after) && MaskSafe(ctx, vs, before) && PlainWords(ctx, words)
    requires Shows(after, ctx, rule, v)
    ensures v.WithinTolerance?
  {
    FlagIsExcused(ctx, words, before, found, vs, after, rule, v);
    if v.SensitiveText? && ByGate(ctx, vs, before, v.at) {
      SentenceAfter(ctx, words, before, vs, after, v.at);
      TailIsPlain(ctx, words, vs, v.at.key, |Sentences(before.sections, v.at.key)|);
      MaskFlag(rule, ctx, |after.sources|, v.at, At(after, v.at), v);
    }
  }

  lemma MaskFlag(rule: Rule, ctx: Context, listed: nat, at: Address, s: Sentence, v: Violation)
    requires v in AtSentence(rule, ctx, listed, at, s)
    ensures v.SensitiveText? ==> ctx.texts.redact(s.text) != s.text
  {
    if rule == G3 { UnknownMembers(at, s.clusterIds, ctx.ledger); }
    if rule == G12 { IneligibleMembers(at, s.clusterIds + s.findingRefs, ctx.ledger); }
    if rule == G4 && s.kind != Meta {
      NumberFlags(at, s.text, ctx.texts.quantities(s.text), if s.kind == Fact then s.clusterIds else s.findingRefs, ctx, listed, v);
    }
  }

  lemma MaskIsSafeIff(ctx: Context, words: Wording, before: Report, found: seq<Violation>, vs: seq<Violation>, after: Report, left: seq<Violation>)
    requires Effect(ctx, words, before, found, vs, after) && AllFlags(after, ctx, left) && PlainWords(ctx, words)
    ensures (forall v | v in left && HasAddress(v) && IsError(v) :: false) <==> MaskSafe(ctx, vs, before)
  {
    if MaskSafe(ctx, vs, before) {
      forall v | v in left && HasAddress(v) ensures v.WithinTolerance? {
        var rule := FlaggedIsShown(after, ctx, v);
        SentenceErrors(ctx, words, before, found, vs, after, rule, v);
      }
    } else {
      var at :| Stays(ctx, vs, before, at) && SensitiveText(at) in vs && !ReadsWell(ctx, vs, |before.sources|, at, At(before, at));
      UnsafeMaskIsError(ctx, words, before, found, vs, after, left, at);
    }
  }

  lemma UnsafeMaskIsError(ctx: Context, words: Wording, before: Report, found: seq<Violation>, vs: seq<Violation>, after: Report, left: seq<Violation>, at: Address)
    requires Effect(ctx, words, before, found, vs, after) && AllFlags(after, ctx, left)
    requires Stays(ctx, vs, before, at) && !ReadsWell(ctx, vs, |before.sources|, at, At(before, at))
    ensures exists v :: v in left && HasAddress(v) && IsError(v)
  {
    if !NumbersFit(ctx, vs, |before.sources|, at, At(before, at)) {
      var v :| v in ShownNumbers(ctx, vs, |before.sources|, at, At(before, at)) && !v.WithinTolerance?;
      var flag := UnfitNumberShows(ctx, words, before, found, vs, after, at, v);
      ShownIsFlagged(after, ctx, G4, flag);
      assert IsError(flag);
    } else {
      var flag := UnstableMaskShows(ctx, words, before, vs, after, at);
      ShownIsFlagged(after, ctx, G9, flag);
      assert IsError(flag);
    }
  }

  lemma GapsIff(ctx: Context, words: Wording, before: Report, found: seq<Violation>, vs: seq<Violation>, after: Report, left: seq<Violation>)
    requires Effect(ctx, words, before, found, vs, after) && AllFlags(after, ctx, left)
    ensures (forall id :: MissingGap(id) !in left) <==> GapsSafe(ctx, vs, before)
  {
    forall id
      ensures MissingGap(id) in left <==>
        ExhaustedIn(ctx.ledger.plan, id) && HasGap(Sentences(before.sections, KnownGaps), id) && !CarrierSurvives(ctx, before, vs, id)
    {
      GapFlag(after, ctx, left, id);
      if ExhaustedIn(ctx.ledger.plan, id) { GapsAfterTreatment(ctx, words, before, found, vs, after, id); }
    }
  }

  lemma TitlesIff(report: Report, ctx: Context, left: seq<Violation>)
    requires AllFlags(report, ctx, left)
    ensures (forall n :: SensitiveSource(n) !in left) <==> SensitiveTitles(report.sources, ctx.texts.redact) == []
  {
    TitleMembers(report.sources, ctx.texts.redact);
    forall n ensures SensitiveSource(n) in left <==> SensitiveSource(n) in SensitiveTitles(report.sources, ctx.texts.redact) {
      assert SensitiveSource(n) in left <==> Flagged(report, ctx, SensitiveSource(n));
    }
    var flags := SensitiveTitles(report.sources, ctx.texts.redact);
    if flags != [] { assert flags[0] in flags; }
  }

  // The errors by kind, once no section is missing and no listed source uncited.
  lemma ErrorsByKind(left: seq<Violation>)
    requires forall v | v in left :: !v.MissingSection? && !v.ListedNotCited?
    ensures OnlyFindingsLack(left) <==>
      && (forall v | v in left && HasAddress(v) && IsError(v) :: false)
      && (forall id :: MissingGap(id) !in left) && (forall d :: CitedNotListed(d) !in left)
      && (forall v | v in left :: !AboutSources(v)) && (forall n :: SensitiveSource(n) !in left)
  {
  }

  // The derived list and its documents, under any description of which documents those are.
  lemma SourcesIff(report: Report, ctx: Context, left: seq<Violation>, cited: string -> bool)
    requires AllFlags(report, ctx, left) && report.sources == SourceList(ctx, CitedDocs(report.sections, ctx.ledger))
    requires forall d :: d in CitedDocs(report.sections, ctx.ledger) <==> cited(d)
    ensures (forall d :: CitedNotListed(d) !in left) && (forall v | v in left :: !AboutSources(v)) && (forall n :: SensitiveSource(n) !in left)
      <==> SourcesSafe(ctx, cited)
  {
    var docs := CitedDocs(report.sections, ctx.ledger);
    DerivedSources(report, ctx, left, docs);
    SameDocuments(ctx, d => d in docs, cited);
    TitlesIff(report, ctx, left);
    CitedOnce(AllCitations(report.sections), ctx.ledger);
    if UrlsProper(ctx, d => d in docs) { TitlesAfterwards(ctx, docs); }
  }

  // After one round nothing but the lack of a supported finding can fail the report exactly if what it
  // masked reads well, no listed gap lost its last carrier, and the documents still cited have valid,
  // distinct and stable URLs and stably masked titles.
  lemma OneRoundIsEnough(ctx: Context, words: Wording, before: Report, after: Report, removed: nat)
    requires OneRound(ctx, words, before, after, removed) && PlainWords(ctx, words)
    ensures OnlyFindingsLack(Violations(after, ctx)) <==> RoundSafe(ctx, ToRemedy(Violations(before, ctx)), before)
  {
    var found, left := Violations(before, ctx), Violations(after, ctx);
    ViolationsAreFlags(before, ctx);
    ViolationsAreFlags(after, ctx);
    Convergence(ctx, words, before, after, removed);
    EnoughIff(ctx, words, before, found, ToRemedy(found), after, left);
  }

  lemma EnoughIff(ctx: Context, words: Wording, before: Report, found: seq<Violation>, vs: seq<Violation>, after: Report, left: seq<Violation>)
    requires Effect(ctx, words, before, found, vs, after) && AllFlags(after, ctx, left) && PlainWords(ctx, words) && DistinctKeys(after.sections)
    requires after.sources == SourceList(ctx, CitedDocs(after.sections, ctx.ledger))
    requires forall v | v in left :: !v.MissingSection? && !v.ListedNotCited?
    ensures OnlyFindingsLack(left) <==> RoundSafe(ctx, vs, before)
  {
    ErrorsByKind(left);
    MaskIsSafeIff(ctx, words, before, found, vs, after, left);
    GapsIff(ctx, words, before, found, vs, after, left);
    forall d ensures d in CitedDocs(after.sections, ctx.ledger) <==> StillCited(ctx, vs, before, d) {
      CitedAfterwards(ctx, words, before, vs, after, d);
    }
    SourcesIff(after, ctx, left, d => StillCited(ctx, vs, before, d));
  }

  // --- conditions that need no look at the round ---

  // Nothing to mask, gap sentences that cite nothing, and valid, distinct, stable URLs of the documents cited.
  ghost predicate Tidy(ctx: Context, before: Report) {
    && (forall at :: SensitiveText(at) !in Violations(before, ctx))
    && (forall s | s in Sentences(before.sections, KnownGaps) && (exists id :: Gap(id) in s.labels) :: Authored(s))
    && SourcesSafe(ctx, d => d in CitedDocs(before.sections, ctx.ledger))
  }

  lemma FewerDocuments(ctx: Context, cited: string -> bool, more: string -> bool)
    requires SourcesSafe(ctx, more) && forall d | cited(d) :: more(d)
    ensures SourcesSafe(ctx, cited)
  {
  }

  lemma TidyIsSafe(ctx: Context, before: Report, found: seq<Violation>, vs: seq<Violation>)
    requires DistinctKeys(before.sections) && AllFlags(before, ctx, found) && Selected(found, vs) && (forall at :: SensitiveText(at) !in found)
    requires forall s | s in Sentences(before.sections, KnownGaps) && (exists id :: Gap(id) in s.labels) :: Authored(s)
    requires SourcesSafe(ctx, d => d in CitedDocs(before.sections, ctx.ledger))
    ensures RoundSafe(ctx, vs, before)
  {
    forall d | StillCited(ctx, vs, before, d) ensures d in CitedDocs(before.sections, ctx.ledger) { CitedBefore(ctx, before, vs, d); }
    FewerDocuments(ctx, d => StillCited(ctx, vs, before, d), d => d in CitedDocs(before.sections, ctx.ledger));
    var gaps := Sentences(before.sections, KnownGaps);
    forall id | HasGap(gaps, id) ensures CarrierSurvives(ctx, before, vs, id) {
      var i: nat :| i < |gaps| && Gap(id) in gaps[i].labels;
      assert gaps[i] in gaps;
      AuthoredSurvives(before, ctx, found, vs, Address(KnownGaps, i));
    }
  }

  // So a tidy report fails after one round only for want of a supported finding.
  lemma TidyReportsConverge(ctx: Context, words: Wording, before: Report, after: Report, removed: nat)
    requires OneRound(ctx, words, before, after, removed) && PlainWords(ctx, words) && Tidy(ctx, before)
    ensures OnlyFindingsLack(Violations(after, ctx))
  {
    var found := Violations(before, ctx);
    ViolationsAreFlags(before, ctx);
    TidyIsSafe(ctx, before, found, ToRemedy(found));
    OneRoundIsEnough(ctx, words, before, after, removed);
  }
}
