/** Which violations a report has: membership in the list the rules produce, told by kind of violation. */
module GateTheorems {
  import opened Wrappers
  import opened Sorting
  import opened NameOrder
  import opened Evidence
  import opened Reports
  import opened GateRules
  import opened GateRemedy
  import opened GateSentences

  // --- the violation list, rule by rule ---

  lemma {:induction false} ScanSentencesMembers(rule: Rule, ctx: Context, listed: nat, key: SectionKey, sentences: seq<Sentence>, v: Violation)
    ensures v in ScanSentences(rule, ctx, listed, key, sentences) <==>
      exists i: nat :: i < |sentences| && v in AtSentence(rule, ctx, listed, Address(key, i), sentences[i])
  {
    if sentences != [] {
      var front := sentences[..|sentences| - 1];
      ScanSentencesMembers(rule, ctx, listed, key, front, v);
      if i: nat :| i < |front| && v in AtSentence(rule, ctx, listed, Address(key, i), front[i]) {
        assert sentences[i] == front[i];
      }
      if i: nat :| i < |sentences| && v in AtSentence(rule, ctx, listed, Address(key, i), sentences[i]) {
        assert i == |front| || front[i] == sentences[i];
      }
    }
  }

  lemma {:induction false} ScanSectionsMembers(rule: Rule, ctx: Context, listed: nat, sections: seq<Section>, v: Violation)
    ensures v in ScanSections(rule, ctx, listed, sections) <==>
      exists j: nat :: j < |sections| && v in ScanSentences(rule, ctx, listed, sections[j].key, sections[j].sentences)
  {
    if sections != [] {
      var front := sections[..|sections| - 1];
      ScanSectionsMembers(rule, ctx, listed, front, v);
      if j: nat :| j < |front| && v in ScanSentences(rule, ctx, listed, front[j].key, front[j].sentences) {
        assert sections[j] == front[j];
      }
      if j: nat :| j < |sections| && v in ScanSentences(rule, ctx, listed, sections[j].key, sections[j].sentences) {
        assert j == |front| || front[j] == sections[j];
      }
    }
  }

  ghost predicate FlagsAt(rule: Rule, ctx: Context, listed: nat, sections: seq<Section>, v: Violation) {
    HasAddress(v) && InReport(sections, v.at) && v in AtSentence(rule, ctx, listed, v.at, Sentences(sections, v.at.key)[v.at.index])
  }

  // With distinct section keys an address names one sentence, and a scan flags exactly it.
  lemma ScanMembers(rule: Rule, ctx: Context, listed: nat, sections: seq<Section>, v: Violation)
    requires DistinctKeys(sections)
    ensures v in ScanSections(rule, ctx, listed, sections) <==> FlagsAt(rule, ctx, listed, sections, v)
  {
    ScanSectionsMembers(rule, ctx, listed, sections, v);
    if j: nat :| j < |sections| && v in ScanSentences(rule, ctx, listed, sections[j].key, sections[j].sentences) {
      FlaggedInSection(rule, ctx, listed, sections, j, v);
    }
    if FlagsAt(rule, ctx, listed, sections, v) {
      var j := ScannedSection(rule, ctx, listed, sections, v);
    }
  }

  lemma FlaggedInSection(rule: Rule, ctx: Context, listed: nat, sections: seq<Section>, j: nat, v: Violation)
    requires DistinctKeys(sections) && j < |sections| && v in ScanSentences(rule, ctx, listed, sections[j].key, sections[j].sentences)
    ensures FlagsAt(rule, ctx, listed, sections, v)
  {
    ScanSentencesMembers(rule, ctx, listed, sections[j].key, sections[j].sentences, v);
    var i: nat :| i < |sections[j].sentences| && v in AtSentence(rule, ctx, listed, Address(sections[j].key, i), sections[j].sentences[i]);
    FlagsMove(rule, ctx, listed, sections[j].key, i, i, sections[j].sentences[i], v);
    LookupIsUnique(sections, sections[j]);
  }

  lemma ScannedSection(rule: Rule, ctx: Context, listed: nat, sections: seq<Section>, v: Violation) returns (j: nat)
    requires FlagsAt(rule, ctx, listed, sections, v)
    ensures j < |sections| && v in ScanSentences(rule, ctx, listed, sections[j].key, sections[j].sentences)
  {
    LookupFinds(sections, v.at.key);
    var section := Lookup(sections, v.at.key).value;
    j :| 0 <= j < |sections| && sections[j] == section;
    ScanSentencesMembers(rule, ctx, listed, section.key, section.sentences, v);
    assert v.at == Address(section.key, v.at.index);
  }

  lemma {:induction false} MissingMembers(required: seq<SectionKey>, sections: seq<Section>)
    ensures forall v :: v in MissingOf(required, sections) <==>
      v.MissingSection? && v.section in required && !HasKey(sections, v.section)
  {
    if required != [] {
      MissingMembers(required[..|required| - 1], sections);
      assert required == required[..|required| - 1] + [required[|required| - 1]];
    }
  }

  ghost predicate Listed(sources: seq<Source>, d: string) {
    exists i | 0 <= i < |sources| :: sources[i].docId == d
  }

  lemma {:induction false} ListedMembers(sources: seq<Source>, cited: seq<string>)
    ensures forall v :: v in ListedUncited(sources, cited) <==> v.ListedNotCited? && Listed(sources, v.docId) && v.docId !in cited
  {
    if sources != [] {
      var front, last := sources[..|sources| - 1], sources[|sources| - 1];
      ListedMembers(front, cited);
      forall d ensures Listed(sources, d) <==> Listed(front, d) || d == last.docId {
        if i :| 0 <= i < |front| && front[i].docId == d { assert sources[i].docId == d; }
        assert sources[|front|].docId == last.docId;
      }
    }
  }

  lemma {:induction false} UnlistedMembers(cited: seq<string>, sources: seq<Source>)
    ensures forall v :: v in CitedUnlisted(cited, sources) <==> v.CitedNotListed? && v.docId in cited && !Listed(sources, v.docId)
  {
    if cited != [] {
      UnlistedMembers(cited[..|cited| - 1], sources);
      assert cited == cited[..|cited| - 1] + [cited[|cited| - 1]];
    }
  }

  ghost predicate ExhaustedIn(plan: seq<SubQuestion>, id: string) {
    exists i | 0 <= i < |plan| :: plan[i].status == Exhausted && plan[i].id == id
  }

  lemma {:induction false} GapMembers(plan: seq<SubQuestion>, gaps: seq<Sentence>)
    ensures forall v :: v in CheckGaps(plan, gaps) <==> v.MissingGap? && ExhaustedIn(plan, v.subq) && !HasGap(gaps, v.subq)
  {
    if plan != [] {
      var front, last := plan[..|plan| - 1], plan[|plan| - 1];
      GapMembers(front, gaps);
      forall id ensures ExhaustedIn(plan, id) <==> ExhaustedIn(front, id) || (last.status == Exhausted && last.id == id) {
        if i :| 0 <= i < |front| && front[i].status == Exhausted && front[i].id == id { assert plan[i].id == id; }
        assert plan[|front|] == last;
      }
    }
  }

  predicate AboutSources(v: Violation) {
    v.InvalidUrl? || v.NotCanonical? || v.DuplicateSource?
  }

  lemma {:induction false} UrlMembers(sources: seq<Source>, n: nat, canonical: string -> Option<string>, v: Violation)
    requires n <= |sources|
    ensures v in CheckUrls(sources, n, canonical) <==> FlagsSource(sources, n, canonical, v)
    ensures v in CheckUrls(sources, n, canonical) ==> AboutSources(v)
  {
    if n > 0 {
      UrlMembers(sources, n - 1, canonical, v);
      InEither(v, CheckUrls(sources, n - 1, canonical), CheckSource(sources, n - 1, canonical));
      if v in CheckSource(sources, n - 1, canonical) { SourceFlagsAreAbout(sources, n - 1, canonical, v); }
      FlagsGrow(sources, n, canonical, v);
    }
  }

  lemma FlagsGrow(sources: seq<Source>, n: nat, canonical: string -> Option<string>, v: Violation)
    requires 0 < n <= |sources|
    ensures FlagsSource(sources, n, canonical, v) <==> FlagsSource(sources, n - 1, canonical, v) || v in CheckSource(sources, n - 1, canonical)
  {
    if i: nat :| i < n && v in CheckSource(sources, i, canonical) {
      if i < n - 1 { assert FlagsSource(sources, n - 1, canonical, v); }
    }
  }

  ghost predicate FlagsSource(sources: seq<Source>, n: nat, canonical: string -> Option<string>, v: Violation)
    requires n <= |sources|
  {
    exists i: nat :: i < n && v in CheckSource(sources, i, canonical)
  }

  lemma SourceFlagsAreAbout(sources: seq<Source>, i: nat, canonical: string -> Option<string>, v: Violation)
    requires i < |sources| && v in CheckSource(sources, i, canonical)
    ensures AboutSources(v)
  {
  }

  lemma {:induction false} TitleMembers(sources: seq<Source>, redact: string -> string)
    ensures forall v | v in SensitiveTitles(sources, redact) :: v.SensitiveSource?
  {
    if sources != [] { TitleMembers(sources[..|sources| - 1], redact); }
  }

  // Every violation of a report, told apart by its constructor.
  ghost predicate Flagged(report: Report, ctx: Context, v: Violation) {
    if HasAddress(v) then
      InReport(report.sections, v.at)
      && exists rule :: v in AtSentence(rule, ctx, |report.sources|, v.at, Sentences(report.sections, v.at.key)[v.at.index])
    else if AboutSources(v) then FlagsSource(report.sources, |report.sources|, ctx.texts.canonical, v)
    else if v.MissingSection? then v.section in Required(ctx) && !HasKey(report.sections, v.section)
    else if v.NoSupportedFinding? then HasKey(report.sections, KeyFindings) && !HasFinding(report.sections)
    else if v.ListedNotCited? then Listed(report.sources, v.docId) && v.docId !in CitedDocs(report.sections, ctx.ledger)
    else if v.CitedNotListed? then v.docId in CitedDocs(report.sections, ctx.ledger) && !Listed(report.sources, v.docId)
    else if v.MissingGap? then ExhaustedIn(ctx.ledger.plan, v.subq) && !HasGap(Sentences(report.sections, KnownGaps), v.subq)
    else if v.SensitiveSource? then v in SensitiveTitles(report.sources, ctx.texts.redact)
    else ctx.texts.offLanguage(Joined(AllProse(report.sections)))
  }

  ghost predicate Scanned(report: Report, ctx: Context, v: Violation) {
    exists rule :: v in ScanSections(rule, ctx, |report.sources|, report.sections)
  }

  ghost predicate Checked(report: Report, ctx: Context, v: Violation) {
    var cited := CitedDocs(report.sections, ctx.ledger);
    || v in CheckSections(report.sections, ctx)
    || v in ListedUncited(report.sources, cited)
    || v in CitedUnlisted(Sort(cited, AtMost), report.sources)
    || v in CheckGaps(ctx.ledger.plan, Sentences(report.sections, KnownGaps))
    || v in CheckUrls(report.sources, |report.sources|, ctx.texts.canonical)
    || v in SensitiveTitles(report.sources, ctx.texts.redact)
    || v in CheckLanguage(report.sections, ctx)
  }

  lemma InEither<T>(x: T, a: seq<T>, b: seq<T>)
    ensures x in a + b <==> x in a || x in b
  {
  }

  lemma {:induction false} GatheredMembers<C(!new), V>(checks: seq<C>, found: C -> seq<V>, v: V)
    ensures v in Gathered(checks, found) <==> exists c :: c in checks && v in found(c)
  {
    if checks != [] {
      var front, last := checks[..|checks| - 1], checks[|checks| - 1];
      GatheredMembers(front, found, v);
      InEither(v, Gathered(front, found), found(last));
      assert checks == front + [last];
    }
  }

  lemma EveryRuleRuns(rule: Rule, report: Report, ctx: Context, v: Violation) returns (c: Check)
    requires v in ScanSections(rule, ctx, |report.sources|, report.sections)
    ensures c in RULES && v in Found(c, report, ctx)
  {
    if rule == G3 {
      assert RULES[2] == Citing;
      c := Citing;
    } else if rule == G9 {
      assert RULES[8] == Sensitive;
      c := Sensitive;
    } else {
      assert RULES[1] == Each(G2) && RULES[3] == Each(G4) && RULES[4] == Each(G5) && RULES[5] == Each(G6) && RULES[10] == Each(G11) && RULES[11] == Each(G12);
      c := Each(rule);
    }
  }

  lemma EveryCheckRuns(report: Report, ctx: Context, v: Violation) returns (c: Check)
    requires Checked(report, ctx, v)
    ensures c in RULES && v in Found(c, report, ctx)
  {
    var cited := CitedDocs(report.sections, ctx.ledger);
    assert RULES[0] == Sections && RULES[2] == Citing && RULES[6] == Gaps && RULES[7] == Urls && RULES[8] == Sensitive && RULES[9] == Language;
    c := if v in CheckSections(report.sections, ctx) then Sections
         else if v in CheckGaps(ctx.ledger.plan, Sentences(report.sections, KnownGaps)) then Gaps
         else if v in CheckUrls(report.sources, |report.sources|, ctx.texts.canonical) then Urls
         else if v in SensitiveTitles(report.sources, ctx.texts.redact) then Sensitive
         else if v in CheckLanguage(report.sections, ctx) then Language
         else Citing;
  }

  lemma FoundIsOneOf(c: Check, report: Report, ctx: Context, v: Violation)
    requires v in Found(c, report, ctx)
    ensures Scanned(report, ctx, v) || Checked(report, ctx, v)
  {
    match c
    case Each(rule) => assert v in ScanSections(rule, ctx, |report.sources|, report.sections);
    case Citing =>
      if v in ScanSections(G3, ctx, |report.sources|, report.sections) { assert Scanned(report, ctx, v); }
    case Sensitive =>
      if v in ScanSections(G9, ctx, |report.sources|, report.sections) { assert Scanned(report, ctx, v); }
    case _ =>
  }

  lemma ListsOfRules(report: Report, ctx: Context, v: Violation)
    ensures v in Violations(report, ctx) <==> Scanned(report, ctx, v) || Checked(report, ctx, v)
  {
    var found := FoundIn(report, ctx);
    GatheredMembers(RULES, found, v);
    if c :| c in RULES && v in found(c) { FoundIsOneOf(c, report, ctx, v); }
    if Scanned(report, ctx, v) {
      var rule :| v in ScanSections(rule, ctx, |report.sources|, report.sections);
      var c := EveryRuleRuns(rule, report, ctx, v);
      assert v in found(c);
    }
    if Checked(report, ctx, v) {
      var c := EveryCheckRuns(report, ctx, v);
      assert v in found(c);
    }
  }

  lemma CheckedMembers(report: Report, ctx: Context, v: Violation)
    ensures Checked(report, ctx, v) <==> !HasAddress(v) && Flagged(report, ctx, v)
  {
    if Checked(report, ctx, v) { CheckedIsFlagged(report, ctx, v); }
    if !HasAddress(v) && Flagged(report, ctx, v) { FlaggedIsChecked(report, ctx, v); }
  }

  lemma CheckedIsFlagged(report: Report, ctx: Context, v: Violation)
    requires Checked(report, ctx, v)
    ensures !HasAddress(v) && Flagged(report, ctx, v)
  {
    if v in CheckUrls(report.sources, |report.sources|, ctx.texts.canonical) {
      UrlIsFlagged(report, ctx, v);
    } else if v in SensitiveTitles(report.sources, ctx.texts.redact) {
      TitleIsFlagged(report, ctx, v);
    } else if !v.WrongLanguage? {
      ListedIsFlagged(report, ctx, v);
    } else {
      CheckedLists(report, ctx, v);
    }
  }

  lemma UrlIsFlagged(report: Report, ctx: Context, v: Violation)
    requires v in CheckUrls(report.sources, |report.sources|, ctx.texts.canonical)
    ensures !HasAddress(v) && Flagged(report, ctx, v)
  {
    UrlMembers(report.sources, |report.sources|, ctx.texts.canonical, v);
  }

  lemma TitleIsFlagged(report: Report, ctx: Context, v: Violation)
    requires v in SensitiveTitles(report.sources, ctx.texts.redact)
    ensures !HasAddress(v) && Flagged(report, ctx, v)
  {
    TitleMembers(report.sources, ctx.texts.redact);
  }

  lemma ListedIsFlagged(report: Report, ctx: Context, v: Violation)
    requires var cited := CitedDocs(report.sections, ctx.ledger);
      || v in CheckSections(report.sections, ctx) || v in ListedUncited(report.sources, cited) || v in CitedUnlisted(Sort(cited, AtMost), report.sources)
      || v in CheckGaps(ctx.ledger.plan, Sentences(report.sections, KnownGaps))
    ensures !HasAddress(v) && Flagged(report, ctx, v)
  {
    CheckedLists(report, ctx, v);
    KindIsFlagged(report, ctx, v);
  }

  lemma KindIsFlagged(report: Report, ctx: Context, v: Violation)
    ensures (v.MissingSection? && v.section in Required(ctx) && !HasKey(report.sections, v.section)) ==> Flagged(report, ctx, v)
    ensures (v.NoSupportedFinding? && HasKey(report.sections, KeyFindings) && !HasFinding(report.sections)) ==> Flagged(report, ctx, v)
    ensures (v.ListedNotCited? && Listed(report.sources, v.docId) && v.docId !in CitedDocs(report.sections, ctx.ledger)) ==> Flagged(report, ctx, v)
    ensures (v.CitedNotListed? && v.docId in CitedDocs(report.sections, ctx.ledger) && !Listed(report.sources, v.docId)) ==> Flagged(report, ctx, v)
    ensures (v.MissingGap? && ExhaustedIn(ctx.ledger.plan, v.subq) && !HasGap(Sentences(report.sections, KnownGaps), v.subq)) ==> Flagged(report, ctx, v)
  {
  }

  lemma FlaggedIsChecked(report: Report, ctx: Context, v: Violation)
    requires !HasAddress(v) && Flagged(report, ctx, v)
    ensures Checked(report, ctx, v)
  {
    if AboutSources(v) {
      UrlMembers(report.sources, |report.sources|, ctx.texts.canonical, v);
    } else {
      CheckedLists(report, ctx, v);
    }
  }

  lemma CheckedLists(report: Report, ctx: Context, v: Violation)
    ensures var cited := CitedDocs(report.sections, ctx.ledger);
      && (v in CheckSections(report.sections, ctx) <==>
            || (v.MissingSection? && v.section in Required(ctx) && !HasKey(report.sections, v.section))
            || (v.NoSupportedFinding? && HasKey(report.sections, KeyFindings) && !HasFinding(report.sections)))
      && (v in ListedUncited(report.sources, cited) <==> v.ListedNotCited? && Listed(report.sources, v.docId) && v.docId !in cited)
      && (v in CitedUnlisted(Sort(cited, AtMost), report.sources) <==> v.CitedNotListed? && v.docId in cited && !Listed(report.sources, v.docId))
      && (v in CheckGaps(ctx.ledger.plan, Sentences(report.sections, KnownGaps)) <==>
            v.MissingGap? && ExhaustedIn(ctx.ledger.plan, v.subq) && !HasGap(Sentences(report.sections, KnownGaps), v.subq))
  {
    MissingMembers(Required(ctx), report.sections);
    ListedMembers(report.sources, CitedDocs(report.sections, ctx.ledger));
    UnlistedMembers(Sort(CitedDocs(report.sections, ctx.ledger), AtMost), report.sources);
    SortElements(CitedDocs(report.sections, ctx.ledger), AtMost);
    GapMembers(ctx.ledger.plan, Sentences(report.sections, KnownGaps));
  }

  lemma ViolationMembers(report: Report, ctx: Context, v: Violation)
    requires DistinctKeys(report.sections)
    ensures v in Violations(report, ctx) <==> Flagged(report, ctx, v)
  {
    ListsOfRules(report, ctx, v);
    CheckedMembers(report, ctx, v);
    forall rule: Rule
      ensures v in ScanSections(rule, ctx, |report.sources|, report.sections) <==>
        HasAddress(v) && InReport(report.sections, v.at)
        && v in AtSentence(rule, ctx, |report.sources|, v.at, Sentences(report.sections, v.at.key)[v.at.index])
    {
      ScanMembers(rule, ctx, |report.sources|, report.sections, v);
    }
  }
}
