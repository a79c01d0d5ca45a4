/** The rules as the code runs them, with its lists, sets and caches, proved equal to `GateRules`. */
module GateEvaluate {
  import opened Wrappers
  import opened Sorting
  import opened NameOrder
  import opened Numeric
  import opened Evidence
  import opened Reports
  import opened GateRules
  import opened GateRemedy
  import opened GateTheorems

  // --- G4: the quantities behind a sentence, gathered once ---

  lemma MatchesJoin(q: Quantity, left: seq<Quantity>, right: seq<Quantity>, t: Tolerance)
    ensures MatchesAny(q, left + right, t) <==> MatchesAny(q, left, t) || MatchesAny(q, right, t)
  {
    var all := left + right;
    if i :| 0 <= i < |left| && QuantitiesMatch(q, left[i], t) { assert all[i] == left[i]; }
    if i :| 0 <= i < |right| && QuantitiesMatch(q, right[i], t) { assert all[|left| + i] == right[i]; }
  }

  ghost predicate SomeStates(q: Quantity, texts: seq<string>, ctx: Context, t: Tolerance) {
    exists text :: text in texts && StatesIn(q, text, ctx, t)
  }

  method AddTexts(ctx: Context, was: seq<Quantity>, texts: seq<string>) returns (found: seq<Quantity>)
    ensures forall q, t :: MatchesAny(q, found, t) <==> MatchesAny(q, was, t) || SomeStates(q, texts, ctx, t)
  {
    found := was;
    for i := 0 to |texts|
      invariant forall q, t :: MatchesAny(q, found, t) <==> MatchesAny(q, was, t) || SomeStates(q, texts[..i], ctx, t)
    {
      assert texts[..i + 1] == texts[..i] + [texts[i]];
      ghost var before := found;
      if texts[i] != "" {
        found := found + ctx.texts.quantities(texts[i]);
      }
      forall q, t ensures MatchesAny(q, found, t) <==> MatchesAny(q, was, t) || SomeStates(q, texts[..i + 1], ctx, t) {
        assert MatchesAny(q, before, t) <==> MatchesAny(q, was, t) || SomeStates(q, texts[..i], ctx, t);
        MatchesJoin(q, before, ctx.texts.quantities(texts[i]), t);
        StatesGrow(q, texts[..i], texts[i], ctx, t);
      }
    }
    assert texts[..|texts|] == texts;
  }

  lemma StatesGrow(q: Quantity, texts: seq<string>, text: string, ctx: Context, t: Tolerance)
    ensures SomeStates(q, texts + [text], ctx, t) <==> SomeStates(q, texts, ctx, t) || StatesIn(q, text, ctx, t)
  {
    assert text in texts + [text];
  }

  // Empty stands for an absent value.
  function ClaimTexts(claim: Claim): seq<string> {
    [claim.text, claim.quote, claim.value, claim.asOf]
  }

  lemma ClaimTextsState(q: Quantity, claim: Claim, ctx: Context, t: Tolerance)
    ensures ClaimStates(q, claim, ctx, t) <==> SomeStates(q, ClaimTexts(claim), ctx, t)
  {
    assert claim.text in ClaimTexts(claim) && claim.quote in ClaimTexts(claim) && claim.value in ClaimTexts(claim) && claim.asOf in ClaimTexts(claim);
  }

  ghost predicate SomeClaimStates(q: Quantity, ids: seq<string>, ctx: Context, t: Tolerance) {
    exists k :: k in ids && k in ctx.ledger.claims && ClaimStates(q, ctx.ledger.claims[k], ctx, t)
  }

  method AddClaims(ctx: Context, was: seq<Quantity>, ids: seq<string>) returns (found: seq<Quantity>)
    ensures forall q, t :: MatchesAny(q, found, t) <==> MatchesAny(q, was, t) || SomeClaimStates(q, ids, ctx, t)
  {
    found := was;
    for i := 0 to |ids|
      invariant forall q, t :: MatchesAny(q, found, t) <==> MatchesAny(q, was, t) || SomeClaimStates(q, ids[..i], ctx, t)
    {
      assert ids[..i + 1] == ids[..i] + [ids[i]];
      ghost var before := found;
      if ids[i] in ctx.ledger.claims {
        found := AddTexts(ctx, found, ClaimTexts(ctx.ledger.claims[ids[i]]));
      }
      forall q, t ensures MatchesAny(q, found, t) <==> MatchesAny(q, was, t) || SomeClaimStates(q, ids[..i + 1], ctx, t) {
        assert MatchesAny(q, before, t) <==> MatchesAny(q, was, t) || SomeClaimStates(q, ids[..i], ctx, t);
        if ids[i] in ctx.ledger.claims { ClaimTextsState(q, ctx.ledger.claims[ids[i]], ctx, t); }
        assert SomeClaimStates(q, ids[..i + 1], ctx, t) <==>
          SomeClaimStates(q, ids[..i], ctx, t) || (ids[i] in ctx.ledger.claims && ClaimStates(q, ctx.ledger.claims[ids[i]], ctx, t));
      }
    }
    assert ids[..|ids|] == ids;
  }

  method Support(ctx: Context, refs: seq<string>) returns (found: seq<Quantity>)
    ensures forall q, t :: MatchesAny(q, found, t) <==> SupportedBy(q, refs, ctx, t)
  {
    found := [];
    for i := 0 to |refs|
      invariant forall q, t :: MatchesAny(q, found, t) <==> SupportedBy(q, refs[..i], ctx, t)
    {
      assert refs[..i + 1] == refs[..i] + [refs[i]];
      ghost var before := found;
      if refs[i] in ctx.ledger.clusters {
        found := AddCluster(ctx, found, ctx.ledger.clusters[refs[i]]);
      }
      forall q, t ensures MatchesAny(q, found, t) <==> SupportedBy(q, refs[..i + 1], ctx, t) {
        SupportGrows(ctx, refs[..i], refs[i], q, t);
        assert MatchesAny(q, before, t) <==> SupportedBy(q, refs[..i], ctx, t);
      }
    }
    assert refs[..|refs|] == refs;
  }

  lemma SupportGrows(ctx: Context, refs: seq<string>, c: string, q: Quantity, t: Tolerance)
    ensures SupportedBy(q, refs + [c], ctx, t) <==>
      SupportedBy(q, refs, ctx, t) || (c in ctx.ledger.clusters && ClusterStates(q, ctx.ledger.clusters[c], ctx, t))
  {
    assert c in refs + [c];
  }

  method AddCluster(ctx: Context, was: seq<Quantity>, cluster: Cluster) returns (found: seq<Quantity>)
    ensures forall q, t :: MatchesAny(q, found, t) <==> MatchesAny(q, was, t) || ClusterStates(q, cluster, ctx, t)
  {
    var texts := [cluster.statement, cluster.value];
    var some := AddTexts(ctx, was, texts);
    found := AddClaims(ctx, some, cluster.claimIds);
    forall q, t ensures MatchesAny(q, found, t) <==> MatchesAny(q, was, t) || ClusterStates(q, cluster, ctx, t) {
      assert cluster.statement in texts && cluster.value in texts;
    }
  }

  // What the cited findings state, once it has been gathered.
  ghost predicate Gathers(support: Option<seq<Quantity>>, refs: seq<string>, ctx: Context) {
    support.Some? ==> forall q, t :: MatchesAny(q, support.value, t) <==> SupportedBy(q, refs, ctx, t)
  }

  method CheckNumber(at: Address, text: string, q: Quantity, refs: seq<string>, ctx: Context, listed: nat, was: Option<seq<Quantity>>)
    returns (found: seq<Violation>, support: Option<seq<Quantity>>)
    requires Gathers(was, refs, ctx)
    ensures found == CheckQuantity(at, text, q, refs, ctx, listed) && Gathers(support, refs, ctx)
  {
    found, support := [], was;
    if MatchesAny(q, ctx.texts.quantities(ctx.ledger.question), EXACT) {
      return;
    }
    var noun := if q.kind == Number then ctx.texts.ledgerNoun(text, q) else None;
    if noun.Some? {
      if Stated(q) !in LedgerExpected(noun.value, refs, ctx.ledger, listed) { found := [LedgerMismatch(at)]; }
      return;
    }
    if support.None? {
      var all := Support(ctx, refs);
      support := Some(all);
    }
    if !MatchesAny(q, support.value, EXACT) {
      found := [if MatchesAny(q, support.value, ctx.tolerance) then WithinTolerance(at) else BareFact(at)];
    }
  }

  method CheckNumbers(at: Address, s: Sentence, refs: seq<string>, ctx: Context, listed: nat) returns (found: seq<Violation>)
    ensures found == CheckQuantities(at, s.text, ctx.texts.quantities(s.text), refs, ctx, listed)
  {
    found := [];
    var support: Option<seq<Quantity>> := None;
    var qs := ctx.texts.quantities(s.text);
    for i := 0 to |qs|
      invariant found == CheckQuantities(at, s.text, qs[..i], refs, ctx, listed) && Gathers(support, refs, ctx)
    {
      assert qs[..i + 1][..i] == qs[..i];
      var more;
      more, support := CheckNumber(at, s.text, qs[i], refs, ctx, listed, support);
      found := found + more;
    }
    assert qs[..|qs|] == qs;
  }

  // --- the other rules about one sentence ---

  method CheckCitations(at: Address, ids: seq<string>, ledger: Ledger) returns (found: seq<Violation>)
    ensures found == UnknownIn(at, ids, ledger)
  {
    found := [];
    for i := 0 to |ids|
      invariant found == UnknownIn(at, ids[..i], ledger)
    {
      assert ids[..i + 1][..i] == ids[..i];
      if ids[i] !in ledger.clusters { found := found + [UnknownCitation(at, ids[i])]; }
    }
    assert ids[..|ids|] == ids;
  }

  method CheckEligibility(at: Address, ids: seq<string>, ledger: Ledger) returns (found: seq<Violation>)
    ensures found == IneligibleIn(at, ids, ledger)
  {
    found := [];
    var met: set<string> := {};
    for i := 0 to |ids|
      invariant found == IneligibleIn(at, ids[..i], ledger) && forall c :: c in met <==> c in ids[..i]
    {
      assert ids[..i + 1][..i] == ids[..i] && ids[..i + 1] == ids[..i] + [ids[i]];
      if ids[i] !in met && IneligibleCluster(ids[i], ledger) { found := found + [Ineligible(at, ids[i])]; }
      met := met + {ids[i]};
    }
    assert ids[..|ids|] == ids;
  }

  method CheckHedging(at: Address, s: Sentence, ledger: Ledger) returns (found: seq<Violation>)
    ensures found == var contested := ContestedIn(s.clusterIds, ledger);
      if contested == [] || at.key == Conflicting || Uncertain in s.labels then [] else [Unhedged(at, contested)]
  {
    var contested: seq<string> := [];
    for i := 0 to |s.clusterIds|
      invariant contested == ContestedIn(s.clusterIds[..i], ledger)
    {
      assert s.clusterIds[..i + 1][..i] == s.clusterIds[..i];
      var c := s.clusterIds[i];
      if c in ledger.clusters && ledger.clusters[c].status == Contested { contested := contested + [c]; }
    }
    assert s.clusterIds[..|s.clusterIds|] == s.clusterIds;
    found := if contested == [] || at.key == Conflicting || Uncertain in s.labels then [] else [Unhedged(at, contested)];
  }

  method CheckSentence(rule: Rule, ctx: Context, listed: nat, at: Address, s: Sentence) returns (found: seq<Violation>)
    ensures found == AtSentence(rule, ctx, listed, at, s)
  {
    match rule {
      case G3 => found := CheckCitations(at, s.clusterIds, ctx.ledger);
      case G4 =>
        found := [];
        if s.kind != Meta { found := CheckNumbers(at, s, if s.kind == Fact then s.clusterIds else s.findingRefs, ctx, listed); }
      case G5 => found := CheckHedging(at, s, ctx.ledger);
      case G12 => found := CheckEligibility(at, s.clusterIds + s.findingRefs, ctx.ledger);
      case G2 => found := AtSentence(G2, ctx, listed, at, s);
      case G6 => found := AtSentence(G6, ctx, listed, at, s);
      case G9 => found := AtSentence(G9, ctx, listed, at, s);
      case G11 => found := AtSentence(G11, ctx, listed, at, s);
    }
  }

  method ScanOne(rule: Rule, ctx: Context, listed: nat, key: SectionKey, sentences: seq<Sentence>) returns (found: seq<Violation>)
    ensures found == ScanSentences(rule, ctx, listed, key, sentences)
  {
    found := [];
    for i := 0 to |sentences|
      invariant found == ScanSentences(rule, ctx, listed, key, sentences[..i])
    {
      assert sentences[..i + 1][..i] == sentences[..i];
      var more := CheckSentence(rule, ctx, listed, Address(key, i), sentences[i]);
      found := found + more;
    }
    assert sentences[..|sentences|] == sentences;
  }

  method Scan(rule: Rule, ctx: Context, listed: nat, sections: seq<Section>) returns (found: seq<Violation>)
    ensures found == ScanSections(rule, ctx, listed, sections)
  {
    found := [];
    for j := 0 to |sections|
      invariant found == ScanSections(rule, ctx, listed, sections[..j])
    {
      assert sections[..j + 1][..j] == sections[..j];
      var more := ScanOne(rule, ctx, listed, sections[j].key, sections[j].sentences);
      found := found + more;
    }
    assert sections[..|sections|] == sections;
  }

  // --- G8 ---

  // The URLs and documents of the sources before `i` that have a valid URL.
  ghost predicate Met(sources: seq<Source>, i: nat, canonical: string -> Option<string>, urls: set<string>, docs: set<string>)
    requires i <= |sources|
  {
    && (forall u :: u in urls <==> exists j :: 0 <= j < i && canonical(sources[j].url) == Some(u))
    && (forall d :: d in docs <==> exists j :: 0 <= j < i && canonical(sources[j].url).Some? && sources[j].docId == d)
  }

  lemma MetNext(sources: seq<Source>, i: nat, canonical: string -> Option<string>, urls: set<string>, docs: set<string>)
    requires i < |sources| && Met(sources, i, canonical, urls, docs)
    ensures var url := canonical(sources[i].url);
      if url.None? then Met(sources, i + 1, canonical, urls, docs)
      else Met(sources, i + 1, canonical, urls + {url.value}, docs + {sources[i].docId})
  {
  }

  method CheckOneSource(sources: seq<Source>, i: nat, canonical: string -> Option<string>, urls: set<string>, docs: set<string>) returns (found: seq<Violation>)
    requires i < |sources| && Met(sources, i, canonical, urls, docs)
    ensures found == CheckSource(sources, i, canonical)
  {
    var source := sources[i];
    var url := canonical(source.url);
    if url.None? {
      return [InvalidUrl(source.number)];
    }
    found := [];
    if url.value != source.url { found := [NotCanonical(source.number)]; }
    if url.value in urls || source.docId in docs { found := found + [DuplicateSource(source.number)]; }
  }

  method CheckSources(sources: seq<Source>, canonical: string -> Option<string>) returns (found: seq<Violation>)
    ensures found == CheckUrls(sources, |sources|, canonical)
    ensures forall v :: v in found <==> FlagsSource(sources, |sources|, canonical, v)
  {
    found := [];
    var urls: set<string>, docs: set<string> := {}, {};
    for i := 0 to |sources|
      invariant found == CheckUrls(sources, i, canonical) && Met(sources, i, canonical, urls, docs)
    {
      var here := CheckOneSource(sources, i, canonical, urls, docs);
      found := found + here;
      MetNext(sources, i, canonical, urls, docs);
      var url := canonical(sources[i].url);
      if url.Some? {
        urls, docs := urls + {url.value}, docs + {sources[i].docId};
      }
    }
    forall v ensures v in found <==> FlagsSource(sources, |sources|, canonical, v) { UrlMembers(sources, |sources|, canonical, v); }
  }

  // --- G1 ---

  method CheckRequired(sections: seq<Section>, ctx: Context) returns (found: seq<Violation>)
    ensures found == MissingOf(Required(ctx), sections)
  {
    found := [];
    var present := set section | section in sections :: section.key;
    var required := ctx.required;
    if AnyExhausted(ctx.ledger.plan) { required := required + [KnownGaps]; }
    for i := 0 to |required|
      invariant found == MissingOf(required[..i], sections)
    {
      assert required[..i + 1][..i] == required[..i];
      LookupFinds(sections, required[i]);
      if required[i] !in present { found := found + [MissingSection(required[i])]; }
    }
    assert required[..|required|] == required == Required(ctx);
  }

  method CheckFindings(sections: seq<Section>) returns (found: seq<Violation>)
    ensures found == if Lookup(sections, KeyFindings).Some? && !HasFinding(sections) then [NoSupportedFinding] else []
  {
    var findings := Lookup(sections, KeyFindings);
    if findings.None? { return []; }
    for i := 0 to |findings.value.sentences|
      invariant forall k | 0 <= k < i :: findings.value.sentences[k].kind != Fact || findings.value.sentences[k].clusterIds == []
    {
      if findings.value.sentences[i].kind == Fact && findings.value.sentences[i].clusterIds != [] {
        assert Sentences(sections, KeyFindings)[i] == findings.value.sentences[i];
        return [];
      }
    }
    return [NoSupportedFinding];
  }

  // --- G3: the source list ---

  ghost predicate ListedDocs(sources: seq<Source>, docs: set<string>) {
    forall d :: d in docs <==> Listed(sources, d)
  }

  lemma ListedNext(sources: seq<Source>, source: Source, docs: set<string>)
    requires ListedDocs(sources, docs)
    ensures ListedDocs(sources + [source], docs + {source.docId})
  {
    var all := sources + [source];
    forall d ensures Listed(all, d) <==> Listed(sources, d) || d == source.docId {
      if i :| 0 <= i < |sources| && sources[i].docId == d { assert all[i].docId == d; }
      assert all[|sources|] == source;
    }
  }

  method CheckListed(sources: seq<Source>, cited: seq<string>) returns (found: seq<Violation>, listed: set<string>)
    ensures found == ListedUncited(sources, cited) && ListedDocs(sources, listed)
  {
    found, listed := [], {};
    for i := 0 to |sources|
      invariant found == ListedUncited(sources[..i], cited) && ListedDocs(sources[..i], listed)
    {
      assert sources[..i + 1][..i] == sources[..i] && sources[..i + 1] == sources[..i] + [sources[i]];
      ListedMembers(sources[..i], cited);
      ListedNext(sources[..i], sources[i], listed);
      var d := sources[i].docId;
      assert ListedNotCited(d) in found <==> d in listed && d !in cited;
      if d !in listed && d !in cited { found := found + [ListedNotCited(d)]; }
      listed := listed + {d};
    }
    assert sources[..|sources|] == sources;
  }

  function NotIn(listed: set<string>): string -> bool {
    d => d !in listed
  }

  lemma {:induction false} UnlistedArePicked(docs: seq<string>, sources: seq<Source>, listed: set<string>)
    requires ListedDocs(sources, listed)
    ensures CitedUnlisted(docs, sources) == CitedUnlisted(Pick(docs, NotIn(listed)), sources)
  {
    if docs != [] {
      var front, d := docs[..|docs| - 1], docs[|docs| - 1];
      UnlistedArePicked(front, sources, listed);
      assert d in listed <==> Listed(sources, d);
      assert docs == front + [d];
      PickLast(front, d, NotIn(listed));
      if d in listed {
        assert Pick(docs, NotIn(listed)) == Pick(front, NotIn(listed));
      } else {
        UnlistedLast(Pick(front, NotIn(listed)), d, sources);
      }
    }
  }

  lemma UnlistedLast(docs: seq<string>, d: string, sources: seq<Source>)
    ensures CitedUnlisted(docs + [d], sources) == CitedUnlisted(docs, sources) + if Listed(sources, d) then [] else [CitedNotListed(d)]
  {
    assert (docs + [d])[..|docs|] == docs;
  }

  // One violation for each, as none is listed.
  method FlagUnlisted(sources: seq<Source>, docs: seq<string>) returns (found: seq<Violation>)
    requires forall d | d in docs :: !Listed(sources, d)
    ensures found == CitedUnlisted(docs, sources)
  {
    found := [];
    for i := 0 to |docs|
      invariant found == CitedUnlisted(docs[..i], sources)
    {
      assert docs[..i + 1][..i] == docs[..i];
      assert docs[i] in docs;
      found := found + [CitedNotListed(docs[i])];
    }
    assert docs[..|docs|] == docs;
  }

  // `cited - listed`, sorted.
  method CheckUnlisted(sources: seq<Source>, cited: seq<string>, listed: set<string>) returns (found: seq<Violation>)
    requires ListedDocs(sources, listed)
    ensures found == CitedUnlisted(Sort(cited, AtMost), sources)
  {
    var p := NotIn(listed);
    var unlisted := Sort(Pick(cited, p), AtMost);
    AtMostIsPreorder();
    SortPicks(cited, AtMost, p);
    UnlistedArePicked(Sort(cited, AtMost), sources, listed);
    PickMembers(Sort(cited, AtMost), p);
    found := FlagUnlisted(sources, unlisted);
  }

  // --- G7 ---

  function GapIds(labels: seq<Label>): set<string> {
    set name | name in labels && name.Gap? :: name.subq
  }

  method ListedGaps(gaps: seq<Sentence>) returns (listed: set<string>)
    ensures forall id :: id in listed <==> HasGap(gaps, id)
  {
    listed := {};
    for i := 0 to |gaps|
      invariant forall id :: id in listed <==> exists k :: 0 <= k < i && Gap(id) in gaps[k].labels
    {
      ghost var before := listed;
      listed := listed + GapIds(gaps[i].labels);
      forall id ensures id in GapIds(gaps[i].labels) <==> Gap(id) in gaps[i].labels {
      }
    }
  }

  method CheckKnownGaps(plan: seq<SubQuestion>, gaps: seq<Sentence>) returns (found: seq<Violation>)
    ensures found == CheckGaps(plan, gaps)
  {
    var listed := ListedGaps(gaps);
    found := [];
    for i := 0 to |plan|
      invariant found == CheckGaps(plan[..i], gaps)
    {
      assert plan[..i + 1][..i] == plan[..i];
      if plan[i].status == Exhausted && plan[i].id !in listed { found := found + [MissingGap(plan[i].id)]; }
    }
    assert plan[..|plan|] == plan;
  }

  // --- G9, G10 ---

  method CheckTitles(sources: seq<Source>, redact: string -> string) returns (found: seq<Violation>)
    ensures found == SensitiveTitles(sources, redact)
  {
    found := [];
    for i := 0 to |sources|
      invariant found == SensitiveTitles(sources[..i], redact)
    {
      assert sources[..i + 1][..i] == sources[..i];
      if redact(sources[i].title) != sources[i].title { found := found + [SensitiveSource(sources[i].number)]; }
    }
    assert sources[..|sources|] == sources;
  }

  method AddProse(was: seq<string>, sentences: seq<Sentence>) returns (texts: seq<string>)
    ensures texts == was + Prose(sentences)
  {
    texts := was;
    for i := 0 to |sentences|
      invariant texts == was + Prose(sentences[..i])
    {
      assert sentences[..i + 1][..i] == sentences[..i];
      if sentences[i].kind != Meta { texts := texts + [sentences[i].text]; }
    }
    assert sentences[..|sentences|] == sentences;
  }

  method CheckProse(sections: seq<Section>, ctx: Context) returns (found: seq<Violation>)
    ensures found == CheckLanguage(sections, ctx)
  {
    var texts: seq<string> := [];
    for j := 0 to |sections|
      invariant texts == AllProse(sections[..j])
    {
      assert sections[..j + 1][..j] == sections[..j];
      texts := AddProse(texts, sections[j].sentences);
    }
    assert sections[..|sections|] == sections;
    found := if ctx.texts.offLanguage(Joined(texts)) then [WrongLanguage] else [];
  }

  // --- all rules in order ---

  method CheckCiting(report: Report, ctx: Context) returns (found: seq<Violation>)
    ensures found == Found(Citing, report, ctx)
  {
    found := Scan(G3, ctx, |report.sources|, report.sections);
    var cited := CiteDocuments(report.sections, ctx.ledger);
    var uncited, listed := CheckListed(report.sources, cited);
    var unlisted := CheckUnlisted(report.sources, cited, listed);
    found := found + uncited + unlisted;
  }

  method RunCheck(check: Check, report: Report, ctx: Context) returns (found: seq<Violation>)
    ensures found == Found(check, report, ctx)
  {
    match check {
      case Sections =>
        found := CheckRequired(report.sections, ctx);
        var more := CheckFindings(report.sections);
        found := found + more;
      case Each(rule) => found := Scan(rule, ctx, |report.sources|, report.sections);
      case Citing => found := CheckCiting(report, ctx);
      case Gaps => found := CheckKnownGaps(ctx.ledger.plan, Sentences(report.sections, KnownGaps));
      case Urls => found := CheckSources(report.sources, ctx.texts.canonical);
      case Sensitive =>
        found := Scan(G9, ctx, |report.sources|, report.sections);
        var more := CheckTitles(report.sources, ctx.texts.redact);
        found := found + more;
      case Language => found := CheckProse(report.sections, ctx);
    }
  }

  method Evaluate(report: Report, ctx: Context) returns (found: seq<Violation>)
    ensures found == Violations(report, ctx)
  {
    found := [];
    for i := 0 to |RULES|
      invariant found == Gathered(RULES[..i], FoundIn(report, ctx))
    {
      assert RULES[..i + 1][..i] == RULES[..i];
      var more := RunCheck(RULES[i], report, ctx);
      found := found + more;
    }
    assert RULES[..|RULES|] == RULES;
  }
}
