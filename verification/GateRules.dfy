/** Rules G1-G12 of the output gate and their evaluation over a report. */
module GateRules {
  import opened Wrappers
  import opened Sorting
  import opened NameOrder
  import opened Numeric
  import opened Evidence
  import opened Reports

  datatype Noun = SourceNoun | FindingNoun | SubQuestionNoun | SearchNoun | ContradictionNoun

  // Everything the gate does with regular expressions and URL parsing, as functions of text.
  datatype Texts = Texts(
    canonical: string -> Option<string>,
    redact: string -> string,
    quantities: string -> seq<Quantity>,
    ledgerNoun: (string, Quantity) -> Option<Noun>,
    offLanguage: string -> bool)

  datatype Context = Context(texts: Texts, ledger: Ledger, required: seq<SectionKey>, tolerance: Tolerance)

  datatype Rule = G2 | G3 | G4 | G5 | G6 | G9 | G11 | G12

  datatype Violation =
    | MissingSection(section: SectionKey)
    | NoSupportedFinding
    | Uncited(at: Address)
    | UnknownCitation(at: Address, clusterId: string)
    | ListedNotCited(docId: string)
    | CitedNotListed(docId: string)
    | LedgerMismatch(at: Address)
    | BareFact(at: Address)
    | WithinTolerance(at: Address)
    | Unhedged(at: Address, contested: seq<string>)
    | Unlabelled(at: Address)
    | MissingGap(subq: string)
    | InvalidUrl(number: nat)
    | NotCanonical(number: nat)
    | DuplicateSource(number: nat)
    | SensitiveText(at: Address)
    | SensitiveSource(number: nat)
    | WrongLanguage
    | Unlinked(at: Address)
    | Ineligible(at: Address, clusterId: string)

  predicate IsError(v: Violation) {
    !v.WithinTolerance? && !v.Unhedged? && !v.Unlabelled? && !v.WrongLanguage?
  }

  predicate Remediable(v: Violation) {
    !v.NoSupportedFinding?
  }

  predicate HasAddress(v: Violation) {
    v.Uncited? || v.UnknownCitation? || v.LedgerMismatch? || v.BareFact? || v.WithinTolerance? || v.Unhedged?
    || v.Unlabelled? || v.SensitiveText? || v.Unlinked? || v.Ineligible?
  }

  // --- citations ---

  function Known(ids: seq<string>, ledger: Ledger): seq<string> {
    if ids == [] then []
    else Known(ids[..|ids| - 1], ledger) + if ids[|ids| - 1] in ledger.clusters then [ids[|ids| - 1]] else []
  }

  function UnknownIn(at: Address, ids: seq<string>, ledger: Ledger): seq<Violation> {
    if ids == [] then []
    else
      var last := ids[|ids| - 1];
      UnknownIn(at, ids[..|ids| - 1], ledger) + if last in ledger.clusters then [] else [UnknownCitation(at, last)]
  }

  // --- G4 ---

  function Truncate(x: real): int {
    if x >= 0.0 then x.Floor else -((-x).Floor)
  }

  // `int(quantity.value or -1)`: a missing value and a zero both read as -1.
  function Stated(q: Quantity): int {
    if q.values == [] || q.values[0] == 0.0 then -1 else Truncate(q.values[0])
  }

  function DocsOf(ids: seq<string>, ledger: Ledger): set<string> {
    set c, d | c in ids && c in ledger.clusters && d in ledger.clusters[c].docIds :: d
  }

  function OriginsOf(ids: seq<string>, ledger: Ledger): set<string> {
    set c, o | c in ids && c in ledger.clusters && o in ledger.clusters[c].originIds :: o
  }

  function LedgerExpected(noun: Noun, ids: seq<string>, ledger: Ledger, listed: nat): set<int> {
    match noun
    case SourceNoun =>
      if Known(ids, ledger) != [] then {|DocsOf(ids, ledger)|, |OriginsOf(ids, ledger)|} else {listed}
    case FindingNoun => {|ledger.clusters|, |Known(ids, ledger)|}
    case SubQuestionNoun => {|ledger.plan|}
    case SearchNoun => {ledger.queries, ledger.queriesDone}
    case ContradictionNoun => {ledger.contradictions}
  }

  predicate MatchesAny(q: Quantity, others: seq<Quantity>, t: Tolerance) {
    exists i | 0 <= i < |others| :: QuantitiesMatch(q, others[i], t)
  }

  predicate StatesIn(q: Quantity, text: string, ctx: Context, t: Tolerance) {
    text != "" && MatchesAny(q, ctx.texts.quantities(text), t)
  }

  predicate ClaimStates(q: Quantity, claim: Claim, ctx: Context, t: Tolerance) {
    StatesIn(q, claim.text, ctx, t) || StatesIn(q, claim.quote, ctx, t) || StatesIn(q, claim.value, ctx, t) || StatesIn(q, claim.asOf, ctx, t)
  }

  // Whether any text behind the cited clusters states the quantity.
  predicate SupportedBy(q: Quantity, ids: seq<string>, ctx: Context, t: Tolerance) {
    exists c | c in ids :: c in ctx.ledger.clusters && ClusterStates(q, ctx.ledger.clusters[c], ctx, t)
  }

  predicate ClusterStates(q: Quantity, cluster: Cluster, ctx: Context, t: Tolerance) {
    || StatesIn(q, cluster.statement, ctx, t) || StatesIn(q, cluster.value, ctx, t)
    || exists k | k in cluster.claimIds :: k in ctx.ledger.claims && ClaimStates(q, ctx.ledger.claims[k], ctx, t)
  }

  function CheckQuantity(at: Address, text: string, q: Quantity, refs: seq<string>, ctx: Context, listed: nat): seq<Violation> {
    if MatchesAny(q, ctx.texts.quantities(ctx.ledger.question), EXACT) then []
    else
      var noun := if q.kind == Number then ctx.texts.ledgerNoun(text, q) else None;
      if noun.Some? then
        if Stated(q) in LedgerExpected(noun.value, refs, ctx.ledger, listed) then [] else [LedgerMismatch(at)]
      else if SupportedBy(q, refs, ctx, EXACT) then []
      else if SupportedBy(q, refs, ctx, ctx.tolerance) then [WithinTolerance(at)]
      else [BareFact(at)]
  }

  function CheckQuantities(at: Address, text: string, qs: seq<Quantity>, refs: seq<string>, ctx: Context, listed: nat): seq<Violation> {
    if qs == [] then []
    else CheckQuantities(at, text, qs[..|qs| - 1], refs, ctx, listed) + CheckQuantity(at, text, qs[|qs| - 1], refs, ctx, listed)
  }

  // --- G5, G6, G12 ---

  function ContestedIn(ids: seq<string>, ledger: Ledger): seq<string> {
    if ids == [] then []
    else
      var last := ids[|ids| - 1];
      ContestedIn(ids[..|ids| - 1], ledger)
      + if last in ledger.clusters && ledger.clusters[last].status == Contested then [last] else []
  }

  predicate OnlySingleSourced(ids: seq<string>, ledger: Ledger) {
    Known(ids, ledger) != [] && forall c | c in ids :: c in ledger.clusters ==> ledger.clusters[c].status == SingleSourced
  }

  predicate Rejected(claimId: string, ledger: Ledger) {
    claimId in ledger.claims && (ledger.claims[claimId].validation == Unsupported || ledger.claims[claimId].validation == Unavailable)
  }

  predicate IneligibleCluster(c: string, ledger: Ledger) {
    && c in ledger.clusters
    && (ledger.clusters[c].requiresFresh || exists k | k in ledger.clusters[c].claimIds :: Rejected(k, ledger))
  }

  // One violation per distinct id, in order of first mention.
  function IneligibleIn(at: Address, ids: seq<string>, ledger: Ledger): seq<Violation> {
    if ids == [] then []
    else
      var last := ids[|ids| - 1];
      IneligibleIn(at, ids[..|ids| - 1], ledger)
      + if last !in ids[..|ids| - 1] && IneligibleCluster(last, ledger) then [Ineligible(at, last)] else []
  }

  // --- the rules that look at one sentence ---

  function AtSentence(rule: Rule, ctx: Context, listed: nat, at: Address, s: Sentence): seq<Violation> {
    match rule
    case G2 => if s.kind == Fact && s.clusterIds == [] then [Uncited(at)] else []
    case G3 => UnknownIn(at, s.clusterIds, ctx.ledger)
    case G4 =>
      if s.kind == Meta then []
      else CheckQuantities(at, s.text, ctx.texts.quantities(s.text), if s.kind == Fact then s.clusterIds else s.findingRefs, ctx, listed)
    case G5 =>
      var contested := ContestedIn(s.clusterIds, ctx.ledger);
      if contested == [] || at.key == Conflicting || Uncertain in s.labels then [] else [Unhedged(at, contested)]
    case G6 =>
      if s.kind == Fact && OnlySingleSourced(s.clusterIds, ctx.ledger) && SingleSource !in s.labels then [Unlabelled(at)] else []
    case G9 => if ctx.texts.redact(s.text) != s.text then [SensitiveText(at)] else []
    case G11 =>
      if s.kind == Recommendation && Known(s.findingRefs, ctx.ledger) == [] then [Unlinked(at)] else []
    case G12 => IneligibleIn(at, s.clusterIds + s.findingRefs, ctx.ledger)
  }

  function ScanSentences(rule: Rule, ctx: Context, listed: nat, key: SectionKey, sentences: seq<Sentence>): seq<Violation> {
    if sentences == [] then []
    else
      var i := |sentences| - 1;
      ScanSentences(rule, ctx, listed, key, sentences[..i]) + AtSentence(rule, ctx, listed, Address(key, i), sentences[i])
  }

  function ScanSections(rule: Rule, ctx: Context, listed: nat, sections: seq<Section>): seq<Violation> {
    if sections == [] then []
    else
      var last := sections[|sections| - 1];
      ScanSections(rule, ctx, listed, sections[..|sections| - 1]) + ScanSentences(rule, ctx, listed, last.key, last.sentences)
  }

  // --- the rules that look at the whole report ---

  predicate AnyExhausted(plan: seq<SubQuestion>) {
    exists i | 0 <= i < |plan| :: plan[i].status == Exhausted
  }

  function Required(ctx: Context): seq<SectionKey> {
    ctx.required + if AnyExhausted(ctx.ledger.plan) then [KnownGaps] else []
  }

  function MissingOf(required: seq<SectionKey>, sections: seq<Section>): seq<Violation> {
    if required == [] then []
    else
      var last := required[|required| - 1];
      MissingOf(required[..|required| - 1], sections) + if Lookup(sections, last).Some? then [] else [MissingSection(last)]
  }

  predicate HasFinding(sections: seq<Section>) {
    var findings := Sentences(sections, KeyFindings);
    exists i | 0 <= i < |findings| :: findings[i].kind == Fact && findings[i].clusterIds != []
  }

  function CheckSections(sections: seq<Section>, ctx: Context): seq<Violation> {
    MissingOf(Required(ctx), sections)
    + if Lookup(sections, KeyFindings).Some? && !HasFinding(sections) then [NoSupportedFinding] else []
  }

  function Citations(sentences: seq<Sentence>): seq<string> {
    if sentences == [] then []
    else
      var last := sentences[|sentences| - 1];
      Citations(sentences[..|sentences| - 1]) + last.clusterIds + last.findingRefs
  }

  function AllCitations(sections: seq<Section>): seq<string> {
    if sections == [] then []
    else AllCitations(sections[..|sections| - 1]) + Citations(sections[|sections| - 1].sentences)
  }

  function AddDocs(ordered: seq<string>, docs: seq<string>, ledger: Ledger): seq<string> {
    if docs == [] then ordered
    else
      var before := AddDocs(ordered, docs[..|docs| - 1], ledger);
      var d := docs[|docs| - 1];
      if d !in before && d in ledger.documents then before + [d] else before
  }

  function AddCited(ordered: seq<string>, cids: seq<string>, ledger: Ledger): seq<string> {
    if cids == [] then ordered
    else
      var before := AddCited(ordered, cids[..|cids| - 1], ledger);
      var c := cids[|cids| - 1];
      if c in ledger.clusters then AddDocs(before, ledger.clusters[c].docIds, ledger) else before
  }

  // Documents behind every cited finding, in order of first citation.
  function CitedDocs(sections: seq<Section>, ledger: Ledger): seq<string> {
    AddCited([], AllCitations(sections), ledger)
  }

  function ListedUncited(sources: seq<Source>, cited: seq<string>): seq<Violation> {
    if sources == [] then []
    else
      var before := ListedUncited(sources[..|sources| - 1], cited);
      var d := sources[|sources| - 1].docId;
      if d in cited || ListedNotCited(d) in before then before else before + [ListedNotCited(d)]
  }

  function CitedUnlisted(cited: seq<string>, sources: seq<Source>): seq<Violation> {
    if cited == [] then []
    else
      var d := cited[|cited| - 1];
      CitedUnlisted(cited[..|cited| - 1], sources)
      + if exists i | 0 <= i < |sources| :: sources[i].docId == d then [] else [CitedNotListed(d)]
  }

  predicate HasGap(sentences: seq<Sentence>, subq: string) {
    exists i | 0 <= i < |sentences| :: Gap(subq) in sentences[i].labels
  }

  function CheckGaps(plan: seq<SubQuestion>, gaps: seq<Sentence>): seq<Violation> {
    if plan == [] then []
    else
      var subq := plan[|plan| - 1];
      CheckGaps(plan[..|plan| - 1], gaps) + if subq.status == Exhausted && !HasGap(gaps, subq.id) then [MissingGap(subq.id)] else []
  }

  // The source at `i` against those before it that have a valid URL.
  predicate Repeats(sources: seq<Source>, i: nat, canonical: string -> Option<string>)
    requires i < |sources|
  {
    exists j | 0 <= j < i ::
      canonical(sources[j].url).Some? && (canonical(sources[j].url) == canonical(sources[i].url) || sources[j].docId == sources[i].docId)
  }

  function CheckSource(sources: seq<Source>, i: nat, canonical: string -> Option<string>): seq<Violation>
    requires i < |sources|
  {
    var source := sources[i];
    var url := canonical(source.url);
    if url.None? then [InvalidUrl(source.number)]
    else
      (if url.value != source.url then [NotCanonical(source.number)] else [])
      + (if Repeats(sources, i, canonical) then [DuplicateSource(source.number)] else [])
  }

  function CheckUrls(sources: seq<Source>, n: nat, canonical: string -> Option<string>): seq<Violation>
    requires n <= |sources|
  {
    if n == 0 then [] else CheckUrls(sources, n - 1, canonical) + CheckSource(sources, n - 1, canonical)
  }

  function SensitiveTitles(sources: seq<Source>, redact: string -> string): seq<Violation> {
    if sources == [] then []
    else
      var last := sources[|sources| - 1];
      SensitiveTitles(sources[..|sources| - 1], redact) + if redact(last.title) != last.title then [SensitiveSource(last.number)] else []
  }

  function Prose(sentences: seq<Sentence>): seq<string> {
    if sentences == [] then []
    else
      var last := sentences[|sentences| - 1];
      Prose(sentences[..|sentences| - 1]) + if last.kind == Meta then [] else [last.text]
  }

  function AllProse(sections: seq<Section>): seq<string> {
    if sections == [] then [] else AllProse(sections[..|sections| - 1]) + Prose(sections[|sections| - 1].sentences)
  }

  function Joined(texts: seq<string>): string {
    if texts == [] then ""
    else if |texts| == 1 then texts[0]
    else Joined(texts[..|texts| - 1]) + " " + texts[|texts| - 1]
  }

  function CheckLanguage(sections: seq<Section>, ctx: Context): seq<Violation> {
    if ctx.texts.offLanguage(Joined(AllProse(sections))) then [WrongLanguage] else []
  }

  // --- all rules, in order ---

  datatype Check = Sections | Each(rule: Rule) | Citing | Gaps | Urls | Sensitive | Language

  // G1 to G12.
  const RULES := [Sections, Each(G2), Citing, Each(G4), Each(G5), Each(G6), Gaps, Urls, Sensitive, Language, Each(G11), Each(G12)]

  function Found(check: Check, report: Report, ctx: Context): seq<Violation> {
    match check
    case Sections => CheckSections(report.sections, ctx)
    case Each(rule) => ScanSections(rule, ctx, |report.sources|, report.sections)
    case Citing =>
      var cited := CitedDocs(report.sections, ctx.ledger);
      ScanSections(G3, ctx, |report.sources|, report.sections) + ListedUncited(report.sources, cited) + CitedUnlisted(Sort(cited, AtMost), report.sources)
    case Gaps => CheckGaps(ctx.ledger.plan, Sentences(report.sections, KnownGaps))
    case Urls => CheckUrls(report.sources, |report.sources|, ctx.texts.canonical)
    case Sensitive =>
      ScanSections(G9, ctx, |report.sources|, report.sections) + SensitiveTitles(report.sources, ctx.texts.redact)
    case Language => CheckLanguage(report.sections, ctx)
  }

  function FoundIn(report: Report, ctx: Context): Check -> seq<Violation> {
    check => Found(check, report, ctx)
  }

  function Gathered<C, V>(checks: seq<C>, found: C -> seq<V>): seq<V> {
    if checks == [] then [] else Gathered(checks[..|checks| - 1], found) + found(checks[|checks| - 1])
  }

  function Violations(report: Report, ctx: Context): seq<Violation> {
    Gathered(RULES, FoundIn(report, ctx))
  }
}
