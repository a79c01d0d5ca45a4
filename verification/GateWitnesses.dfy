/** Reports of one sentence that one round does not bring in order, one for each condition of `GateOutcome`. */
module GateWitnesses {
  import opened Wrappers
  import opened Numeric
  import opened Evidence
  import opened Reports
  import opened GateRules
  import opened GateRemedy
  import opened GateRound
  import opened GateSentences
  import opened RoundMeaning
  import opened GateCitations
  import opened GateTheorems
  import opened GateSources
  import opened GateConvergence
  import opened GateOutcome
  import opened GateEvaluate
  import opened GateCounts
  import opened QuantityMeaning
  import opened RuleMeaning

  // Every report has its round.
  method RunRound(ctx: Context, words: Wording, report: Report) returns (after: Report, removed: nat)
    requires DistinctKeys(report.sections)
    ensures OneRound(ctx, words, report, after, removed)
  {
    var found := Evaluate(report, ctx);
    ViolationsAreGenuine(report, ctx);
    after, removed := Remediate(ctx, words, report, ToRemedy(found));
  }

  // --- a report of one sentence without sources ---

  function Single(key: SectionKey, s: Sentence): Report {
    Report([Section(key, [s])], [])
  }

  lemma SingleLooksUp(key: SectionKey, s: Sentence)
    ensures DistinctKeys(Single(key, s).sections)
    ensures forall k :: Sentences(Single(key, s).sections, k) == if k == key then [s] else []
    ensures forall k :: HasKey(Single(key, s).sections, k) <==> k == key
  {
    var sections := Single(key, s).sections;
    forall k ensures Lookup(sections, k) == if k == key then Some(Section(key, [s])) else None {
      assert sections[1..] == [];
    }
  }

  // It has exactly the flags of its sentence, and `vs` is what a round starts from.
  lemma SingleFlags(ctx: Context, key: SectionKey, s: Sentence, v: Violation)
    requires HasAddress(v)
    ensures v in ToRemedy(Violations(Single(key, s), ctx)) <==> v.at == Address(key, 0) && exists rule :: v in AtSentence(rule, ctx, 0, v.at, s)
  {
    SingleLooksUp(key, s);
    ViolationsAreFlags(Single(key, s), ctx);
    FlagOfSingle(ctx, key, s, Violations(Single(key, s), ctx), ToRemedy(Violations(Single(key, s), ctx)), v);
  }

  lemma FlagOfSingle(ctx: Context, key: SectionKey, s: Sentence, found: seq<Violation>, vs: seq<Violation>, v: Violation)
    requires AllFlags(Single(key, s), ctx, found) && Selected(found, vs) && HasAddress(v)
    ensures v in vs <==> v.at == Address(key, 0) && exists rule :: v in AtSentence(rule, ctx, 0, v.at, s)
  {
    var report := Single(key, s);
    SingleLooksUp(key, s);
    assert v in vs <==> Flagged(report, ctx, v);
    assert InReport(report.sections, v.at) <==> v.at == Address(key, 0);
    assert v.at == Address(key, 0) ==> At(report, v.at) == s;
    if rule: Rule :| v.at == Address(key, 0) && v in AtSentence(rule, ctx, 0, v.at, s) {
      assert Shows(report, ctx, rule, v);
      ShownIsFlagged(report, ctx, rule, v);
    }
  }

  // A fact that cites one finding in good standing; only its text can be at fault.
  ghost predicate WellCited(ctx: Context, s: Sentence) {
    && s.kind == Fact && |s.clusterIds| == 1 && s.findingRefs == [] && s.clusterIds[0] in ctx.ledger.clusters
    && var cluster := ctx.ledger.clusters[s.clusterIds[0]];
      cluster.status == Supported && !cluster.requiresFresh && cluster.claimIds == []
  }

  lemma OnlyItsText(ctx: Context, listed: nat, at: Address, s: Sentence, rule: Rule)
    requires WellCited(ctx, s) && rule != G4 && rule != G9
    ensures AtSentence(rule, ctx, listed, at, s) == []
  {
    var c := s.clusterIds[0];
    assert s.clusterIds + s.findingRefs == [c] == s.clusterIds && [c][..0] == [];
    match rule
    case G3 => assert UnknownIn(at, [c], ctx.ledger) == UnknownIn(at, [], ctx.ledger);
    case G5 => assert ContestedIn([c], ctx.ledger) == ContestedIn([], ctx.ledger);
    case G6 => assert c in [c];
    case G12 =>
      assert !IneligibleCluster(c, ctx.ledger);
      assert IneligibleIn(at, [c], ctx.ledger) == IneligibleIn(at, [], ctx.ledger);
    case _ =>
  }

  lemma NotDropped(ctx: Context, at: Address, s: Sentence, rule: Rule, v: Violation)
    requires WellCited(ctx, s) && ctx.texts.quantities(s.text) == [] && v in AtSentence(rule, ctx, 0, at, s)
    ensures v.SensitiveText?
  {
    if rule != G4 && rule != G9 { OnlyItsText(ctx, 0, at, s, rule); }
  }

  // The sentence stays unless its numbers are at fault.
  lemma StaysIfCounted(ctx: Context, key: SectionKey, s: Sentence)
    requires WellCited(ctx, s) && ctx.texts.quantities(s.text) == []
    ensures Stays(ctx, ToRemedy(Violations(Single(key, s), ctx)), Single(key, s), Address(key, 0))
  {
    var report, at := Single(key, s), Address(key, 0);
    var vs := ToRemedy(Violations(report, ctx));
    SingleLooksUp(key, s);
    if Doomed(ctx, vs, at, s) {
      var v := DoomedHasCause(ctx, vs, at, s);
      SingleFlags(ctx, key, s, v);
      var rule :| v in AtSentence(rule, ctx, 0, at, s);
      NotDropped(ctx, at, s, rule, v);
    }
  }

  // --- a true zero ---

  const F1 := Cluster("f1", "q1", [], [], [], [], "", "", "", [], "", "", false, 0.0, 0.0, false, Supported)
  const NO_CONTRADICTIONS := "0 contradictions"
  const ZERO := Quantity(Number, 0, 1, [0.0], None, None, None, 0, 1.0)

  function FactStating(text: string): Sentence {
    Sentence(text, Fact, ["f1"], [], [])
  }

  function LedgerOf(docs: seq<string>, documents: map<string, Document>, plan: seq<SubQuestion>): Ledger {
    Ledger(map["f1" := F1.(docIds := docs)], map[], documents, plan, "", 0, 0, 0)
  }

  // Nothing is masked, and no text holds a number but the given one.
  function TextsOf(text: string, qs: seq<Quantity>, noun: Option<Noun>): Texts {
    Texts(url => Some(url), t => t, t => if t == text then qs else [], (t, q) => noun, t => false)
  }

  const COUNTING := Context(TextsOf(NO_CONTRADICTIONS, [ZERO], Some(ContradictionNoun)), LedgerOf([], map[], []), [KeyFindings], EXACT)

  // The ledger holds no contradiction, the sentence says so, and this is the only thing flagged; it is dropped.
  lemma TrueZeroIsDropped(ctx: Context, s: Sentence)
    requires ctx == COUNTING && s == FactStating(NO_CONTRADICTIONS)
    ensures LedgerExpected(ContradictionNoun, s.clusterIds, ctx.ledger, 0) == {0} && ctx.texts.quantities(s.text) == [ZERO]
    ensures var report, at := Single(KeyFindings, s), Address(KeyFindings, 0);
      && (forall v | HasAddress(v) :: v in Violations(report, ctx) <==> v == LedgerMismatch(at))
      && !Stays(ctx, ToRemedy(Violations(report, ctx)), report, at)
  {
    var report, at := Single(KeyFindings, s), Address(KeyFindings, 0);
    ZeroIsFlagged(ctx, s);
    forall v | HasAddress(v) ensures v in Violations(report, ctx) ==> v == LedgerMismatch(at) { NothingElse(ctx, s, v); }
  }

  lemma ZeroIsFlagged(ctx: Context, s: Sentence)
    requires ctx == COUNTING && s == FactStating(NO_CONTRADICTIONS)
    ensures var report, at := Single(KeyFindings, s), Address(KeyFindings, 0);
      LedgerMismatch(at) in Violations(report, ctx) && !Stays(ctx, ToRemedy(Violations(report, ctx)), report, at)
  {
    SingleLooksUp(KeyFindings, s);
    assert !MatchesAny(ZERO, ctx.texts.quantities(""), EXACT);
    ZeroCountIsDropped(Single(KeyFindings, s), ctx, Address(KeyFindings, 0), ZERO, ContradictionNoun);
  }

  lemma NothingElse(ctx: Context, s: Sentence, v: Violation)
    requires ctx == COUNTING && s == FactStating(NO_CONTRADICTIONS) && HasAddress(v)
    ensures v in Violations(Single(KeyFindings, s), ctx) ==> v == LedgerMismatch(Address(KeyFindings, 0))
  {
    if v in Violations(Single(KeyFindings, s), ctx) {
      ToRemedyMembers(Violations(Single(KeyFindings, s), ctx));
      SingleFlags(ctx, KeyFindings, s, v);
      var rule :| v in AtSentence(rule, ctx, 0, Address(KeyFindings, 0), s);
      OnlyTheCount(ctx, s, Address(KeyFindings, 0), rule, v);
    }
  }

  lemma OnlyTheCount(ctx: Context, s: Sentence, at: Address, rule: Rule, v: Violation)
    requires ctx == COUNTING && s == FactStating(NO_CONTRADICTIONS) && v in AtSentence(rule, ctx, 0, at, s)
    ensures v == LedgerMismatch(at)
  {
    if rule == G4 {
      QuantityMembers(at, s.text, [ZERO], s.clusterIds, ctx, 0);
      CountIsFlaggedIff(at, s.text, ZERO, s.clusterIds, ctx, 0, ContradictionNoun);
    } else if rule != G9 {
      OnlyItsText(ctx, 0, at, s, rule);
    }
  }

  // --- an amount against its source ---

  const TEN_MILLION := "10 million EUR"
  const TWENTY_MILLION := "20 million EUR"

  function Euros(amount: real): Quantity {
    Quantity(Money, 0, 14, [amount], Some("EUR"), None, None, 0, 1000000.0)
  }

  // The one finding cited states the given amount.
  function Amounts(source: string): Context {
    Context(
      Texts(url => Some(url), t => t,
            t => if t == TEN_MILLION then [Euros(10000000.0)] else if t == TWENTY_MILLION then [Euros(20000000.0)] else [],
            (t, q) => None, t => false),
      LedgerOf([], map[], []).(clusters := map["f1" := F1.(statement := source)]), [KeyFindings], EXACT)
  }

  lemma EurosAgree(a: real, b: real, t: Tolerance)
    requires t.relative == 0.0 && a in {10000000.0, 20000000.0} && b in {10000000.0, 20000000.0}
    ensures Agree(Euros(a), Euros(b), t) <==> a == b
  {
    var left, right := Euros(a), Euros(b);
    assert left.values == [a] && right.values == [b];
    if a == b { assert a in left.values && b in right.values && SameNumber(a, b); }
  }

  // Twenty million is bare when the source says ten, and fine when it says twenty.
  lemma OnlyItsOwnAmountIsBacked(ctx: Context, source: string, s: Sentence)
    requires ctx == Amounts(source) && source in {TEN_MILLION, TWENTY_MILLION} && s == FactStating(TWENTY_MILLION)
    ensures BareFact(Address(KeyFindings, 0)) in Violations(Single(KeyFindings, s), ctx) <==> source == TEN_MILLION
  {
    var q, at := Euros(20000000.0), Address(KeyFindings, 0);
    SingleLooksUp(KeyFindings, s);
    assert ctx.texts.quantities(s.text) == [q] && ctx.texts.quantities(ctx.ledger.question) == [];
    EurosAgree(20000000.0, 10000000.0, EXACT);
    EurosAgree(20000000.0, 20000000.0, EXACT);
    BackedByStatement(ctx, source, q);
    BareFactIff(Single(KeyFindings, s), ctx, at, s);
    assert NeedsSource(s.text, q, ctx);
    assert q in ctx.texts.quantities(s.text);
  }

  lemma BackedByStatement(ctx: Context, source: string, q: Quantity)
    requires ctx == Amounts(source) && source in {TEN_MILLION, TWENTY_MILLION}
    ensures Backed(q, ["f1"], ctx, EXACT) <==> Same(q, ctx.texts.quantities(source)[0], EXACT)
  {
    assert ctx.ledger.clusters["f1"].statement == source && "f1" in ["f1"];
    forall text ensures BehindText(ctx.ledger, ["f1"], text) <==> text == source {
      assert SaidBy(ctx.ledger, ctx.ledger.clusters["f1"], source);
    }
    var stated := ctx.texts.quantities(source);
    assert |stated| == 1 && stated[0] in stated && forall other | other in stated :: other == stated[0];
    assert StatedIn(q, source, ctx, EXACT) <==> Same(q, stated[0], EXACT);
    if Same(q, stated[0], EXACT) { assert BehindText(ctx.ledger, ["f1"], source); }
  }

  // --- a masked text that states a number ---

  // Text in angle brackets is no prose, and its numbers are not read; the mask's own brackets end it early.
  const RAW := "<a@b.co 5>"
  const SHOWN := "<<EMAIL> 5>"
  const FIVE := Quantity(Number, 9, 10, [5.0], None, None, None, 0, 1.0)
  const MASKING := Context(
    Texts(url => Some(url), t => if t == RAW then SHOWN else t, t => if t == SHOWN then [FIVE] else [], (t, q) => None, t => false),
    LedgerOf([], map[], []), [KeyFindings], EXACT)

  lemma NothingStatesFive(at: Address)
    ensures CheckQuantity(at, SHOWN, FIVE, ["f1"], MASKING, 0) == [BareFact(at)]
  {
    assert forall c | c in ["f1"] :: c == "f1";
    assert MASKING.texts.quantities("") == [];
  }

  lemma ShownStatesFive(vs: seq<Violation>, at: Address)
    requires SensitiveText(at) in vs
    ensures !ReadsWell(MASKING, vs, 0, at, FactStating(RAW))
  {
    MaskedText(MASKING, vs, at, FactStating(RAW));
    NothingStatesFive(at);
    QuantityMembers(at, SHOWN, [FIVE], ["f1"], MASKING, 0);
    assert BareFact(at) in ShownNumbers(MASKING, vs, 0, at, FactStating(RAW));
  }

  lemma MaskIsUnsafe(ctx: Context, s: Sentence)
    requires ctx == MASKING && s == FactStating(RAW)
    ensures var before, at := Single(KeyFindings, s), Address(KeyFindings, 0); var vs := ToRemedy(Violations(before, ctx));
      Stays(ctx, vs, before, at) && SensitiveText(at) in vs && !ReadsWell(ctx, vs, 0, at, At(before, at))
  {
    var at := Address(KeyFindings, 0);
    SingleLooksUp(KeyFindings, s);
    StaysIfCounted(ctx, KeyFindings, s);
    MaskIsAsked(ctx, KeyFindings, s);
    ShownStatesFive(ToRemedy(Violations(Single(KeyFindings, s), ctx)), at);
  }

  lemma MaskIsAsked(ctx: Context, key: SectionKey, s: Sentence)
    requires ctx.texts.redact(s.text) != s.text
    ensures SensitiveText(Address(key, 0)) in ToRemedy(Violations(Single(key, s), ctx))
  {
    assert SensitiveText(Address(key, 0)) in AtSentence(G9, ctx, 0, Address(key, 0), s);
    SingleFlags(ctx, key, s, SensitiveText(Address(key, 0)));
  }

  // Only the mask is wanted; the masked sentence then states a five that no source states.
  lemma MaskBringsANumber(ctx: Context, s: Sentence, words: Wording, after: Report, removed: nat)
    requires ctx == MASKING && s == FactStating(RAW) && OneRound(ctx, words, Single(KeyFindings, s), after, removed)
    ensures var before := Single(KeyFindings, s); !MaskSafe(ctx, ToRemedy(Violations(before, ctx)), before)
    ensures exists v :: v in Violations(after, ctx) && HasAddress(v) && IsError(v)
  {
    MaskIsUnsafe(ctx, s);
    UnsafeMaskLeavesAnError(ctx, words, Single(KeyFindings, s), after, removed, Address(KeyFindings, 0));
  }

  lemma UnsafeMaskLeavesAnError(ctx: Context, words: Wording, before: Report, after: Report, removed: nat, at: Address)
    requires OneRound(ctx, words, before, after, removed)
    requires var vs := ToRemedy(Violations(before, ctx)); Stays(ctx, vs, before, at) && !ReadsWell(ctx, vs, |before.sources|, at, At(before, at))
    ensures exists v :: v in Violations(after, ctx) && HasAddress(v) && IsError(v)
  {
    var found := Violations(before, ctx);
    ViolationsAreFlags(before, ctx);
    ViolationsAreFlags(after, ctx);
    UnsafeMaskIsError(ctx, words, before, found, ToRemedy(found), after, Violations(after, ctx), at);
  }

  // --- a gap that goes with the sentence listing it ---

  const LISTING := Sentence("not found", Fact, [], [], [Gap("q1")])
  const GAPS := Context(TextsOf("", [], None), LedgerOf([], map[], [SubQuestion("q1", "", false, [], Exhausted, 0, "")]), [], EXACT)

  lemma GapIsLost(words: Wording, after: Report, removed: nat)
    requires OneRound(GAPS, words, Single(KnownGaps, LISTING), after, removed)
    ensures MissingGap("q1") !in Violations(Single(KnownGaps, LISTING), GAPS)
    ensures MissingGap("q1") in Violations(after, GAPS)
  {
    var before, at := Single(KnownGaps, LISTING), Address(KnownGaps, 0);
    var vs := ToRemedy(Violations(before, GAPS));
    SingleLooksUp(KnownGaps, LISTING);
    assert GAPS.ledger.plan[0].status == Exhausted && GAPS.ledger.plan[0].id == "q1";
    assert Sentences(before.sections, KnownGaps)[0] == LISTING;
    ViolationsAreFlags(before, GAPS);
    GapFlag(before, GAPS, Violations(before, GAPS), "q1");
    assert Uncited(at) in AtSentence(G2, GAPS, 0, at, LISTING);
    SingleFlags(GAPS, KnownGaps, LISTING, Uncited(at));
    DropDooms(GAPS, vs, Uncited(at), at, LISTING);
    GapsAfterwards(GAPS, words, before, after, removed, "q1");
  }

  // --- documents that the rebuilt list cannot show ---

  function PageAt(url: string): Document {
    Document("", url, "", "", 0.0, false)
  }

  // As the code does: only web addresses, one scheme, and one leading "www." less.
  function Canonical(url: string): Option<string> {
    if url == "ftp://a.org/" then None
    else if url == "http://a.org/" then Some("https://a.org/")
    else if url == "https://www.www.a.org/" then Some("https://www.a.org/")
    else if url == "https://www.a.org/" then Some("https://a.org/")
    else Some(url)
  }

  function Pages(urls: map<string, string>, docs: seq<string>): Context {
    Context(TextsOf("", [], None).(canonical := url => Canonical(url)),
            LedgerOf(docs, map d | d in urls :: PageAt(urls[d]), []), [KeyFindings], EXACT)
  }

  lemma StaysCited(ctx: Context, s: Sentence, d: string)
    requires CitesPage(ctx, s, d)
    ensures StillCited(ctx, ToRemedy(Violations(Single(KeyFindings, s), ctx)), Single(KeyFindings, s), d)
  {
    SingleLooksUp(KeyFindings, s);
    StaysIfCounted(ctx, KeyFindings, s);
    assert s.clusterIds[0] in s.clusterIds + s.findingRefs;
    assert RestsOn(At(Single(KeyFindings, s), Address(KeyFindings, 0)), ctx.ledger, d);
  }

  ghost predicate CitesPage(ctx: Context, s: Sentence, d: string) {
    && WellCited(ctx, s) && ctx.texts.quantities(s.text) == []
    && d in ctx.ledger.documents && d in ctx.ledger.clusters[s.clusterIds[0]].docIds
  }

  ghost predicate WithoutUrl(ctx: Context, s: Sentence, d: string) {
    CitesPage(ctx, s, d) && UrlOf(ctx, d) == None
  }

  ghost predicate ShareAUrl(ctx: Context, s: Sentence, d: string, e: string) {
    CitesPage(ctx, s, d) && CitesPage(ctx, s, e) && d != e && UrlOf(ctx, d) == UrlOf(ctx, e)
  }

  // The address listed for the page is not canonical itself.
  ghost predicate Unstable(ctx: Context, s: Sentence, d: string) {
    CitesPage(ctx, s, d) && UrlOf(ctx, d).Some? && ctx.texts.canonical(UrlOf(ctx, d).value) != UrlOf(ctx, d)
  }

  lemma WithoutUrlIsUnlisted(ctx: Context, words: Wording, s: Sentence, d: string, after: Report, removed: nat)
    requires OneRound(ctx, words, Single(KeyFindings, s), after, removed) && WithoutUrl(ctx, s, d)
    ensures exists x :: CitedNotListed(x) in Violations(after, ctx)
  {
    StaysCited(ctx, s, d);
    SourcesAfterwards(ctx, words, Single(KeyFindings, s), after, removed);
  }

  lemma OneOfTwoIsUnlisted(ctx: Context, words: Wording, s: Sentence, d: string, e: string, after: Report, removed: nat)
    requires OneRound(ctx, words, Single(KeyFindings, s), after, removed) && ShareAUrl(ctx, s, d, e)
    ensures exists x :: CitedNotListed(x) in Violations(after, ctx)
  {
    StaysCited(ctx, s, d);
    StaysCited(ctx, s, e);
    SourcesAfterwards(ctx, words, Single(KeyFindings, s), after, removed);
  }

  lemma UnstableIsFlagged(ctx: Context, words: Wording, s: Sentence, d: string, after: Report, removed: nat)
    requires OneRound(ctx, words, Single(KeyFindings, s), after, removed) && Unstable(ctx, s, d)
    ensures exists v :: v in Violations(after, ctx) && AboutSources(v)
  {
    StaysCited(ctx, s, d);
    SourcesAfterwards(ctx, words, Single(KeyFindings, s), after, removed);
  }

  // A title that the mask changes twice: what it leaves of a phone number in a text like a connection
  // string, the space before it included, completes the connection string.
  const LEAK := "a://b:c 5551234567@d"
  const ONCE := "a://b:c<PHONE>@d"

  function Masks(text: string): string {
    if text == LEAK then ONCE else if text == ONCE then "<DATABASE_URL>" else text
  }

  const TITLED := Context(TextsOf("", [], None).(redact := t => Masks(t)),
                          LedgerOf(["d1"], map["d1" := Document("", "https://a.org/", LEAK, "", 0.0, false)], []), [KeyFindings], EXACT)

  ghost predicate LeakyTitle(ctx: Context, s: Sentence, d: string) {
    CitesPage(ctx, s, d) && UrlOf(ctx, d).Some? && ctx.texts.redact(TitleOf(ctx, d)) != TitleOf(ctx, d)
  }

  lemma LeakyTitleIsFlagged(ctx: Context, words: Wording, s: Sentence, d: string, after: Report, removed: nat)
    requires OneRound(ctx, words, Single(KeyFindings, s), after, removed) && PlainWords(ctx, words) && LeakyTitle(ctx, s, d)
    ensures !OnlyFindingsLack(Violations(after, ctx))
  {
    StaysCited(ctx, s, d);
    OneRoundIsEnough(ctx, words, Single(KeyFindings, s), after, removed);
  }

  // And there are such reports.
  lemma SuchPagesExist()
    ensures WithoutUrl(Pages(map["d1" := "ftp://a.org/"], ["d1"]), FactStating(""), "d1")
    ensures ShareAUrl(Pages(map["d1" := "http://a.org/", "d2" := "https://a.org/"], ["d1", "d2"]), FactStating(""), "d1", "d2")
    ensures Unstable(Pages(map["d1" := "https://www.www.a.org/"], ["d1"]), FactStating(""), "d1")
    ensures LeakyTitle(TITLED, FactStating(""), "d1")
  {
    assert TitleOf(TITLED, "d1") == Masks(LEAK) == ONCE && TITLED.texts.redact(ONCE) == Masks(ONCE);
    var ctx := Pages(map["d1" := "https://www.www.a.org/"], ["d1"]);
    assert UrlOf(ctx, "d1") == Some("https://www.a.org/") && ctx.texts.canonical("https://www.a.org/") == Some("https://a.org/");
  }
}
