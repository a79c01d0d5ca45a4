/** What each rule of the gate reports, in terms of the fields of the report and of the ledger alone. */
module RuleMeaning {
  import opened Wrappers
  import opened Numeric
  import opened QuantityMeaning
  import opened Sorting
  import opened NameOrder
  import opened Evidence
  import opened Reports
  import opened GateRules
  import opened GateRemedy
  import opened GateSentences
  import opened GateCitations
  import opened GateTheorems
  import opened GateConvergence

  // The sentence stands at that address.
  ghost predicate Reads(report: Report, at: Address, s: Sentence) {
    at.index < |Sentences(report.sections, at.key)| && Sentences(report.sections, at.key)[at.index] == s
  }

  // --- one sentence ---

  lemma SentenceFlag(report: Report, ctx: Context, at: Address, s: Sentence, v: Violation)
    requires DistinctKeys(report.sections) && Reads(report, at, s) && HasAddress(v) && v.at == at
    ensures v in Violations(report, ctx) <==> exists rule :: v in AtSentence(rule, ctx, |report.sources|, at, s)
  {
    ViolationMembers(report, ctx, v);
  }

  // Only that one rule speaks of such a violation.
  lemma OneRule(report: Report, ctx: Context, at: Address, s: Sentence, rule: Rule, v: Violation)
    requires DistinctKeys(report.sections) && Reads(report, at, s) && HasAddress(v) && v.at == at
    requires forall other: Rule | other != rule :: v !in AtSentence(other, ctx, |report.sources|, at, s)
    ensures v in Violations(report, ctx) <==> v in AtSentence(rule, ctx, |report.sources|, at, s)
  {
    SentenceFlag(report, ctx, at, s, v);
  }

  lemma KindOfFlag(rule: Rule, ctx: Context, listed: nat, at: Address, s: Sentence, v: Violation)
    requires v in AtSentence(rule, ctx, listed, at, s)
    ensures match rule
      case G2 => v.Uncited?
      case G3 => v.UnknownCitation?
      case G4 => v.LedgerMismatch? || v.BareFact? || v.WithinTolerance?
      case G5 => v.Unhedged?
      case G6 => v.Unlabelled?
      case G9 => v.SensitiveText?
      case G11 => v.Unlinked?
      case G12 => v.Ineligible?
  {
    if rule == G3 { UnknownMembers(at, s.clusterIds, ctx.ledger); }
    if rule == G12 { IneligibleMembers(at, s.clusterIds + s.findingRefs, ctx.ledger); }
    if rule == G4 && s.kind != Meta { NumberFlags(at, s.text, ctx.texts.quantities(s.text), Refs(s), ctx, listed, v); }
  }

  lemma OnlyRule(report: Report, ctx: Context, at: Address, s: Sentence, v: Violation) returns (rule: Rule)
    requires DistinctKeys(report.sections) && Reads(report, at, s) && HasAddress(v) && v.at == at
    ensures rule == (match v
      case Uncited(_) => G2 case UnknownCitation(_, _) => G3 case Unhedged(_, _) => G5 case Unlabelled(_) => G6
      case SensitiveText(_) => G9 case Unlinked(_) => G11 case Ineligible(_, _) => G12 case _ => G4)
    ensures v in Violations(report, ctx) <==> v in AtSentence(rule, ctx, |report.sources|, at, s)
  {
    rule := match v
      case Uncited(_) => G2 case UnknownCitation(_, _) => G3 case Unhedged(_, _) => G5 case Unlabelled(_) => G6
      case SensitiveText(_) => G9 case Unlinked(_) => G11 case Ineligible(_, _) => G12 case _ => G4;
    forall other: Rule | other != rule ensures v !in AtSentence(other, ctx, |report.sources|, at, s) {
      if v in AtSentence(other, ctx, |report.sources|, at, s) { KindOfFlag(other, ctx, |report.sources|, at, s, v); }
    }
    OneRule(report, ctx, at, s, rule, v);
  }

  // A fact without a citation.
  lemma UncitedIff(report: Report, ctx: Context, at: Address, s: Sentence)
    requires DistinctKeys(report.sections) && Reads(report, at, s)
    ensures Uncited(at) in Violations(report, ctx) <==> s.kind == Fact && s.clusterIds == []
  {
    var rule := OnlyRule(report, ctx, at, s, Uncited(at));
  }

  // A citation the ledger does not have.
  lemma UnknownCitationIff(report: Report, ctx: Context, at: Address, s: Sentence, c: string)
    requires DistinctKeys(report.sections) && Reads(report, at, s)
    ensures UnknownCitation(at, c) in Violations(report, ctx) <==> c in s.clusterIds && c !in ctx.ledger.clusters
  {
    var rule := OnlyRule(report, ctx, at, s, UnknownCitation(at, c));
    UnknownMembers(at, s.clusterIds, ctx.ledger);
  }

  lemma {:induction false} ContestedMembers(ids: seq<string>, ledger: Ledger)
    ensures forall c :: c in ContestedIn(ids, ledger) <==> c in ids && c in ledger.clusters && ledger.clusters[c].status == Contested
  {
    if ids != [] {
      ContestedMembers(ids[..|ids| - 1], ledger);
      assert ids == ids[..|ids| - 1] + [ids[|ids| - 1]];
    }
  }

  // A contested finding cited outside the section for them and without the label.
  lemma UnhedgedIff(report: Report, ctx: Context, at: Address, s: Sentence)
    requires DistinctKeys(report.sections) && Reads(report, at, s)
    ensures (exists cs :: Unhedged(at, cs) in Violations(report, ctx)) <==>
      && at.key != Conflicting && Uncertain !in s.labels
      && exists c :: c in s.clusterIds && c in ctx.ledger.clusters && ctx.ledger.clusters[c].status == Contested
  {
    var contested := ContestedIn(s.clusterIds, ctx.ledger);
    ContestedMembers(s.clusterIds, ctx.ledger);
    if contested != [] { assert contested[0] in contested; }
    forall cs ensures Unhedged(at, cs) in Violations(report, ctx) <==> Unhedged(at, cs) in AtSentence(G5, ctx, |report.sources|, at, s) {
      var rule := OnlyRule(report, ctx, at, s, Unhedged(at, cs));
    }
    assert AtSentence(G5, ctx, |report.sources|, at, s) != [] ==> Unhedged(at, contested) in AtSentence(G5, ctx, |report.sources|, at, s);
  }

  // A fact all of whose findings have a single source, without the label.
  lemma UnlabelledIff(report: Report, ctx: Context, at: Address, s: Sentence)
    requires DistinctKeys(report.sections) && Reads(report, at, s)
    ensures Unlabelled(at) in Violations(report, ctx) <==>
      && s.kind == Fact && SingleSource !in s.labels
      && (exists c :: c in s.clusterIds && c in ctx.ledger.clusters)
      && forall c | c in s.clusterIds && c in ctx.ledger.clusters :: ctx.ledger.clusters[c].status == SingleSourced
  {
    var rule := OnlyRule(report, ctx, at, s, Unlabelled(at));
    KnownMembers(s.clusterIds, ctx.ledger);
    if Known(s.clusterIds, ctx.ledger) != [] { assert Known(s.clusterIds, ctx.ledger)[0] in Known(s.clusterIds, ctx.ledger); }
  }

  lemma SensitiveTextIff(report: Report, ctx: Context, at: Address, s: Sentence)
    requires DistinctKeys(report.sections) && Reads(report, at, s)
    ensures SensitiveText(at) in Violations(report, ctx) <==> ctx.texts.redact(s.text) != s.text
  {
    var rule := OnlyRule(report, ctx, at, s, SensitiveText(at));
  }

  // A recommendation none of whose references is a finding.
  lemma UnlinkedIff(report: Report, ctx: Context, at: Address, s: Sentence)
    requires DistinctKeys(report.sections) && Reads(report, at, s)
    ensures Unlinked(at) in Violations(report, ctx) <==> s.kind == Recommendation && forall c | c in s.findingRefs :: c !in ctx.ledger.clusters
  {
    var rule := OnlyRule(report, ctx, at, s, Unlinked(at));
    KnownMembers(s.findingRefs, ctx.ledger);
    if Known(s.findingRefs, ctx.ledger) != [] { assert Known(s.findingRefs, ctx.ledger)[0] in Known(s.findingRefs, ctx.ledger); }
  }

  // A finding that awaits confirmation, or with a claim that was refuted or never judged.
  lemma IneligibleIff(report: Report, ctx: Context, at: Address, s: Sentence, c: string)
    requires DistinctKeys(report.sections) && Reads(report, at, s)
    ensures Ineligible(at, c) in Violations(report, ctx) <==>
      && (c in s.clusterIds || c in s.findingRefs) && c in ctx.ledger.clusters
      && (ctx.ledger.clusters[c].requiresFresh
          || exists k :: k in ctx.ledger.clusters[c].claimIds && k in ctx.ledger.claims && ctx.ledger.claims[k].validation in {Unsupported, Unavailable})
  {
    var rule := OnlyRule(report, ctx, at, s, Ineligible(at, c));
    IneligibleMembers(at, s.clusterIds + s.findingRefs, ctx.ledger);
  }

  // --- numbers ---

  // A text behind the cited findings: of the finding, or of a claim of it.
  ghost predicate BehindText(ledger: Ledger, refs: seq<string>, text: string) {
    text != "" && exists c :: c in refs && c in ledger.clusters && SaidBy(ledger, ledger.clusters[c], text)
  }

  ghost predicate SaidBy(ledger: Ledger, cluster: Cluster, text: string) {
    || text == cluster.statement || text == cluster.value
    || exists k :: k in cluster.claimIds && k in ledger.claims && ClaimSays(ledger.claims[k], text)
  }

  ghost predicate ClaimSays(claim: Claim, text: string) {
    text == claim.text || text == claim.quote || text == claim.value || text == claim.asOf
  }

  // Two quantities state the same thing; spelled out unless both are dates, which `DatesMatchIff` decides.
  ghost predicate Same(q: Quantity, other: Quantity, t: Tolerance) {
    if q.kind in {Date, Year} && other.kind in {Date, Year} then QuantitiesMatch(q, other, t) else Agree(q, other, t)
  }

  ghost predicate StatedIn(q: Quantity, text: string, ctx: Context, t: Tolerance) {
    exists other :: other in ctx.texts.quantities(text) && Same(q, other, t)
  }

  // Some text behind the citations states the quantity.
  ghost predicate Backed(q: Quantity, refs: seq<string>, ctx: Context, t: Tolerance) {
    exists text :: BehindText(ctx.ledger, refs, text) && StatedIn(q, text, ctx, t)
  }

  lemma MatchesAnyIff(q: Quantity, text: string, ctx: Context, t: Tolerance)
    ensures MatchesAny(q, ctx.texts.quantities(text), t) <==> StatedIn(q, text, ctx, t)
  {
    var others := ctx.texts.quantities(text);
    forall other ensures QuantitiesMatch(q, other, t) <==> Same(q, other, t) {
      if q.kind !in {Date, Year} || other.kind !in {Date, Year} { MatchMeans(q, other, t); }
    }
    if i :| 0 <= i < |others| && QuantitiesMatch(q, others[i], t) { assert others[i] in others; }
    if other :| other in others && Same(q, other, t) { var i :| 0 <= i < |others| && others[i] == other; }
  }

  lemma ClusterStatesIff(q: Quantity, cluster: Cluster, ctx: Context, t: Tolerance)
    ensures ClusterStates(q, cluster, ctx, t) <==> exists text :: text != "" && SaidBy(ctx.ledger, cluster, text) && StatedIn(q, text, ctx, t)
  {
    forall text ensures StatesIn(q, text, ctx, t) <==> text != "" && StatedIn(q, text, ctx, t) { MatchesAnyIff(q, text, ctx, t); }
    if StatesIn(q, cluster.statement, ctx, t) { assert SaidBy(ctx.ledger, cluster, cluster.statement); }
    if StatesIn(q, cluster.value, ctx, t) { assert SaidBy(ctx.ledger, cluster, cluster.value); }
    if k :| k in cluster.claimIds && k in ctx.ledger.claims && ClaimStates(q, ctx.ledger.claims[k], ctx, t) {
      var claim := ctx.ledger.claims[k];
      var text :| ClaimSays(claim, text) && StatesIn(q, text, ctx, t);
      assert SaidBy(ctx.ledger, cluster, text);
    }
    if text :| text != "" && SaidBy(ctx.ledger, cluster, text) && StatedIn(q, text, ctx, t) {
      if text != cluster.statement && text != cluster.value {
        var k :| k in cluster.claimIds && k in ctx.ledger.claims && ClaimSays(ctx.ledger.claims[k], text);
        assert ClaimStates(q, ctx.ledger.claims[k], ctx, t);
      }
    }
  }

  lemma BackedIff(q: Quantity, refs: seq<string>, ctx: Context, t: Tolerance)
    ensures SupportedBy(q, refs, ctx, t) <==> Backed(q, refs, ctx, t)
  {
    if c :| c in refs && c in ctx.ledger.clusters && ClusterStates(q, ctx.ledger.clusters[c], ctx, t) {
      ClusterStatesIff(q, ctx.ledger.clusters[c], ctx, t);
      var text :| text != "" && SaidBy(ctx.ledger, ctx.ledger.clusters[c], text) && StatedIn(q, text, ctx, t);
      assert BehindText(ctx.ledger, refs, text);
    }
    if text :| BehindText(ctx.ledger, refs, text) && StatedIn(q, text, ctx, t) {
      var c :| c in refs && c in ctx.ledger.clusters && SaidBy(ctx.ledger, ctx.ledger.clusters[c], text);
      ClusterStatesIff(q, ctx.ledger.clusters[c], ctx, t);
    }
  }

  // The quantity is up for comparison with the sources: not the question's own, and no count of the ledger.
  ghost predicate NeedsSource(text: string, q: Quantity, ctx: Context) {
    && !StatedIn(q, ctx.ledger.question, ctx, Tolerance(0.0, 0.0, 0))
    && (q.kind != Number || ctx.texts.ledgerNoun(text, q).None?)
  }

  // What is said of one quantity: bare exactly if no text behind the citations states it, even roughly;
  // approximate exactly if some text does so roughly but none exactly.
  lemma QuantityIff(at: Address, text: string, q: Quantity, refs: seq<string>, ctx: Context, listed: nat)
    ensures BareFact(at) in CheckQuantity(at, text, q, refs, ctx, listed) <==>
      NeedsSource(text, q, ctx) && !Backed(q, refs, ctx, Tolerance(0.0, 0.0, 0)) && !Backed(q, refs, ctx, ctx.tolerance)
    ensures WithinTolerance(at) in CheckQuantity(at, text, q, refs, ctx, listed) <==>
      NeedsSource(text, q, ctx) && !Backed(q, refs, ctx, Tolerance(0.0, 0.0, 0)) && Backed(q, refs, ctx, ctx.tolerance)
  {
    MatchesAnyIff(q, ctx.ledger.question, ctx, Tolerance(0.0, 0.0, 0));
    BackedIff(q, refs, ctx, Tolerance(0.0, 0.0, 0));
    BackedIff(q, refs, ctx, ctx.tolerance);
  }

  // The findings a sentence rests its numbers on.
  ghost function Resting(s: Sentence): seq<string> {
    match s.kind case Fact => s.clusterIds case _ => s.findingRefs
  }

  lemma NumberFlagIff(report: Report, ctx: Context, at: Address, s: Sentence, v: Violation)
    requires DistinctKeys(report.sections) && Reads(report, at, s) && v in {BareFact(at), WithinTolerance(at), LedgerMismatch(at)}
    ensures v in Violations(report, ctx) <==>
      s.kind != Meta && exists q :: q in ctx.texts.quantities(s.text) && v in CheckQuantity(at, s.text, q, Resting(s), ctx, |report.sources|)
  {
    var rule := OnlyRule(report, ctx, at, s, v);
    var qs := ctx.texts.quantities(s.text);
    QuantityMembers(at, s.text, qs, Resting(s), ctx, |report.sources|);
    if i :| 0 <= i < |qs| && v in CheckQuantity(at, s.text, qs[i], Resting(s), ctx, |report.sources|) { assert qs[i] in qs; }
    if q :| q in qs && v in CheckQuantity(at, s.text, q, Resting(s), ctx, |report.sources|) { var i :| 0 <= i < |qs| && qs[i] == q; }
  }

  // A fact or recommendation is reported as bare exactly for a quantity that nothing it cites states.
  lemma BareFactIff(report: Report, ctx: Context, at: Address, s: Sentence)
    requires DistinctKeys(report.sections) && Reads(report, at, s)
    ensures BareFact(at) in Violations(report, ctx) <==>
      && s.kind != Meta
      && exists q :: q in ctx.texts.quantities(s.text) && NeedsSource(s.text, q, ctx)
           && !Backed(q, Resting(s), ctx, Tolerance(0.0, 0.0, 0)) && !Backed(q, Resting(s), ctx, ctx.tolerance)
  {
    NumberFlagIff(report, ctx, at, s, BareFact(at));
    forall q { QuantityIff(at, s.text, q, Resting(s), ctx, |report.sources|); }
  }

  lemma WithinToleranceIff(report: Report, ctx: Context, at: Address, s: Sentence)
    requires DistinctKeys(report.sections) && Reads(report, at, s)
    ensures WithinTolerance(at) in Violations(report, ctx) <==>
      && s.kind != Meta
      && exists q :: q in ctx.texts.quantities(s.text) && NeedsSource(s.text, q, ctx)
           && !Backed(q, Resting(s), ctx, Tolerance(0.0, 0.0, 0)) && Backed(q, Resting(s), ctx, ctx.tolerance)
  {
    NumberFlagIff(report, ctx, at, s, WithinTolerance(at));
    forall q { QuantityIff(at, s.text, q, Resting(s), ctx, |report.sources|); }
  }

  // --- counts of the ledger ---

  // Toward zero, as `int()` does.
  lemma TruncateMeans(x: real)
    ensures x >= 0.0 ==> 0.0 <= Truncate(x) as real <= x < Truncate(x) as real + 1.0
    ensures x < 0.0 ==> Truncate(x) as real - 1.0 < x <= Truncate(x) as real <= 0.0
  {
  }

  // How many of the citations resolve, repetitions counted.
  lemma {:induction false} KnownCounts(ids: seq<string>, ledger: Ledger)
    ensures |Known(ids, ledger)| == |set i | 0 <= i < |ids| && ids[i] in ledger.clusters|
  {
    if ids != [] {
      var n := |ids| - 1;
      KnownCounts(ids[..n], ledger);
      var was := set i | 0 <= i < n && ids[..n][i] in ledger.clusters;
      var now := set i | 0 <= i < |ids| && ids[i] in ledger.clusters;
      assert now == was + if ids[n] in ledger.clusters then {n} else {};
    }
  }

  // The counts the ledger would confirm.
  ghost predicate Confirms(ledger: Ledger, listed: nat, refs: seq<string>, noun: Noun, n: int) {
    match noun
    case SourceNoun =>
      if exists c :: c in refs && c in ledger.clusters then
        || n == |set c, d | c in refs && c in ledger.clusters && d in ledger.clusters[c].docIds :: d|
        || n == |set c, o | c in refs && c in ledger.clusters && o in ledger.clusters[c].originIds :: o|
      else n == listed
    case FindingNoun => n == |ledger.clusters| || n == |set i | 0 <= i < |refs| && refs[i] in ledger.clusters|
    case SubQuestionNoun => n == |ledger.plan|
    case SearchNoun => n == ledger.queries || n == ledger.queriesDone
    case ContradictionNoun => n == ledger.contradictions
  }

  lemma ConfirmsIff(ledger: Ledger, listed: nat, refs: seq<string>, noun: Noun, n: int)
    ensures n in LedgerExpected(noun, refs, ledger, listed) <==> Confirms(ledger, listed, refs, noun, n)
  {
    KnownMembers(refs, ledger);
    KnownCounts(refs, ledger);
    if Known(refs, ledger) != [] { assert Known(refs, ledger)[0] in Known(refs, ledger); }
  }

  // A stated count is reported exactly if it is zero or missing, or its whole part is no count the ledger would confirm.
  lemma CountIff(at: Address, text: string, q: Quantity, refs: seq<string>, ctx: Context, listed: nat)
    ensures LedgerMismatch(at) in CheckQuantity(at, text, q, refs, ctx, listed) <==>
      && !StatedIn(q, ctx.ledger.question, ctx, Tolerance(0.0, 0.0, 0))
      && q.kind == Number && ctx.texts.ledgerNoun(text, q).Some?
      && (q.values == [] || q.values[0] == 0.0 || !Confirms(ctx.ledger, listed, refs, ctx.texts.ledgerNoun(text, q).value, Truncate(q.values[0])))
  {
    MatchesAnyIff(q, ctx.ledger.question, ctx, Tolerance(0.0, 0.0, 0));
    if q.kind == Number && ctx.texts.ledgerNoun(text, q).Some? {
      ConfirmsIff(ctx.ledger, listed, refs, ctx.texts.ledgerNoun(text, q).value, Stated(q));
      assert !(-1 in LedgerExpected(ctx.texts.ledgerNoun(text, q).value, refs, ctx.ledger, listed));
    }
  }

  lemma LedgerMismatchIff(report: Report, ctx: Context, at: Address, s: Sentence)
    requires DistinctKeys(report.sections) && Reads(report, at, s)
    ensures LedgerMismatch(at) in Violations(report, ctx) <==>
      && s.kind != Meta
      && exists q :: q in ctx.texts.quantities(s.text)
           && !StatedIn(q, ctx.ledger.question, ctx, Tolerance(0.0, 0.0, 0))
           && q.kind == Number && ctx.texts.ledgerNoun(s.text, q).Some?
           && (q.values == [] || q.values[0] == 0.0
               || !Confirms(ctx.ledger, |report.sources|, Resting(s), ctx.texts.ledgerNoun(s.text, q).value, Truncate(q.values[0])))
  {
    NumberFlagIff(report, ctx, at, s, LedgerMismatch(at));
    forall q { CountIff(at, s.text, q, Resting(s), ctx, |report.sources|); }
  }

  // --- the report as a whole ---

  ghost predicate HasSection(report: Report, key: SectionKey) {
    exists j :: 0 <= j < |report.sections| && report.sections[j].key == key
  }

  lemma HasSectionIff(report: Report, key: SectionKey)
    ensures HasKey(report.sections, key) <==> HasSection(report, key)
  {
    LookupFinds(report.sections, key);
    if HasKey(report.sections, key) {
      var j :| 0 <= j < |report.sections| && report.sections[j] == Lookup(report.sections, key).value;
    }
  }

  ghost predicate GaveUp(plan: seq<SubQuestion>, id: string) {
    exists i :: 0 <= i < |plan| && plan[i].status == Exhausted && plan[i].id == id
  }

  // A section the configuration requires, or the known gaps once a sub-question was given up.
  lemma MissingSectionIff(report: Report, ctx: Context, key: SectionKey)
    requires DistinctKeys(report.sections)
    ensures MissingSection(key) in Violations(report, ctx) <==>
      !HasSection(report, key) && (key in ctx.required || (key == KnownGaps && exists id :: GaveUp(ctx.ledger.plan, id)))
  {
    ViolationMembers(report, ctx, MissingSection(key));
    HasSectionIff(report, key);
    if i :| 0 <= i < |ctx.ledger.plan| && ctx.ledger.plan[i].status == Exhausted { assert GaveUp(ctx.ledger.plan, ctx.ledger.plan[i].id); }
  }

  lemma NoSupportedFindingIff(report: Report, ctx: Context)
    requires DistinctKeys(report.sections)
    ensures NoSupportedFinding in Violations(report, ctx) <==>
      HasSection(report, KeyFindings) && forall s | s in Sentences(report.sections, KeyFindings) :: s.kind != Fact || s.clusterIds == []
  {
    ViolationMembers(report, ctx, NoSupportedFinding);
    HasSectionIff(report, KeyFindings);
    var findings := Sentences(report.sections, KeyFindings);
    if s :| s in findings && s.kind == Fact && s.clusterIds != [] {
      var i :| 0 <= i < |findings| && findings[i] == s;
      assert HasFinding(report.sections);
    }
  }

  lemma MissingGapIff(report: Report, ctx: Context, id: string)
    requires DistinctKeys(report.sections)
    ensures MissingGap(id) in Violations(report, ctx) <==>
      GaveUp(ctx.ledger.plan, id) && forall s | s in Sentences(report.sections, KnownGaps) :: Gap(id) !in s.labels
  {
    ViolationMembers(report, ctx, MissingGap(id));
    var gaps := Sentences(report.sections, KnownGaps);
    if s :| s in gaps && Gap(id) in s.labels { var i :| 0 <= i < |gaps| && gaps[i] == s; }
  }

  // The sentence cites a finding that rests on the document.
  ghost predicate CitesPage(s: Sentence, ledger: Ledger, d: string) {
    exists c :: (c in s.clusterIds || c in s.findingRefs) && c in ledger.clusters && d in ledger.clusters[c].docIds
  }

  ghost predicate CitedIn(report: Report, ledger: Ledger, d: string) {
    d in ledger.documents && exists key, s :: s in Sentences(report.sections, key) && CitesPage(s, ledger, d)
  }

  lemma CitesPageIff(s: Sentence, ledger: Ledger, d: string)
    ensures RestsOn(s, ledger, d) <==> d in ledger.documents && CitesPage(s, ledger, d)
  {
    if c :| (c in s.clusterIds || c in s.findingRefs) && c in ledger.clusters && d in ledger.clusters[c].docIds {
      assert c in s.clusterIds + s.findingRefs;
    }
  }

  lemma CitedInIff(report: Report, ledger: Ledger, d: string)
    requires DistinctKeys(report.sections)
    ensures d in CitedDocs(report.sections, ledger) <==> CitedIn(report, ledger, d)
  {
    DocumentMembers(report.sections, ledger, d);
    forall s ensures RestsOn(s, ledger, d) <==> d in ledger.documents && CitesPage(s, ledger, d) { CitesPageIff(s, ledger, d); }
    if key :| CitesDoc(Sentences(report.sections, key), ledger, d) {
      var i: nat :| i < |Sentences(report.sections, key)| && RestsOn(Sentences(report.sections, key)[i], ledger, d);
      assert Sentences(report.sections, key)[i] in Sentences(report.sections, key);
    }
    if key, s :| s in Sentences(report.sections, key) && CitesPage(s, ledger, d) {
      var i: nat :| i < |Sentences(report.sections, key)| && Sentences(report.sections, key)[i] == s;
      assert d in ledger.documents ==> CitesDoc(Sentences(report.sections, key), ledger, d);
    }
  }

  lemma SourceListIff(report: Report, ctx: Context, d: string)
    requires DistinctKeys(report.sections)
    ensures ListedNotCited(d) in Violations(report, ctx) <==>
      (exists i :: 0 <= i < |report.sources| && report.sources[i].docId == d) && !CitedIn(report, ctx.ledger, d)
    ensures CitedNotListed(d) in Violations(report, ctx) <==>
      !(exists i :: 0 <= i < |report.sources| && report.sources[i].docId == d) && CitedIn(report, ctx.ledger, d)
  {
    ViolationMembers(report, ctx, ListedNotCited(d));
    ViolationMembers(report, ctx, CitedNotListed(d));
    CitedInIff(report, ctx.ledger, d);
  }

  lemma InvalidUrlIff(report: Report, ctx: Context, n: nat)
    requires DistinctKeys(report.sections)
    ensures InvalidUrl(n) in Violations(report, ctx) <==>
      exists i :: 0 <= i < |report.sources| && report.sources[i].number == n && ctx.texts.canonical(report.sources[i].url).None?
  {
    ViolationMembers(report, ctx, InvalidUrl(n));
    forall i: nat | i < |report.sources| { OneUrlIff(report.sources, i, ctx.texts.canonical); }
  }

  lemma NotCanonicalIff(report: Report, ctx: Context, n: nat)
    requires DistinctKeys(report.sections)
    ensures NotCanonical(n) in Violations(report, ctx) <==>
      exists i :: 0 <= i < |report.sources| && report.sources[i].number == n
        && ctx.texts.canonical(report.sources[i].url).Some? && ctx.texts.canonical(report.sources[i].url) != Some(report.sources[i].url)
  {
    ViolationMembers(report, ctx, NotCanonical(n));
    forall i: nat | i < |report.sources| { OneUrlIff(report.sources, i, ctx.texts.canonical); }
  }

  // Its URL or its document came before, under a valid URL.
  lemma DuplicateSourceIff(report: Report, ctx: Context, n: nat)
    requires DistinctKeys(report.sections)
    ensures DuplicateSource(n) in Violations(report, ctx) <==>
      exists i, j :: 0 <= j < i < |report.sources| && report.sources[i].number == n
        && ctx.texts.canonical(report.sources[i].url).Some? && ctx.texts.canonical(report.sources[j].url).Some?
        && (ctx.texts.canonical(report.sources[j].url) == ctx.texts.canonical(report.sources[i].url) || report.sources[j].docId == report.sources[i].docId)
  {
    ViolationMembers(report, ctx, DuplicateSource(n));
    forall i: nat | i < |report.sources| { OneUrlIff(report.sources, i, ctx.texts.canonical); }
  }

  lemma OneUrlIff(sources: seq<Source>, i: nat, canonical: string -> Option<string>)
    requires i < |sources|
    ensures forall n :: InvalidUrl(n) in CheckSource(sources, i, canonical) <==> sources[i].number == n && canonical(sources[i].url).None?
    ensures forall n :: NotCanonical(n) in CheckSource(sources, i, canonical) <==>
      sources[i].number == n && canonical(sources[i].url).Some? && canonical(sources[i].url) != Some(sources[i].url)
    ensures forall n :: DuplicateSource(n) in CheckSource(sources, i, canonical) <==>
      sources[i].number == n && canonical(sources[i].url).Some?
      && exists j :: 0 <= j < i && canonical(sources[j].url).Some?
           && (canonical(sources[j].url) == canonical(sources[i].url) || sources[j].docId == sources[i].docId)
  {
  }

  lemma {:induction false} TitlesMembers(sources: seq<Source>, redact: string -> string, n: nat)
    ensures SensitiveSource(n) in SensitiveTitles(sources, redact) <==>
      exists i :: 0 <= i < |sources| && sources[i].number == n && redact(sources[i].title) != sources[i].title
  {
    if sources != [] {
      var front := sources[..|sources| - 1];
      TitlesMembers(front, redact, n);
      if i :| 0 <= i < |front| && front[i].number == n && redact(front[i].title) != front[i].title { assert sources[i] == front[i]; }
      if i :| 0 <= i < |sources| && sources[i].number == n && redact(sources[i].title) != sources[i].title {
        if i < |front| { assert front[i] == sources[i]; }
      }
    }
  }

  lemma SensitiveSourceIff(report: Report, ctx: Context, n: nat)
    requires DistinctKeys(report.sections)
    ensures SensitiveSource(n) in Violations(report, ctx) <==>
      exists i :: 0 <= i < |report.sources| && report.sources[i].number == n && ctx.texts.redact(report.sources[i].title) != report.sources[i].title
  {
    ViolationMembers(report, ctx, SensitiveSource(n));
    TitlesMembers(report.sources, ctx.texts.redact, n);
  }

  // The prose judged for its language: every text that asserts something, in order, a space between.
  lemma ProseGrows(sections: seq<Section>, key: SectionKey, sentences: seq<Sentence>, s: Sentence)
    ensures AllProse([]) == [] && AllProse(sections + [Section(key, [])]) == AllProse(sections)
    ensures AllProse(sections + [Section(key, sentences + [s])]) ==
      AllProse(sections + [Section(key, sentences)]) + if s.kind == Meta then [] else [s.text]
  {
    assert forall ss :: (sections + [Section(key, ss)])[..|sections|] == sections;
    assert (sentences + [s])[..|sentences|] == sentences;
    if s.kind == Meta { assert AllProse(sections) + Prose(sentences) + [] == AllProse(sections) + Prose(sentences); }
  }

  lemma JoinedBySpaces(texts: seq<string>, text: string)
    ensures Joined([]) == "" && Joined([text]) == text
    ensures texts != [] ==> Joined(texts + [text]) == Joined(texts) + " " + text
  {
    assert (texts + [text])[..|texts|] == texts;
  }

  lemma WrongLanguageIff(report: Report, ctx: Context)
    requires DistinctKeys(report.sections)
    ensures WrongLanguage in Violations(report, ctx) <==> ctx.texts.offLanguage(Joined(AllProse(report.sections)))
  {
    ViolationMembers(report, ctx, WrongLanguage);
  }
}
