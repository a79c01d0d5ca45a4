/**
 One remediation round. The code walks the violations and edits the report in place by
 (section, index); the specification says, sentence by sentence, what becomes of each one. That the
 two agree is what makes the addresses safe: nothing the round adds or moves shifts a later address.
 */
module GateRemedy {
  import opened Wrappers
  import opened Numeric
  import opened Sorting
  import opened Evidence
  import opened Reports
  import opened GateRules

  // The sentences the gate itself writes into a report.
  datatype Wording = Wording(none: string, gap: SubQuestion -> string, note: nat -> string)

  // --- what a violation does to the sentence at `at` ---

  function WithLabel(s: Sentence, name: Label): Sentence {
    if name in s.labels then s else s.(labels := s.labels + [name])
  }

  function Touch(ctx: Context, v: Violation, at: Address, s: Sentence): Sentence {
    if !HasAddress(v) || v.at != at then s
    else match v
      case UnknownCitation(_, _) => s.(clusterIds := Known(s.clusterIds, ctx.ledger))
      case WithinTolerance(_) => WithLabel(s, Approximate)
      case Unhedged(_, _) => WithLabel(s, Uncertain)
      case Unlabelled(_) => WithLabel(s, SingleSource)
      case SensitiveText(_) => s.(text := ctx.texts.redact(s.text))
      case _ => s
  }

  predicate Drops(v: Violation) {
    v.Uncited? || v.LedgerMismatch? || v.BareFact? || v.Unlinked? || v.Ineligible?
  }

  function Treated(ctx: Context, vs: seq<Violation>, at: Address, s: Sentence): Sentence {
    if vs == [] then s else Touch(ctx, vs[|vs| - 1], at, Treated(ctx, vs[..|vs| - 1], at, s))
  }

  // Dropped outright, or a fact that lost its last citation.
  predicate Condemns(ctx: Context, v: Violation, at: Address, touched: Sentence) {
    HasAddress(v) && v.at == at && (Drops(v) || (v.UnknownCitation? && touched.kind == Fact && touched.clusterIds == []))
  }

  predicate Doomed(ctx: Context, vs: seq<Violation>, at: Address, s: Sentence) {
    vs != [] && (Doomed(ctx, vs[..|vs| - 1], at, s) || Condemns(ctx, vs[|vs| - 1], at, Treated(ctx, vs, at, s)))
  }

  function AllTreated(ctx: Context, vs: seq<Violation>, key: SectionKey, before: seq<Sentence>): (r: seq<Sentence>)
    ensures |r| == |before|
  {
    seq(|before|, i requires 0 <= i < |before| => Treated(ctx, vs, Address(key, i), before[i]))
  }

  function Survivors(ctx: Context, vs: seq<Violation>, key: SectionKey, before: seq<Sentence>): seq<Sentence> {
    if before == [] then []
    else
      var i := |before| - 1;
      Survivors(ctx, vs, key, before[..i])
      + if Doomed(ctx, vs, Address(key, i), before[i]) then [] else [Treated(ctx, vs, Address(key, i), before[i])]
  }

  // --- what the round adds ---

  function NoneMarker(words: Wording): Sentence {
    Sentence(words.none, Meta, [], [], [])
  }

  function GapNote(words: Wording, subq: SubQuestion): Sentence {
    Sentence(words.gap(subq), Meta, [], [], [Gap(subq.id)])
  }

  function SubQuestionOf(plan: seq<SubQuestion>, id: string): Option<SubQuestion> {
    if plan == [] then None else if plan[0].id == id then Some(plan[0]) else SubQuestionOf(plan[1..], id)
  }

  predicate AddsGap(ctx: Context, v: Violation) {
    v.MissingGap? && SubQuestionOf(ctx.ledger.plan, v.subq).Some?
  }

  // The sentences appended to a section that had `held` sentences before the round.
  function Tail(ctx: Context, words: Wording, vs: seq<Violation>, key: SectionKey, held: nat): seq<Sentence> {
    if vs == [] then []
    else
      var before := Tail(ctx, words, vs[..|vs| - 1], key, held);
      var v := vs[|vs| - 1];
      if v == MissingSection(key) && key != Sources && held == 0 && before == [] then [NoneMarker(words)]
      else if key == KnownGaps && AddsGap(ctx, v) then before + [GapNote(words, SubQuestionOf(ctx.ledger.plan, v.subq).value)]
      else before
  }

  predicate Creates(ctx: Context, v: Violation, key: SectionKey) {
    v == MissingSection(key) || (key == KnownGaps && AddsGap(ctx, v))
  }

  ghost predicate Present(ctx: Context, vs: seq<Violation>, sections: seq<Section>, key: SectionKey) {
    HasKey(sections, key) || exists v | v in vs :: Creates(ctx, v, key)
  }

  // --- the source list ---

  function UrlOf(ctx: Context, docId: string): Option<string> {
    if docId in ctx.ledger.documents then ctx.texts.canonical(ctx.ledger.documents[docId].url) else None
  }

  function Entry(ctx: Context, docId: string, url: string, number: nat): Source
    requires docId in ctx.ledger.documents
  {
    var document := ctx.ledger.documents[docId];
    Source(number, docId, url, ctx.texts.redact(if document.title == "" then url else document.title), document.domain, document.score)
  }

  predicate Lists(sources: seq<Source>, url: string) {
    exists i | 0 <= i < |sources| :: sources[i].url == url
  }

  function SourceList(ctx: Context, docs: seq<string>): seq<Source> {
    if docs == [] then []
    else
      var before := SourceList(ctx, docs[..|docs| - 1]);
      var d := docs[|docs| - 1];
      var url := UrlOf(ctx, d);
      if url.None? || Lists(before, url.value) then before else before + [Entry(ctx, d, url.value, |before| + 1)]
  }

  // --- the round as a relation on reports ---

  ghost predicate InReport(sections: seq<Section>, at: Address) {
    at.index < |Sentences(sections, at.key)|
  }

  ghost predicate Genuine(sections: seq<Section>, vs: seq<Violation>) {
    forall v | v in vs :: HasAddress(v) ==> InReport(sections, v.at)
  }

  ghost function Lost(ctx: Context, vs: seq<Violation>, sections: seq<Section>, key: SectionKey): int {
    |Sentences(sections, key)| - |Survivors(ctx, vs, key, Sentences(sections, key))|
  }

  ghost function Sum(f: SectionKey -> int): int {
    f(Summary) + f(KeyFindings) + f(Conflicting) + f(Recommendations) + f(Conclusion) + f(KnownGaps) + f(Sources)
  }

  // Section by section: the survivors, then what the round appends.
  ghost predicate Rewritten(ctx: Context, words: Wording, before: Report, vs: seq<Violation>, after: Report) {
    forall key :: Sentences(after.sections, key) ==
      Survivors(ctx, vs, key, Sentences(before.sections, key)) + Tail(ctx, words, vs, key, |Sentences(before.sections, key)|)
  }

  ghost predicate Round(ctx: Context, words: Wording, before: Report, vs: seq<Violation>, after: Report, removed: nat) {
    && DistinctKeys(after.sections)
    && (forall key :: HasKey(after.sections, key) <==> Present(ctx, vs, before.sections, key))
    && Rewritten(ctx, words, before, vs, after)
    && removed == Sum(key => Lost(ctx, vs, before.sections, key))
    && after.sources == SourceList(ctx, CitedDocs(after.sections, ctx.ledger))
  }

  // --- the code ---

  lemma {:induction false} AddCitedJoin(ordered: seq<string>, a: seq<string>, b: seq<string>, ledger: Ledger)
    ensures AddCited(ordered, a + b, ledger) == AddCited(AddCited(ordered, a, ledger), b, ledger)
  {
    if b == [] {
      assert a + b == a;
    } else {
      var all := a + b;
      AddCitedJoin(ordered, a, b[..|b| - 1], ledger);
      assert all[..|all| - 1] == a + b[..|b| - 1];
    }
  }

  method CiteCluster(ordered: seq<string>, docs: seq<string>, ledger: Ledger) returns (more: seq<string>)
    ensures more == AddDocs(ordered, docs, ledger)
  {
    more := ordered;
    for d := 0 to |docs|
      invariant more == AddDocs(ordered, docs[..d], ledger)
    {
      assert docs[..d + 1][..d] == docs[..d];
      if docs[d] !in more && docs[d] in ledger.documents {
        more := more + [docs[d]];
      }
    }
    assert docs[..|docs|] == docs;
  }

  method CiteIds(ordered: seq<string>, cids: seq<string>, ledger: Ledger) returns (more: seq<string>)
    ensures more == AddCited(ordered, cids, ledger)
  {
    more := ordered;
    for c := 0 to |cids|
      invariant more == AddCited(ordered, cids[..c], ledger)
    {
      assert cids[..c + 1][..c] == cids[..c];
      if cids[c] in ledger.clusters {
        more := CiteCluster(more, ledger.clusters[cids[c]].docIds, ledger);
      }
    }
    assert cids[..|cids|] == cids;
  }

  method CiteSentences(ordered: seq<string>, sentences: seq<Sentence>, ledger: Ledger) returns (more: seq<string>)
    ensures more == AddCited(ordered, Citations(sentences), ledger)
  {
    more := ordered;
    for i := 0 to |sentences|
      invariant more == AddCited(ordered, Citations(sentences[..i]), ledger)
    {
      assert sentences[..i + 1][..i] == sentences[..i];
      var cids := sentences[i].clusterIds + sentences[i].findingRefs;
      AddCitedJoin(ordered, Citations(sentences[..i]), cids, ledger);
      assert Citations(sentences[..i + 1]) == Citations(sentences[..i]) + cids;
      more := CiteIds(more, cids, ledger);
    }
    assert sentences[..|sentences|] == sentences;
  }

  method CiteDocuments(sections: seq<Section>, ledger: Ledger) returns (ordered: seq<string>)
    ensures ordered == CitedDocs(sections, ledger)
  {
    ordered := [];
    for j := 0 to |sections|
      invariant ordered == AddCited([], AllCitations(sections[..j]), ledger)
    {
      assert sections[..j + 1][..j] == sections[..j];
      AddCitedJoin([], AllCitations(sections[..j]), Citations(sections[j].sentences), ledger);
      ordered := CiteSentences(ordered, sections[j].sentences, ledger);
    }
    assert sections[..|sections|] == sections;
  }

  method RebuildSources(ctx: Context, sections: seq<Section>) returns (sources: seq<Source>)
    ensures sources == SourceList(ctx, CitedDocs(sections, ctx.ledger))
  {
    var docs := CiteDocuments(sections, ctx.ledger);
    CitedAreDocuments(sections, ctx.ledger);
    sources := [];
    var seen: set<string> := {};
    for i := 0 to |docs|
      invariant sources == SourceList(ctx, docs[..i])
      invariant forall url :: url in seen <==> Lists(sources, url)
    {
      assert docs[..i + 1][..i] == docs[..i];
      var url := ctx.texts.canonical(ctx.ledger.documents[docs[i]].url);
      if url.None? || url.value in seen {
        continue;
      }
      ghost var before := sources;
      sources := sources + [Entry(ctx, docs[i], url.value, |sources| + 1)];
      seen := seen + {url.value};
      assert sources[|before|].url == url.value;
      forall u ensures Lists(sources, u) <==> Lists(before, u) || u == url.value {
        if k :| 0 <= k < |before| && before[k].url == u { assert sources[k].url == u; }
      }
    }
    assert docs[..|docs|] == docs;
  }

  lemma {:induction false} AddDocsAre(ordered: seq<string>, docs: seq<string>, ledger: Ledger)
    requires forall d | d in ordered :: d in ledger.documents
    ensures forall d | d in AddDocs(ordered, docs, ledger) :: d in ledger.documents
  {
    if docs != [] { AddDocsAre(ordered, docs[..|docs| - 1], ledger); }
  }

  lemma {:induction false} AddCitedAre(cids: seq<string>, ledger: Ledger)
    ensures forall d | d in AddCited([], cids, ledger) :: d in ledger.documents
  {
    if cids != [] {
      var front := cids[..|cids| - 1];
      AddCitedAre(front, ledger);
      var c := cids[|cids| - 1];
      if c in ledger.clusters { AddDocsAre(AddCited([], front, ledger), ledger.clusters[c].docIds, ledger); }
    }
  }

  lemma CitedAreDocuments(sections: seq<Section>, ledger: Ledger)
    ensures forall d | d in CitedDocs(sections, ledger) :: d in ledger.documents
  {
    AddCitedAre(AllCitations(sections), ledger);
  }
}
