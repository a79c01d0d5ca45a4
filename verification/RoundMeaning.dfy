/** What a remediation round does to a sentence and what it writes itself, violation by violation. */
module RoundMeaning {
  import opened Wrappers
  import opened Sorting
  import opened Evidence
  import opened Reports
  import opened GateRules
  import opened GateRemedy
  import opened GateSentences

  // Reasons to drop a sentence whatever else is said of it.
  ghost predicate DropsIt(v: Violation, at: Address) {
    v == Uncited(at) || v == LedgerMismatch(at) || v == BareFact(at) || v == Unlinked(at) || (v.Ineligible? && v.at == at)
  }

  // Nothing it cites is a finding.
  ghost predicate Unfounded(s: Sentence, ledger: Ledger) {
    s.kind == Fact && forall c | c in s.clusterIds :: c !in ledger.clusters
  }

  lemma UnfoundedIff(ctx: Context, vs: seq<Violation>, at: Address, s: Sentence, v: Violation)
    requires v in vs && v.UnknownCitation? && v.at == at
    ensures var t := Treated(ctx, vs, at, s); (t.kind == Fact && t.clusterIds == []) <==> Unfounded(s, ctx.ledger)
  {
    TreatedShape(ctx, vs, at, s);
    assert NamesUnknown(vs, at);
    KnownMembers(s.clusterIds, ctx.ledger);
    var known := Known(s.clusterIds, ctx.ledger);
    if known != [] { assert known[0] in known; }
  }

  lemma CondemnsIff(ctx: Context, vs: seq<Violation>, at: Address, s: Sentence, v: Violation)
    requires v in vs
    ensures Condemns(ctx, v, at, Treated(ctx, vs, at, s)) <==> DropsIt(v, at) || (v.UnknownCitation? && v.at == at && Unfounded(s, ctx.ledger))
  {
    if v.UnknownCitation? && v.at == at { UnfoundedIff(ctx, vs, at, s, v); }
  }

  // Dropped exactly for such a reason, or as a fact none of whose citations is in the ledger.
  lemma {:induction false} DroppedIff(ctx: Context, vs: seq<Violation>, at: Address, s: Sentence)
    ensures Doomed(ctx, vs, at, s) <==>
      || (exists v :: v in vs && DropsIt(v, at))
      || (s.kind == Fact && (forall c | c in s.clusterIds :: c !in ctx.ledger.clusters) && exists c :: UnknownCitation(at, c) in vs)
  {
    if vs != [] {
      var front, v := vs[..|vs| - 1], vs[|vs| - 1];
      assert vs == front + [v];
      DroppedIff(ctx, front, at, s);
      CondemnsIff(ctx, vs, at, s, v);
      assert (exists w :: w in vs && DropsIt(w, at)) <==> DropsIt(v, at) || exists w :: w in front && DropsIt(w, at);
      if v.UnknownCitation? && v.at == at { assert UnknownCitation(at, v.clusterId) in vs; }
    }
  }

  // The labels afterwards: those before and the ones the warnings ask for.
  lemma {:induction false} LabelsIff(ctx: Context, vs: seq<Violation>, at: Address, s: Sentence, name: Label)
    ensures name in Treated(ctx, vs, at, s).labels <==>
      || name in s.labels
      || (name == Approximate && WithinTolerance(at) in vs)
      || (name == Uncertain && exists cs :: Unhedged(at, cs) in vs)
      || (name == SingleSource && Unlabelled(at) in vs)
  {
    if vs != [] {
      var front, v := vs[..|vs| - 1], vs[|vs| - 1];
      assert vs == front + [v];
      LabelsIff(ctx, front, at, s, name);
      if v.Unhedged? && v.at == at { assert Unhedged(at, v.contested) in vs; }
    }
  }

  // No label is added twice.
  lemma {:induction false} LabelledOnce(ctx: Context, vs: seq<Violation>, at: Address, s: Sentence, name: Label)
    ensures multiset(Treated(ctx, vs, at, s).labels)[name] <= 1
      || multiset(Treated(ctx, vs, at, s).labels)[name] == multiset(s.labels)[name]
  {
    if vs != [] { LabelledOnce(ctx, vs[..|vs| - 1], at, s, name); }
  }

  // The citations afterwards: all, or those in the ledger once an unknown one was reported.
  lemma CitationsAre(ctx: Context, vs: seq<Violation>, at: Address, s: Sentence)
    ensures var t := Treated(ctx, vs, at, s);
      && t.findingRefs == s.findingRefs && t.kind == s.kind
      && ((forall c :: UnknownCitation(at, c) !in vs) ==> t.clusterIds == s.clusterIds)
      && ((exists c :: UnknownCitation(at, c) in vs) ==>
            forall c :: c in t.clusterIds <==> c in s.clusterIds && c in ctx.ledger.clusters)
  {
    TreatedShape(ctx, vs, at, s);
    KnownMembers(s.clusterIds, ctx.ledger);
    if NamesUnknown(vs, at) {
      var v :| v in vs && v.UnknownCitation? && v.at == at;
      assert UnknownCitation(at, v.clusterId) in vs;
    }
  }

  // The text afterwards: masked exactly if that was reported, once or - with a stable mask - as if once.
  lemma {:induction false} MaskedText(ctx: Context, vs: seq<Violation>, at: Address, s: Sentence)
    requires ctx.texts.redact(ctx.texts.redact(s.text)) == ctx.texts.redact(s.text)
    ensures Shown(ctx, vs, at, s) == if SensitiveText(at) in vs then ctx.texts.redact(s.text) else s.text
  {
    if vs != [] {
      MaskedText(ctx, vs[..|vs| - 1], at, s);
      assert vs == vs[..|vs| - 1] + [vs[|vs| - 1]];
    }
  }

  // --- what the round writes ---

  ghost predicate GapOf(words: Wording, subq: SubQuestion, t: Sentence) {
    t == Sentence(words.gap(subq), Meta, [], [], [Gap(subq.id)])
  }

  // Into a section other than the known gaps: a marker if it was missing, has nothing in it and lists no sources.
  lemma {:induction false} MarkerIff(ctx: Context, words: Wording, vs: seq<Violation>, key: SectionKey, held: nat)
    requires key != KnownGaps
    ensures Tail(ctx, words, vs, key, held) ==
      if MissingSection(key) in vs && key != Sources && held == 0 then [Sentence(words.none, Meta, [], [], [])] else []
  {
    if vs != [] {
      assert vs == vs[..|vs| - 1] + [vs[|vs| - 1]];
      MarkerIff(ctx, words, vs[..|vs| - 1], key, held);
    }
  }

  // Into the known gaps: a sentence for every gap reported, about the sub-question of that id.
  lemma {:induction false} GapsIff(ctx: Context, words: Wording, vs: seq<Violation>, held: nat, t: Sentence)
    ensures t in Tail(ctx, words, vs, KnownGaps, held) && t.labels != [] <==>
      exists id :: MissingGap(id) in vs && SubQuestionOf(ctx.ledger.plan, id).Some? && GapOf(words, SubQuestionOf(ctx.ledger.plan, id).value, t)
    ensures t in Tail(ctx, words, vs, KnownGaps, held) && t.labels == [] ==>
      t == Sentence(words.none, Meta, [], [], []) && MissingSection(KnownGaps) in vs && held == 0
  {
    if vs != [] {
      var front, v := vs[..|vs| - 1], vs[|vs| - 1];
      assert vs == front + [v];
      GapsIff(ctx, words, front, held, t);
      if v.MissingGap? { assert MissingGap(v.subq) in vs; }
    }
  }

  // The first sub-question of that id.
  lemma {:induction false} SubQuestionIs(plan: seq<SubQuestion>, id: string)
    ensures SubQuestionOf(plan, id).None? <==> forall i | 0 <= i < |plan| :: plan[i].id != id
    ensures forall i | 0 <= i < |plan| && plan[i].id == id && (forall j | 0 <= j < i :: plan[j].id != id) :: SubQuestionOf(plan, id) == Some(plan[i])
  {
    if plan != [] && plan[0].id != id {
      SubQuestionIs(plan[1..], id);
      forall i | 0 <= i < |plan| && plan[i].id == id && (forall j | 0 <= j < i :: plan[j].id != id) ensures SubQuestionOf(plan, id) == Some(plan[i]) {
        assert plan[1..][i - 1] == plan[i];
        assert forall j | 0 <= j < i - 1 :: plan[1..][j] == plan[j + 1];
      }
      if SubQuestionOf(plan[1..], id).Some? {
        var i :| 0 <= i < |plan[1..]| && plan[1..][i].id == id;
        assert plan[i + 1].id == id;
      } else {
        assert forall i | 1 <= i < |plan| :: plan[i] == plan[1..][i - 1];
      }
    }
  }

  // Sections are read in this order.
  lemma ReadingOrder()
    ensures Order(Summary) < Order(KeyFindings) < Order(Conflicting) < Order(Recommendations) < Order(Conclusion) < Order(KnownGaps) < Order(Sources)
  {
  }

  // An opened section is put in its place among the others, empty.
  lemma OpenedInOrder(sections: seq<Section>, key: SectionKey)
    requires Lookup(sections, key).None?
    ensures var wider := EnsureSection(sections, key);
      && multiset(wider) == multiset(sections) + multiset{Section(key, [])}
      && forall i, j | 0 <= i < j < |wider| :: Order(wider[i].key) <= Order(wider[j].key)
  {
    assert TotalPreorder(Earlier);
    SortElements(sections + [Section(key, [])], Earlier);
    SortSorted(sections + [Section(key, [])], Earlier);
  }

  // --- the rebuilt source list ---

  // An entry shows the masked title of its page - its URL if it has none - with domain and score.
  lemma {:induction false} EntriesShow(ctx: Context, docs: seq<string>)
    ensures forall i | 0 <= i < |SourceList(ctx, docs)| :: var source := SourceList(ctx, docs)[i];
      && source.docId in docs && source.docId in ctx.ledger.documents
      && var page := ctx.ledger.documents[source.docId];
        && Some(source.url) == ctx.texts.canonical(page.url) && source.number == i + 1
        && source.title == ctx.texts.redact(if page.title == "" then source.url else page.title)
        && source.domain == page.domain && source.score == page.score
  {
    if docs != [] {
      EntriesShow(ctx, docs[..|docs| - 1]);
      assert docs == docs[..|docs| - 1] + [docs[|docs| - 1]];
    }
  }
}
