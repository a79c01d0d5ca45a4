/** What one remediation round leaves of one sentence, and that it leaves nothing to flag. */
module GateSentences {
  import opened Wrappers
  import opened Numeric
  import opened Reports
  import opened GateRules
  import opened GateRemedy

  // --- membership in the lists the rules build ---

  lemma {:induction false} KnownMembers(ids: seq<string>, ledger: Ledger)
    ensures forall c :: c in Known(ids, ledger) <==> c in ids && c in ledger.clusters
  {
    if ids != [] {
      KnownMembers(ids[..|ids| - 1], ledger);
      assert ids == ids[..|ids| - 1] + [ids[|ids| - 1]];
    }
  }

  lemma {:induction false} KnownTwice(ids: seq<string>, ledger: Ledger)
    ensures Known(Known(ids, ledger), ledger) == Known(ids, ledger)
  {
    if ids != [] {
      var front, last := ids[..|ids| - 1], ids[|ids| - 1];
      KnownTwice(front, ledger);
      if last in ledger.clusters {
        assert (Known(front, ledger) + [last])[..|Known(front, ledger)|] == Known(front, ledger);
      } else {
        assert Known(front, ledger) + [] == Known(front, ledger);
      }
    }
  }

  lemma {:induction false} UnknownMembers(at: Address, ids: seq<string>, ledger: Ledger)
    ensures forall v :: v in UnknownIn(at, ids, ledger) <==>
      v.UnknownCitation? && v.at == at && v.clusterId in ids && v.clusterId !in ledger.clusters
  {
    if ids != [] {
      UnknownMembers(at, ids[..|ids| - 1], ledger);
      assert ids == ids[..|ids| - 1] + [ids[|ids| - 1]];
    }
  }

  lemma {:induction false} IneligibleMembers(at: Address, ids: seq<string>, ledger: Ledger)
    ensures forall v :: v in IneligibleIn(at, ids, ledger) <==>
      v.Ineligible? && v.at == at && v.clusterId in ids && IneligibleCluster(v.clusterId, ledger)
  {
    if ids != [] {
      IneligibleMembers(at, ids[..|ids| - 1], ledger);
      assert ids == ids[..|ids| - 1] + [ids[|ids| - 1]];
    }
  }

  lemma {:induction false} ContestedOfKnown(ids: seq<string>, ledger: Ledger)
    ensures ContestedIn(Known(ids, ledger), ledger) == ContestedIn(ids, ledger)
  {
    if ids != [] {
      var front, last := ids[..|ids| - 1], ids[|ids| - 1];
      ContestedOfKnown(front, ledger);
      if last in ledger.clusters {
        assert (Known(front, ledger) + [last])[..|Known(front, ledger)|] == Known(front, ledger);
      } else {
        assert Known(front, ledger) + [] == Known(front, ledger);
      }
    }
  }

  lemma {:induction false} QuantityMembers(at: Address, text: string, qs: seq<Quantity>, refs: seq<string>, ctx: Context, listed: nat)
    ensures forall v :: v in CheckQuantities(at, text, qs, refs, ctx, listed) <==>
      exists i | 0 <= i < |qs| :: v in CheckQuantity(at, text, qs[i], refs, ctx, listed)
  {
    if qs != [] {
      var front := qs[..|qs| - 1];
      QuantityMembers(at, text, front, refs, ctx, listed);
      forall v
        ensures v in CheckQuantities(at, text, qs, refs, ctx, listed) <==>
          exists i | 0 <= i < |qs| :: v in CheckQuantity(at, text, qs[i], refs, ctx, listed)
      {
        if i :| 0 <= i < |front| && v in CheckQuantity(at, text, front[i], refs, ctx, listed) { assert qs[i] == front[i]; }
        if i :| 0 <= i < |qs| && v in CheckQuantity(at, text, qs[i], refs, ctx, listed) {
          assert i == |front| || front[i] == qs[i];
        }
      }
    }
  }

  // Only the citations that resolve matter to G4, and the source list only when none does.
  lemma QuantityReads(at: Address, text: string, q: Quantity, refs: seq<string>, other: seq<string>, ctx: Context, listed: nat, relisted: nat)
    requires Known(refs, ctx.ledger) == Known(other, ctx.ledger) != []
    ensures CheckQuantity(at, text, q, refs, ctx, listed) == CheckQuantity(at, text, q, other, ctx, relisted)
  {
    KnownMembers(refs, ctx.ledger);
    KnownMembers(other, ctx.ledger);
    assert forall c :: c in ctx.ledger.clusters ==> (c in refs <==> c in other);
    assert DocsOf(refs, ctx.ledger) == DocsOf(other, ctx.ledger);
    assert OriginsOf(refs, ctx.ledger) == OriginsOf(other, ctx.ledger);
    SupportReads(q, refs, other, ctx, EXACT);
    SupportReads(q, refs, other, ctx, ctx.tolerance);
  }

  lemma SupportReads(q: Quantity, refs: seq<string>, other: seq<string>, ctx: Context, t: Tolerance)
    requires forall c :: c in ctx.ledger.clusters ==> (c in refs <==> c in other)
    ensures SupportedBy(q, refs, ctx, t) <==> SupportedBy(q, other, ctx, t)
  {
  }

  // --- the treated sentence in closed form ---

  ghost predicate NamesUnknown(vs: seq<Violation>, at: Address) {
    exists v | v in vs :: v.UnknownCitation? && v.at == at
  }

  // `t` is `s` treated: kind and finding references stay, labels are only added, citations only filtered, text only masked.
  ghost predicate Shaped(ctx: Context, vs: seq<Violation>, at: Address, s: Sentence, t: Sentence) {
    && t.kind == s.kind && t.findingRefs == s.findingRefs && s.labels <= t.labels
    && t.clusterIds == (if NamesUnknown(vs, at) then Known(s.clusterIds, ctx.ledger) else s.clusterIds)
    && (SensitiveText(at) !in vs ==> t.text == s.text)
    && (forall x :: Gap(x) in t.labels <==> Gap(x) in s.labels)
  }

  lemma NamesUnknownGrows(vs: seq<Violation>, v: Violation, at: Address)
    ensures NamesUnknown(vs + [v], at) <==> NamesUnknown(vs, at) || (v.UnknownCitation? && v.at == at)
  {
    assert v in vs + [v];
  }

  lemma TouchShapes(ctx: Context, vs: seq<Violation>, v: Violation, at: Address, s: Sentence, t: Sentence)
    requires Shaped(ctx, vs, at, s, t)
    ensures Shaped(ctx, vs + [v], at, s, Touch(ctx, v, at, t))
  {
    KnownTwice(s.clusterIds, ctx.ledger);
    NamesUnknownGrows(vs, v, at);
  }

  lemma {:induction false} TreatedShape(ctx: Context, vs: seq<Violation>, at: Address, s: Sentence)
    ensures Shaped(ctx, vs, at, s, Treated(ctx, vs, at, s))
  {
    if vs != [] {
      var front, v := vs[..|vs| - 1], vs[|vs| - 1];
      TreatedShape(ctx, front, at, s);
      TouchShapes(ctx, front, v, at, s, Treated(ctx, front, at, s));
      assert vs == front + [v];
    }
  }

  lemma {:induction false} TreatedLabels(ctx: Context, vs: seq<Violation>, v: Violation, at: Address, s: Sentence)
    requires v in vs && HasAddress(v) && v.at == at
    ensures v.Unhedged? ==> Uncertain in Treated(ctx, vs, at, s).labels
    ensures v.Unlabelled? ==> SingleSource in Treated(ctx, vs, at, s).labels
  {
    if v != vs[|vs| - 1] {
      var front := vs[..|vs| - 1];
      assert vs == front + [vs[|vs| - 1]];
      TreatedLabels(ctx, front, v, at, s);
    }
  }

  lemma {:induction false} DropDooms(ctx: Context, vs: seq<Violation>, v: Violation, at: Address, s: Sentence)
    requires v in vs && HasAddress(v) && v.at == at && Drops(v)
    ensures Doomed(ctx, vs, at, s)
  {
    if v != vs[|vs| - 1] {
      assert vs == vs[..|vs| - 1] + [vs[|vs| - 1]];
      DropDooms(ctx, vs[..|vs| - 1], v, at, s);
    }
  }

  lemma {:induction false} LosingAllDooms(ctx: Context, vs: seq<Violation>, v: Violation, at: Address, s: Sentence)
    requires v in vs && v.UnknownCitation? && v.at == at && s.kind == Fact && Known(s.clusterIds, ctx.ledger) == []
    ensures Doomed(ctx, vs, at, s)
  {
    if v == vs[|vs| - 1] {
      TreatedShape(ctx, vs, at, s);
    } else {
      assert vs == vs[..|vs| - 1] + [vs[|vs| - 1]];
      LosingAllDooms(ctx, vs[..|vs| - 1], v, at, s);
    }
  }

  // The other direction: a sentence is only lost to a violation that names it.
  lemma {:induction false} DoomedHasCause(ctx: Context, vs: seq<Violation>, at: Address, s: Sentence) returns (v: Violation)
    requires Doomed(ctx, vs, at, s)
    ensures v in vs && HasAddress(v) && v.at == at
    ensures Drops(v) || (v.UnknownCitation? && s.kind == Fact)
  {
    if Doomed(ctx, vs[..|vs| - 1], at, s) {
      v := DoomedHasCause(ctx, vs[..|vs| - 1], at, s);
    } else {
      v := vs[|vs| - 1];
      TreatedShape(ctx, vs, at, s);
    }
  }

  // --- nothing left to flag ---

  ghost predicate Reported(ctx: Context, listed: nat, at: Address, s: Sentence, vs: seq<Violation>) {
    forall rule: Rule, v :: v in AtSentence(rule, ctx, listed, at, s) ==> v in vs
  }

  lemma KnownKept(ctx: Context, vs: seq<Violation>, at: Address, s: Sentence)
    ensures Known(Treated(ctx, vs, at, s).clusterIds, ctx.ledger) == Known(s.clusterIds, ctx.ledger)
  {
    TreatedShape(ctx, vs, at, s);
    KnownTwice(s.clusterIds, ctx.ledger);
  }

  lemma CleanCitations(ctx: Context, vs: seq<Violation>, listed: nat, relisted: nat, at: Address, s: Sentence)
    requires Reported(ctx, listed, at, s, vs) && !Doomed(ctx, vs, at, s)
    ensures AtSentence(G2, ctx, relisted, at, Treated(ctx, vs, at, s)) == []
    ensures AtSentence(G3, ctx, relisted, at, Treated(ctx, vs, at, s)) == []
  {
    var t := Treated(ctx, vs, at, s);
    TreatedShape(ctx, vs, at, s);
    UnknownMembers(at, s.clusterIds, ctx.ledger);
    UnknownMembers(at, t.clusterIds, ctx.ledger);
    KnownMembers(s.clusterIds, ctx.ledger);
    if t.clusterIds == [] && t.kind == Fact {
      if s.clusterIds == [] {
        assert Uncited(at) in AtSentence(G2, ctx, listed, at, s);
        DropDooms(ctx, vs, Uncited(at), at, s);
      } else {
        var v :| v in vs && v.UnknownCitation? && v.at == at;
        LosingAllDooms(ctx, vs, v, at, s);
      }
    }
    forall v ensures v !in UnknownIn(at, t.clusterIds, ctx.ledger) {
      assert v in UnknownIn(at, s.clusterIds, ctx.ledger) ==> v in AtSentence(G3, ctx, listed, at, s);
    }
    FirstIsMember(UnknownIn(at, t.clusterIds, ctx.ledger));
  }

  lemma FirstIsMember(vs: seq<Violation>)
    ensures vs != [] ==> vs[0] in vs
  {
  }

  function Refs(s: Sentence): seq<string> {
    if s.kind == Fact then s.clusterIds else s.findingRefs
  }

  // A surviving fact or recommendation still rests on something in the ledger.
  lemma StillCites(ctx: Context, vs: seq<Violation>, listed: nat, at: Address, s: Sentence)
    requires Reported(ctx, listed, at, s, vs) && !Doomed(ctx, vs, at, s) && s.kind != Meta
    ensures var t := Treated(ctx, vs, at, s);
      Known(Refs(s), ctx.ledger) == Known(Refs(t), ctx.ledger) != []
  {
    var t := Treated(ctx, vs, at, s);
    TreatedShape(ctx, vs, at, s);
    KnownKept(ctx, vs, at, s);
    KnownMembers(Refs(t), ctx.ledger);
    if s.kind == Fact {
      CleanCitations(ctx, vs, listed, listed, at, s);
      UnknownMembers(at, t.clusterIds, ctx.ledger);
      assert UnknownCitation(at, t.clusterIds[0]) !in UnknownIn(at, t.clusterIds, ctx.ledger);
      assert t.clusterIds[0] in t.clusterIds;
    } else if Known(Refs(t), ctx.ledger) == [] {
      assert Unlinked(at) in AtSentence(G11, ctx, listed, at, s);
      DropDooms(ctx, vs, Unlinked(at), at, s);
    }
  }

  lemma {:induction false} QuantitiesRead(at: Address, text: string, qs: seq<Quantity>, refs: seq<string>, other: seq<string>, ctx: Context, listed: nat, relisted: nat)
    requires Known(refs, ctx.ledger) == Known(other, ctx.ledger) != []
    ensures CheckQuantities(at, text, qs, refs, ctx, listed) == CheckQuantities(at, text, qs, other, ctx, relisted)
  {
    if qs != [] {
      QuantitiesRead(at, text, qs[..|qs| - 1], refs, other, ctx, listed, relisted);
      QuantityReads(at, text, qs[|qs| - 1], refs, other, ctx, listed, relisted);
    }
  }

  // The text a sentence is left with; the same unless it is masked.
  function Shown(ctx: Context, vs: seq<Violation>, at: Address, s: Sentence): string {
    Treated(ctx, vs, at, s).text
  }

  // What the number rule says of that text, with the citations the sentence has before the round.
  function ShownNumbers(ctx: Context, vs: seq<Violation>, listed: nat, at: Address, s: Sentence): seq<Violation> {
    if s.kind == Meta then []
    else
      var text := Shown(ctx, vs, at, s);
      CheckQuantities(at, text, ctx.texts.quantities(text), Refs(s), ctx, listed)
  }

  // After the round it says exactly the same.
  lemma NumbersAfter(ctx: Context, vs: seq<Violation>, listed: nat, relisted: nat, at: Address, s: Sentence)
    requires Reported(ctx, listed, at, s, vs) && !Doomed(ctx, vs, at, s)
    ensures AtSentence(G4, ctx, relisted, at, Treated(ctx, vs, at, s)) == ShownNumbers(ctx, vs, listed, at, s)
  {
    var t := Treated(ctx, vs, at, s);
    TreatedShape(ctx, vs, at, s);
    if s.kind != Meta {
      StillCites(ctx, vs, listed, at, s);
      QuantitiesRead(at, t.text, ctx.texts.quantities(t.text), Refs(s), Refs(t), ctx, listed, relisted);
    }
  }

  ghost predicate NumbersFit(ctx: Context, vs: seq<Violation>, listed: nat, at: Address, s: Sentence) {
    forall v | v in ShownNumbers(ctx, vs, listed, at, s) :: v.WithinTolerance?
  }

  // Every quantity of the text is supported, and masking it again changes nothing.
  ghost predicate ReadsWell(ctx: Context, vs: seq<Violation>, listed: nat, at: Address, s: Sentence) {
    NumbersFit(ctx, vs, listed, at, s) && ctx.texts.redact(Shown(ctx, vs, at, s)) == Shown(ctx, vs, at, s)
  }

  // A survivor that was not masked reads well.
  lemma UnmaskedReadsWell(ctx: Context, vs: seq<Violation>, listed: nat, at: Address, s: Sentence)
    requires Reported(ctx, listed, at, s, vs) && !Doomed(ctx, vs, at, s) && SensitiveText(at) !in vs
    ensures ReadsWell(ctx, vs, listed, at, s)
  {
    TreatedShape(ctx, vs, at, s);
    assert SensitiveText(at) in AtSentence(G9, ctx, listed, at, s) <==> ctx.texts.redact(s.text) != s.text;
    forall v | v in ShownNumbers(ctx, vs, listed, at, s) ensures v.WithinTolerance? {
      NumberFlags(at, s.text, ctx.texts.quantities(s.text), Refs(s), ctx, listed, v);
      assert v in AtSentence(G4, ctx, listed, at, s);
      if Drops(v) { DropDooms(ctx, vs, v, at, s); }
    }
  }

  lemma NumberFlags(at: Address, text: string, qs: seq<Quantity>, refs: seq<string>, ctx: Context, listed: nat, v: Violation)
    requires v in CheckQuantities(at, text, qs, refs, ctx, listed)
    ensures v == LedgerMismatch(at) || v == BareFact(at) || v == WithinTolerance(at)
  {
    QuantityMembers(at, text, qs, refs, ctx, listed);
    var i :| 0 <= i < |qs| && v in CheckQuantity(at, text, qs[i], refs, ctx, listed);
    NumberFlag(at, text, qs[i], refs, ctx, listed, v);
  }

  lemma NumberFlag(at: Address, text: string, q: Quantity, refs: seq<string>, ctx: Context, listed: nat, v: Violation)
    requires v in CheckQuantity(at, text, q, refs, ctx, listed)
    ensures v == LedgerMismatch(at) || v == BareFact(at) || v == WithinTolerance(at)
  {
  }

  lemma SameKnown(ctx: Context, vs: seq<Violation>, at: Address, s: Sentence)
    ensures var t := Treated(ctx, vs, at, s);
      && ContestedIn(t.clusterIds, ctx.ledger) == ContestedIn(s.clusterIds, ctx.ledger)
      && (OnlySingleSourced(t.clusterIds, ctx.ledger) ==> OnlySingleSourced(s.clusterIds, ctx.ledger))
  {
    var t := Treated(ctx, vs, at, s);
    KnownKept(ctx, vs, at, s);
    ContestedOfKnown(s.clusterIds, ctx.ledger);
    ContestedOfKnown(t.clusterIds, ctx.ledger);
    KnownMembers(s.clusterIds, ctx.ledger);
    KnownMembers(t.clusterIds, ctx.ledger);
    assert forall c :: c in ctx.ledger.clusters ==> (c in s.clusterIds <==> c in t.clusterIds);
  }

  lemma CleanHedging(ctx: Context, vs: seq<Violation>, listed: nat, relisted: nat, at: Address, s: Sentence)
    requires Reported(ctx, listed, at, s, vs)
    ensures AtSentence(G5, ctx, relisted, at, Treated(ctx, vs, at, s)) == []
  {
    var t := Treated(ctx, vs, at, s);
    TreatedShape(ctx, vs, at, s);
    SameKnown(ctx, vs, at, s);
    var contested := ContestedIn(s.clusterIds, ctx.ledger);
    if contested != [] && at.key != Conflicting && Uncertain !in t.labels {
      assert Uncertain !in s.labels;
      assert Unhedged(at, contested) in AtSentence(G5, ctx, listed, at, s);
      TreatedLabels(ctx, vs, Unhedged(at, contested), at, s);
    }
  }

  lemma CleanLabels(ctx: Context, vs: seq<Violation>, listed: nat, relisted: nat, at: Address, s: Sentence)
    requires Reported(ctx, listed, at, s, vs)
    ensures AtSentence(G6, ctx, relisted, at, Treated(ctx, vs, at, s)) == []
  {
    var t := Treated(ctx, vs, at, s);
    TreatedShape(ctx, vs, at, s);
    SameKnown(ctx, vs, at, s);
    if s.kind == Fact && OnlySingleSourced(s.clusterIds, ctx.ledger) && SingleSource !in t.labels {
      assert SingleSource !in s.labels;
      assert Unlabelled(at) in AtSentence(G6, ctx, listed, at, s);
      TreatedLabels(ctx, vs, Unlabelled(at), at, s);
    }
  }

  lemma CleanLinks(ctx: Context, vs: seq<Violation>, listed: nat, relisted: nat, at: Address, s: Sentence)
    requires Reported(ctx, listed, at, s, vs) && !Doomed(ctx, vs, at, s)
    ensures AtSentence(G11, ctx, relisted, at, Treated(ctx, vs, at, s)) == []
  {
    TreatedShape(ctx, vs, at, s);
    if s.kind == Recommendation && Known(s.findingRefs, ctx.ledger) == [] {
      assert Unlinked(at) in AtSentence(G11, ctx, listed, at, s);
      DropDooms(ctx, vs, Unlinked(at), at, s);
    }
  }

  lemma TreatedCites(ctx: Context, vs: seq<Violation>, at: Address, s: Sentence, c: string)
    requires var t := Treated(ctx, vs, at, s); c in t.clusterIds + t.findingRefs
    ensures c in s.clusterIds + s.findingRefs
  {
    TreatedShape(ctx, vs, at, s);
    KnownMembers(s.clusterIds, ctx.ledger);
  }

  lemma CleanEvidence(ctx: Context, vs: seq<Violation>, listed: nat, relisted: nat, at: Address, s: Sentence)
    requires Reported(ctx, listed, at, s, vs) && !Doomed(ctx, vs, at, s)
    ensures AtSentence(G12, ctx, relisted, at, Treated(ctx, vs, at, s)) == []
  {
    var t := Treated(ctx, vs, at, s);
    IneligibleMembers(at, s.clusterIds + s.findingRefs, ctx.ledger);
    IneligibleMembers(at, t.clusterIds + t.findingRefs, ctx.ledger);
    forall v ensures v !in IneligibleIn(at, t.clusterIds + t.findingRefs, ctx.ledger) {
      if v in IneligibleIn(at, t.clusterIds + t.findingRefs, ctx.ledger) {
        TreatedCites(ctx, vs, at, s, v.clusterId);
        assert v in AtSentence(G12, ctx, listed, at, s);
        DropDooms(ctx, vs, v, at, s);
      }
    }
    FirstIsMember(IneligibleIn(at, t.clusterIds + t.findingRefs, ctx.ledger));
  }

  // Whatever a survivor is still flagged for comes from its text.
  lemma SurvivorFlagged(ctx: Context, vs: seq<Violation>, listed: nat, relisted: nat, rule: Rule, at: Address, s: Sentence, v: Violation)
    requires Reported(ctx, listed, at, s, vs) && !Doomed(ctx, vs, at, s)
    requires v in AtSentence(rule, ctx, relisted, at, Treated(ctx, vs, at, s))
    ensures v in ShownNumbers(ctx, vs, listed, at, s) || (v == SensitiveText(at) && ctx.texts.redact(Shown(ctx, vs, at, s)) != Shown(ctx, vs, at, s))
  {
    CleanCitations(ctx, vs, listed, relisted, at, s);
    NumbersAfter(ctx, vs, listed, relisted, at, s);
    CleanHedging(ctx, vs, listed, relisted, at, s);
    CleanLabels(ctx, vs, listed, relisted, at, s);
    CleanLinks(ctx, vs, listed, relisted, at, s);
    CleanEvidence(ctx, vs, listed, relisted, at, s);
  }

  // No rule says more of the sentence than that a number in it is approximate.
  ghost predicate Accepted(ctx: Context, listed: nat, at: Address, s: Sentence) {
    forall rule: Rule, v :: v in AtSentence(rule, ctx, listed, at, s) ==> v.WithinTolerance?
  }

  lemma AcceptedFlag(rule: Rule, ctx: Context, listed: nat, at: Address, s: Sentence, v: Violation)
    requires Accepted(ctx, listed, at, s) && v in AtSentence(rule, ctx, listed, at, s)
    ensures v.WithinTolerance?
  {
  }

  lemma AcceptedIsUnmasked(ctx: Context, listed: nat, at: Address, s: Sentence)
    requires Accepted(ctx, listed, at, s)
    ensures ctx.texts.redact(s.text) == s.text
  {
    if ctx.texts.redact(s.text) != s.text { AcceptedFlag(G9, ctx, listed, at, s, SensitiveText(at)); }
  }

  // That holds of a survivor of the round exactly if it reads well.
  lemma SurvivorIsClean(ctx: Context, vs: seq<Violation>, listed: nat, relisted: nat, at: Address, s: Sentence)
    requires Reported(ctx, listed, at, s, vs) && !Doomed(ctx, vs, at, s)
    ensures Accepted(ctx, relisted, at, Treated(ctx, vs, at, s)) <==> ReadsWell(ctx, vs, listed, at, s)
  {
    var t := Treated(ctx, vs, at, s);
    NumbersAfter(ctx, vs, listed, relisted, at, s);
    if ReadsWell(ctx, vs, listed, at, s) {
      forall rule: Rule, v | v in AtSentence(rule, ctx, relisted, at, t) ensures v.WithinTolerance? {
        SurvivorFlagged(ctx, vs, listed, relisted, rule, at, s, v);
      }
    }
    if Accepted(ctx, relisted, at, t) {
      AcceptedIsUnmasked(ctx, relisted, at, t);
      forall v | v in ShownNumbers(ctx, vs, listed, at, s) ensures v.WithinTolerance? {
        AcceptedFlag(G4, ctx, relisted, at, t, v);
      }
    }
  }

  function Relocated(v: Violation, at: Address): Violation {
    match v
    case Uncited(_) => Uncited(at)
    case UnknownCitation(_, c) => UnknownCitation(at, c)
    case LedgerMismatch(_) => LedgerMismatch(at)
    case BareFact(_) => BareFact(at)
    case WithinTolerance(_) => WithinTolerance(at)
    case Unhedged(_, contested) => Unhedged(at, contested)
    case Unlabelled(_) => Unlabelled(at)
    case SensitiveText(_) => SensitiveText(at)
    case Unlinked(_) => Unlinked(at)
    case Ineligible(_, c) => Ineligible(at, c)
    case _ => v
  }

  // Which rules fire on a sentence depends on its section but not on its index.
  lemma FlagsMove(rule: Rule, ctx: Context, listed: nat, key: SectionKey, i: nat, j: nat, s: Sentence, v: Violation)
    requires v in AtSentence(rule, ctx, listed, Address(key, i), s)
    ensures HasAddress(v) && v.at == Address(key, i)
    ensures Relocated(v, Address(key, j)) in AtSentence(rule, ctx, listed, Address(key, j), s)
  {
    var a, b := Address(key, i), Address(key, j);
    match rule
    case G3 => CitationsMove(a, b, s.clusterIds, ctx.ledger, v);
    case G4 => NumbersMove(ctx, listed, a, b, s, v);
    case G12 => EligibilityMoves(a, b, s.clusterIds + s.findingRefs, ctx.ledger, v);
    case _ =>
  }

  lemma CitationsMove(a: Address, b: Address, ids: seq<string>, ledger: Ledger, v: Violation)
    requires v in UnknownIn(a, ids, ledger)
    ensures v.UnknownCitation? && v.at == a && UnknownCitation(b, v.clusterId) in UnknownIn(b, ids, ledger)
  {
    UnknownMembers(a, ids, ledger);
    UnknownMembers(b, ids, ledger);
  }

  lemma EligibilityMoves(a: Address, b: Address, ids: seq<string>, ledger: Ledger, v: Violation)
    requires v in IneligibleIn(a, ids, ledger)
    ensures v.Ineligible? && v.at == a && Ineligible(b, v.clusterId) in IneligibleIn(b, ids, ledger)
  {
    IneligibleMembers(a, ids, ledger);
    IneligibleMembers(b, ids, ledger);
  }

  lemma NumbersMove(ctx: Context, listed: nat, a: Address, b: Address, s: Sentence, v: Violation)
    requires v in AtSentence(G4, ctx, listed, a, s)
    ensures HasAddress(v) && v.at == a && Relocated(v, b) in AtSentence(G4, ctx, listed, b, s)
  {
    var qs := ctx.texts.quantities(s.text);
    QuantityMembers(a, s.text, qs, Refs(s), ctx, listed);
    QuantityMembers(b, s.text, qs, Refs(s), ctx, listed);
    var k :| 0 <= k < |qs| && v in CheckQuantity(a, s.text, qs[k], Refs(s), ctx, listed);
    NumberFlag(a, s.text, qs[k], Refs(s), ctx, listed, v);
    assert Relocated(v, b) in CheckQuantity(b, s.text, qs[k], Refs(s), ctx, listed);
  }

  // What the gate writes itself is never flagged, except perhaps for sensitive wording.
  ghost predicate Authored(s: Sentence) {
    s.kind == Meta && s.clusterIds == [] && s.findingRefs == []
  }

  lemma AuthoredIsClean(ctx: Context, listed: nat, at: Address, s: Sentence)
    requires Authored(s)
    ensures forall rule: Rule, v :: v in AtSentence(rule, ctx, listed, at, s) ==> v.SensitiveText?
  {
    assert s.clusterIds + s.findingRefs == [];
  }

  lemma {:induction false} TailIsAuthored(ctx: Context, words: Wording, vs: seq<Violation>, key: SectionKey, held: nat)
    ensures forall s | s in Tail(ctx, words, vs, key, held) :: Authored(s)
  {
    if vs != [] { TailIsAuthored(ctx, words, vs[..|vs| - 1], key, held); }
  }
}
