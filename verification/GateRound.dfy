/** The remediation loop, proved to be the round `GateRemedy` specifies. */
module GateRound {
  import opened Wrappers
  import opened Numeric
  import opened Reports
  import opened GateRules
  import opened GateRemedy

  // Half-way through the violations: existing sentences treated in place, new ones behind them.
  ghost predicate Midway(ctx: Context, words: Wording, before: seq<Section>, vs: seq<Violation>, sections: seq<Section>) {
    && DistinctKeys(sections)
    && (forall key :: HasKey(sections, key) <==> Present(ctx, vs, before, key))
    && (forall key :: Sentences(sections, key) ==
          AllTreated(ctx, vs, key, Sentences(before, key)) + Tail(ctx, words, vs, key, |Sentences(before, key)|))
  }

  ghost predicate Marked(ctx: Context, before: seq<Section>, vs: seq<Violation>, drop: set<Address>) {
    forall at :: at in drop <==> InReport(before, at) && Doomed(ctx, vs, at, Sentences(before, at.key)[at.index])
  }

  lemma Prefix(vs: seq<Violation>, v: Violation)
    ensures (vs + [v])[..|vs|] == vs && (vs + [v])[|vs|] == v && |vs + [v]| - 1 == |vs|
  {
  }

  lemma PresentGrows(ctx: Context, before: seq<Section>, vs: seq<Violation>, v: Violation, key: SectionKey)
    ensures Present(ctx, vs + [v], before, key) <==> Present(ctx, vs, before, key) || Creates(ctx, v, key)
  {
    assert v in vs + [v];
  }

  lemma TailUnmoved(ctx: Context, words: Wording, vs: seq<Violation>, v: Violation, key: SectionKey, held: nat)
    requires !v.MissingSection? && !AddsGap(ctx, v)
    ensures Tail(ctx, words, vs + [v], key, held) == Tail(ctx, words, vs, key, held)
  {
    Prefix(vs, v);
  }

  lemma AddressStep(ctx: Context, words: Wording, before: seq<Section>, vs: seq<Violation>, v: Violation, sections: seq<Section>, after: seq<Section>)
    requires Midway(ctx, words, before, vs, sections) && HasAddress(v) && InReport(before, v.at)
    requires |Sentences(sections, v.at.key)| >= |Sentences(before, v.at.key)|
    requires DistinctKeys(after) && forall k :: HasKey(after, k) <==> HasKey(sections, k)
    requires forall k :: Sentences(after, k) == var held := Sentences(sections, k);
      if k == v.at.key then held[v.at.index := Touch(ctx, v, v.at, held[v.at.index])] else held
    ensures Midway(ctx, words, before, vs + [v], after)
  {
    forall k
      ensures HasKey(after, k) <==> Present(ctx, vs + [v], before, k)
      ensures Sentences(after, k) == AllTreated(ctx, vs + [v], k, Sentences(before, k)) + Tail(ctx, words, vs + [v], k, |Sentences(before, k)|)
    {
      PresentGrows(ctx, before, vs, v, k);
      TreatedStep(ctx, vs, v, k, Sentences(before, k));
      TailUnmoved(ctx, words, vs, v, k, |Sentences(before, k)|);
      var was, tail := AllTreated(ctx, vs, k, Sentences(before, k)), Tail(ctx, words, vs, k, |Sentences(before, k)|);
      if k == v.at.key {
        assert (was + tail)[v.at.index] == was[v.at.index];
        var target := Touch(ctx, v, v.at, was[v.at.index]);
        assert (was + tail)[v.at.index := target] == was[v.at.index := target] + tail;
      }
    }
  }

  lemma TreatedStep(ctx: Context, vs: seq<Violation>, v: Violation, key: SectionKey, sentences: seq<Sentence>)
    ensures var was := AllTreated(ctx, vs, key, sentences);
      AllTreated(ctx, vs + [v], key, sentences) ==
        if HasAddress(v) && v.at.key == key && v.at.index < |sentences|
        then was[v.at.index := Touch(ctx, v, v.at, was[v.at.index])]
        else was
  {
    Prefix(vs, v);
    var was, now := AllTreated(ctx, vs, key, sentences), AllTreated(ctx, vs + [v], key, sentences);
    forall i | 0 <= i < |sentences|
      ensures now[i] == Touch(ctx, v, Address(key, i), was[i])
    {
      assert now[i] == Treated(ctx, vs + [v], Address(key, i), sentences[i]);
    }
  }

  lemma MarkStep(ctx: Context, before: seq<Section>, vs: seq<Violation>, v: Violation, drop: set<Address>, more: set<Address>)
    requires Marked(ctx, before, vs, drop)
    requires HasAddress(v) ==> InReport(before, v.at)
    requires more == if HasAddress(v)
        && Condemns(ctx, v, v.at, Touch(ctx, v, v.at, Treated(ctx, vs, v.at, Sentences(before, v.at.key)[v.at.index])))
      then drop + {v.at} else drop
    ensures Marked(ctx, before, vs + [v], more)
  {
    Prefix(vs, v);
  }

  // What must hold of one key half-way.
  ghost predicate MidwayAt(ctx: Context, words: Wording, before: seq<Section>, vs: seq<Violation>, sections: seq<Section>, key: SectionKey) {
    && (HasKey(sections, key) <==> Present(ctx, vs, before, key))
    && Sentences(sections, key) ==
         AllTreated(ctx, vs, key, Sentences(before, key)) + Tail(ctx, words, vs, key, |Sentences(before, key)|)
  }

  lemma SectionStepAt(ctx: Context, words: Wording, before: seq<Section>, vs: seq<Violation>, v: Violation, sections: seq<Section>, after: seq<Section>, k: SectionKey)
    requires MidwayAt(ctx, words, before, vs, sections, k) && v.MissingSection?
    requires HasKey(after, k) <==> HasKey(sections, k) || k == v.section
    requires Sentences(after, k) ==
      if k == v.section && k != Sources && Sentences(sections, k) == [] then [NoneMarker(words)] else Sentences(sections, k)
    ensures MidwayAt(ctx, words, before, vs + [v], after, k)
  {
    Prefix(vs, v);
    PresentGrows(ctx, before, vs, v, k);
    TreatedStep(ctx, vs, v, k, Sentences(before, k));
  }

  lemma SectionStep(ctx: Context, words: Wording, before: seq<Section>, vs: seq<Violation>, v: Violation, sections: seq<Section>, after: seq<Section>)
    requires Midway(ctx, words, before, vs, sections) && v.MissingSection?
    requires var ensured := EnsureSection(sections, v.section);
      after == if v.section != Sources && Sentences(ensured, v.section) == [] then Replace(ensured, v.section, [NoneMarker(words)]) else ensured
    ensures Midway(ctx, words, before, vs + [v], after)
  {
    EnsureLooksUp(sections, v.section);
    ReplaceLooksUp(EnsureSection(sections, v.section), v.section, [NoneMarker(words)]);
    forall k
      ensures HasKey(after, k) <==> Present(ctx, vs + [v], before, k)
      ensures Sentences(after, k) == AllTreated(ctx, vs + [v], k, Sentences(before, k)) + Tail(ctx, words, vs + [v], k, |Sentences(before, k)|)
    {
      SectionStepAt(ctx, words, before, vs, v, sections, after, k);
    }
  }

  lemma GapStepAt(ctx: Context, words: Wording, before: seq<Section>, vs: seq<Violation>, v: Violation, sections: seq<Section>, after: seq<Section>, k: SectionKey)
    requires MidwayAt(ctx, words, before, vs, sections, k) && AddsGap(ctx, v)
    requires HasKey(after, k) <==> HasKey(sections, k) || k == KnownGaps
    requires Sentences(after, k) ==
      Sentences(sections, k) + if k == KnownGaps then [GapNote(words, SubQuestionOf(ctx.ledger.plan, v.subq).value)] else []
    ensures MidwayAt(ctx, words, before, vs + [v], after, k)
  {
    Prefix(vs, v);
    PresentGrows(ctx, before, vs, v, k);
    TreatedStep(ctx, vs, v, k, Sentences(before, k));
  }

  lemma GapStep(ctx: Context, words: Wording, before: seq<Section>, vs: seq<Violation>, v: Violation, sections: seq<Section>, after: seq<Section>)
    requires Midway(ctx, words, before, vs, sections) && AddsGap(ctx, v)
    requires var ensured := EnsureSection(sections, KnownGaps);
      after == Replace(ensured, KnownGaps, Sentences(ensured, KnownGaps) + [GapNote(words, SubQuestionOf(ctx.ledger.plan, v.subq).value)])
    ensures Midway(ctx, words, before, vs + [v], after)
  {
    var ensured := EnsureSection(sections, KnownGaps);
    EnsureLooksUp(sections, KnownGaps);
    ReplaceLooksUp(ensured, KnownGaps, Sentences(ensured, KnownGaps) + [GapNote(words, SubQuestionOf(ctx.ledger.plan, v.subq).value)]);
    forall k
      ensures HasKey(after, k) <==> Present(ctx, vs + [v], before, k)
      ensures Sentences(after, k) == AllTreated(ctx, vs + [v], k, Sentences(before, k)) + Tail(ctx, words, vs + [v], k, |Sentences(before, k)|)
    {
      GapStepAt(ctx, words, before, vs, v, sections, after, k);
    }
  }

  lemma OtherStep(ctx: Context, words: Wording, before: seq<Section>, vs: seq<Violation>, v: Violation, sections: seq<Section>)
    requires Midway(ctx, words, before, vs, sections) && !HasAddress(v) && !v.MissingSection? && !AddsGap(ctx, v)
    ensures Midway(ctx, words, before, vs + [v], sections)
  {
    Prefix(vs, v);
    forall k
      ensures HasKey(sections, k) <==> Present(ctx, vs + [v], before, k)
      ensures Sentences(sections, k) == AllTreated(ctx, vs + [v], k, Sentences(before, k)) + Tail(ctx, words, vs + [v], k, |Sentences(before, k)|)
    {
      PresentGrows(ctx, before, vs, v, k);
      TreatedStep(ctx, vs, v, k, Sentences(before, k));
    }
  }

  // One violation of the loop in `_remediate`.
  method ApplyViolation(ctx: Context, words: Wording, v: Violation, sections: seq<Section>, drop: set<Address>,
                        ghost before: seq<Section>, ghost vs: seq<Violation>)
    returns (edited: seq<Section>, marked: set<Address>)
    requires Midway(ctx, words, before, vs, sections) && Marked(ctx, before, vs, drop)
    requires HasAddress(v) ==> InReport(before, v.at)
    ensures Midway(ctx, words, before, vs + [v], edited) && Marked(ctx, before, vs + [v], marked)
  {
    edited, marked := sections, drop;
    if v.MissingSection? {
      edited := EnsureSection(sections, v.section);
      if v.section != Sources && Sentences(edited, v.section) == [] {
        edited := Replace(edited, v.section, [NoneMarker(words)]);
      }
      SectionStep(ctx, words, before, vs, v, sections, edited);
    } else if v.MissingGap? {
      var subq := SubQuestionOf(ctx.ledger.plan, v.subq);
      if subq.Some? {
        edited := EnsureSection(sections, KnownGaps);
        edited := Replace(edited, KnownGaps, Sentences(edited, KnownGaps) + [GapNote(words, subq.value)]);
        GapStep(ctx, words, before, vs, v, sections, edited);
      } else {
        OtherStep(ctx, words, before, vs, v, sections);
      }
    } else if Drops(v) {
      marked := drop + {v.at};
      assert var held := Sentences(sections, v.at.key); held[v.at.index := held[v.at.index]] == held;
      AddressStep(ctx, words, before, vs, v, sections, edited);
    } else if HasAddress(v) {
      var held := Sentences(sections, v.at.key);
      var target := held[v.at.index];
      match v {
        case UnknownCitation(_, _) =>
          target := target.(clusterIds := Known(target.clusterIds, ctx.ledger));
          if target.clusterIds == [] && target.kind == Fact {
            marked := drop + {v.at};
          }
        case WithinTolerance(_) => target := WithLabel(target, Approximate);
        case Unhedged(_, _) => target := WithLabel(target, Uncertain);
        case Unlabelled(_) => target := WithLabel(target, SingleSource);
        case SensitiveText(_) => target := target.(text := ctx.texts.redact(target.text));
      }
      assert target == Touch(ctx, v, v.at, held[v.at.index]);
      edited := Replace(sections, v.at.key, held[v.at.index := target]);
      ReplaceLooksUp(sections, v.at.key, held[v.at.index := target]);
      AddressStep(ctx, words, before, vs, v, sections, edited);
    } else {
      OtherStep(ctx, words, before, vs, v, sections);
    }
    MarkStep(ctx, before, vs, v, drop, marked);
  }

  // --- the sweep ---

  // The kept sentences of one section: treated survivors, then everything the round appended.
  method SweepSection(ctx: Context, section: Section, drop: set<Address>, ghost vs: seq<Violation>, ghost before: seq<Sentence>, ghost tail: seq<Sentence>)
    returns (kept: seq<Sentence>, removed: nat)
    requires section.sentences == AllTreated(ctx, vs, section.key, before) + tail
    requires forall i: nat :: Address(section.key, i) in drop <==> i < |before| && Doomed(ctx, vs, Address(section.key, i), before[i])
    ensures kept == Survivors(ctx, vs, section.key, before) + tail
    ensures removed == |before| - |Survivors(ctx, vs, section.key, before)|
  {
    kept, removed := [], 0;
    for i := 0 to |section.sentences|
      invariant i <= |before| ==> kept == Survivors(ctx, vs, section.key, before[..i]) && removed == i - |kept|
      invariant i > |before| ==> kept == Survivors(ctx, vs, section.key, before) + tail[..i - |before|]
      invariant i > |before| ==> removed == |before| - |Survivors(ctx, vs, section.key, before)|
    {
      if i < |before| {
        assert before[..i + 1][..i] == before[..i];
        assert section.sentences[i] == Treated(ctx, vs, Address(section.key, i), before[i]);
      } else {
        assert before[..|before|] == before;
        assert section.sentences[i] == tail[i - |before|];
      }
      if Address(section.key, i) in drop {
        removed := removed + 1;
      } else {
        kept := kept + [section.sentences[i]];
      }
    }
    assert before[..|before|] == before && tail[..|tail|] == tail;
  }

  ghost function LostIn(ctx: Context, vs: seq<Violation>, before: seq<Section>, sections: seq<Section>): int {
    if sections == [] then 0
    else LostIn(ctx, vs, before, sections[..|sections| - 1]) + Lost(ctx, vs, before, sections[|sections| - 1].key)
  }

  ghost predicate Among(sections: seq<Section>, key: SectionKey) {
    exists i | 0 <= i < |sections| :: sections[i].key == key
  }

  ghost function LostAt(ctx: Context, vs: seq<Violation>, before: seq<Section>, sections: seq<Section>, key: SectionKey): int {
    if Among(sections, key) then Lost(ctx, vs, before, key) else 0
  }

  // Adding up section by section or key by key is the same, as keys are distinct.
  lemma {:induction false} LostSums(ctx: Context, vs: seq<Violation>, before: seq<Section>, sections: seq<Section>)
    requires DistinctKeys(sections)
    ensures LostIn(ctx, vs, before, sections) == Sum(key => LostAt(ctx, vs, before, sections, key))
  {
    if sections != [] {
      var front, last := sections[..|sections| - 1], sections[|sections| - 1];
      FrontLacks(sections, front, last);
      LostSums(ctx, vs, before, front);
      LostGrows(ctx, vs, before, front, last);
    }
  }

  lemma FrontLacks(sections: seq<Section>, front: seq<Section>, last: Section)
    requires DistinctKeys(sections) && sections != [] && front == sections[..|sections| - 1] && last == sections[|sections| - 1]
    ensures sections == front + [last] && DistinctKeys(front) && !Among(front, last.key)
  {
  }

  lemma LostGrows(ctx: Context, vs: seq<Violation>, before: seq<Section>, front: seq<Section>, last: Section)
    requires !Among(front, last.key)
    ensures Sum(key => LostAt(ctx, vs, before, front + [last], key)) == Sum(key => LostAt(ctx, vs, before, front, key)) + Lost(ctx, vs, before, last.key)
  {
    forall key ensures LostAt(ctx, vs, before, front + [last], key) == LostAt(ctx, vs, before, front, key) + if key == last.key then Lost(ctx, vs, before, last.key) else 0 {
      AmongGrows(front, last, key);
    }
    SumGrows(key => LostAt(ctx, vs, before, front, key), key => LostAt(ctx, vs, before, front + [last], key), last.key, Lost(ctx, vs, before, last.key));
  }

  lemma SumGrows(f: SectionKey -> int, g: SectionKey -> int, at: SectionKey, more: int)
    requires forall key :: g(key) == f(key) + if key == at then more else 0
    ensures Sum(g) == Sum(f) + more
  {
  }

  lemma AmongGrows(front: seq<Section>, last: Section, key: SectionKey)
    ensures Among(front + [last], key) <==> Among(front, key) || key == last.key
  {
    var sections := front + [last];
    if i :| 0 <= i < |front| && front[i].key == key { assert sections[i].key == key; }
    assert sections[|front|].key == last.key;
  }

  lemma HasKeyIsAmong(sections: seq<Section>, key: SectionKey)
    ensures HasKey(sections, key) <==> Among(sections, key)
  {
    LookupFinds(sections, key);
    if HasKey(sections, key) {
      var i :| 0 <= i < |sections| && sections[i] == Lookup(sections, key).value;
    }
    if Among(sections, key) {
      var i :| 0 <= i < |sections| && sections[i].key == key;
      assert sections[i] in sections;
    }
  }

  // `swept` is `sections` with each section cut down to what the round keeps.
  ghost predicate Swept(ctx: Context, words: Wording, before: seq<Section>, vs: seq<Violation>, sections: seq<Section>, swept: seq<Section>) {
    && |swept| == |sections|
    && forall j | 0 <= j < |swept| ::
         && swept[j].key == sections[j].key
         && swept[j].sentences == Survivors(ctx, vs, swept[j].key, Sentences(before, swept[j].key))
                                  + Tail(ctx, words, vs, swept[j].key, |Sentences(before, swept[j].key)|)
  }

  lemma SweptLooksUp(ctx: Context, words: Wording, before: seq<Section>, vs: seq<Violation>, sections: seq<Section>, swept: seq<Section>, key: SectionKey)
    requires Midway(ctx, words, before, vs, sections) && Swept(ctx, words, before, vs, sections, swept)
    ensures DistinctKeys(swept)
    ensures HasKey(swept, key) <==> Present(ctx, vs, before, key)
    ensures Sentences(swept, key) == Survivors(ctx, vs, key, Sentences(before, key)) + Tail(ctx, words, vs, key, |Sentences(before, key)|)
  {
    HasKeyIsAmong(sections, key);
    HasKeyIsAmong(swept, key);
    if Among(sections, key) {
      var j :| 0 <= j < |sections| && sections[j].key == key;
      assert swept[j].key == key;
      LookupIsUnique(swept, swept[j]);
    } else {
      assert forall j | 0 <= j < |swept| :: swept[j].key == sections[j].key;
      assert Sentences(sections, key) == [] && !HasKey(before, key);
    }
  }

  lemma AllLost(ctx: Context, words: Wording, before: seq<Section>, vs: seq<Violation>, sections: seq<Section>)
    requires Midway(ctx, words, before, vs, sections)
    ensures LostIn(ctx, vs, before, sections) == Sum(key => Lost(ctx, vs, before, key))
  {
    LostSums(ctx, vs, before, sections);
    forall key ensures Among(sections, key) || Lost(ctx, vs, before, key) == 0 {
      HasKeyIsAmong(sections, key);
    }
  }

  lemma SweptStep(ctx: Context, words: Wording, before: seq<Section>, vs: seq<Violation>, front: seq<Section>, last: Section, swept: seq<Section>, kept: seq<Sentence>)
    requires Swept(ctx, words, before, vs, front, swept)
    requires kept == Survivors(ctx, vs, last.key, Sentences(before, last.key)) + Tail(ctx, words, vs, last.key, |Sentences(before, last.key)|)
    ensures Swept(ctx, words, before, vs, front + [last], swept + [last.(sentences := kept)])
  {
  }

  method SweepOne(ctx: Context, words: Wording, sections: seq<Section>, section: Section, drop: set<Address>, ghost before: seq<Section>, ghost vs: seq<Violation>)
    returns (kept: seq<Sentence>, removed: nat)
    requires Midway(ctx, words, before, vs, sections) && Marked(ctx, before, vs, drop) && section in sections
    ensures kept == Survivors(ctx, vs, section.key, Sentences(before, section.key)) + Tail(ctx, words, vs, section.key, |Sentences(before, section.key)|)
    ensures removed == Lost(ctx, vs, before, section.key)
  {
    ghost var were := Sentences(before, section.key);
    LookupIsUnique(sections, section);
    kept, removed := SweepSection(ctx, section, drop, vs, were, Tail(ctx, words, vs, section.key, |were|));
  }

  method Sweep(ctx: Context, words: Wording, sections: seq<Section>, drop: set<Address>, ghost before: seq<Section>, ghost vs: seq<Violation>)
    returns (swept: seq<Section>, removed: nat)
    requires Midway(ctx, words, before, vs, sections) && Marked(ctx, before, vs, drop)
    ensures Swept(ctx, words, before, vs, sections, swept)
    ensures removed == LostIn(ctx, vs, before, sections)
  {
    swept, removed := [], 0;
    for j := 0 to |sections|
      invariant Swept(ctx, words, before, vs, sections[..j], swept)
      invariant removed == LostIn(ctx, vs, before, sections[..j])
    {
      assert sections[..j + 1][..j] == sections[..j];
      var kept, n := SweepOne(ctx, words, sections, sections[j], drop, before, vs);
      SweptStep(ctx, words, before, vs, sections[..j], sections[j], swept, kept);
      assert sections[..j + 1] == sections[..j] + [sections[j]];
      swept := swept + [sections[j].(sentences := kept)];
      removed := removed + n;
    }
    assert sections[..|sections|] == sections;
  }

  method Remediate(ctx: Context, words: Wording, report: Report, vs: seq<Violation>) returns (after: Report, removed: nat)
    requires DistinctKeys(report.sections) && Genuine(report.sections, vs)
    ensures Round(ctx, words, report, vs, after, removed)
  {
    var sections, drop := report.sections, {};
    NothingYet(ctx, words, report.sections);
    for k := 0 to |vs|
      invariant Midway(ctx, words, report.sections, vs[..k], sections)
      invariant Marked(ctx, report.sections, vs[..k], drop)
    {
      assert vs[..k + 1] == vs[..k] + [vs[k]];
      sections, drop := ApplyViolation(ctx, words, vs[k], sections, drop, report.sections, vs[..k]);
    }
    assert vs[..|vs|] == vs;
    var swept: seq<Section>;
    swept, removed := Sweep(ctx, words, sections, drop, report.sections, vs);
    forall key
      ensures DistinctKeys(swept)
      ensures HasKey(swept, key) <==> Present(ctx, vs, report.sections, key)
      ensures Sentences(swept, key) == Survivors(ctx, vs, key, Sentences(report.sections, key))
                                       + Tail(ctx, words, vs, key, |Sentences(report.sections, key)|)
    {
      SweptLooksUp(ctx, words, report.sections, vs, sections, swept, key);
    }
    SweptLooksUp(ctx, words, report.sections, vs, sections, swept, Summary);
    AllLost(ctx, words, report.sections, vs, sections);
    var sources := RebuildSources(ctx, swept);
    after := Report(swept, sources);
  }

  lemma NothingYet(ctx: Context, words: Wording, sections: seq<Section>)
    requires DistinctKeys(sections)
    ensures Midway(ctx, words, sections, [], sections) && Marked(ctx, sections, [], {})
  {
    forall key ensures AllTreated(ctx, [], key, Sentences(sections, key)) + Tail(ctx, words, [], key, |Sentences(sections, key)|) == Sentences(sections, key) {
      assert forall i | 0 <= i < |Sentences(sections, key)| :: AllTreated(ctx, [], key, Sentences(sections, key))[i] == Sentences(sections, key)[i];
    }
  }
}
