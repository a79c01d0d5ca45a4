/** Cited sentences stay in the report only if the verifier, asked at most twice, supports each exactly once. */
module Citations {
  import opened Wrappers
  import opened Reports
  import opened GateRules
  import opened GateRemedy
  import opened GateTheorems
  import opened Verdicts

  datatype Draft = Draft(report: Report, fallback: bool)

  // The two replies to each batch of sentences.
  type Answers = nat -> seq<Reply<Address, bool>>

  predicate Cited(s: Sentence) {
    s.kind != Meta && (s.clusterIds != [] || s.findingRefs != [])
  }

  ghost predicate Uncited(s: Sentence) {
    s.kind == Meta || (s.clusterIds == [] && s.findingRefs == [])
  }

  // --- what is asked ---

  function ItemsIn(key: SectionKey, sentences: seq<Sentence>): seq<Address> {
    if sentences == [] then []
    else
      var i := |sentences| - 1;
      ItemsIn(key, sentences[..i]) + if Cited(sentences[i]) then [Address(key, i)] else []
  }

  function Items(sections: seq<Section>): seq<Address> {
    if sections == [] then []
    else Items(sections[..|sections| - 1]) + ItemsIn(sections[|sections| - 1].key, sections[|sections| - 1].sentences)
  }

  ghost predicate CitedAt(sections: seq<Section>, at: Address) {
    InReport(sections, at) && Cited(Sentences(sections, at.key)[at.index])
  }

  lemma {:induction false} ItemsInMembers(key: SectionKey, sentences: seq<Sentence>, at: Address)
    ensures at in ItemsIn(key, sentences) <==> at.key == key && at.index < |sentences| && Cited(sentences[at.index])
  {
    if sentences != [] { ItemsInMembers(key, sentences[..|sentences| - 1], at); }
  }

  lemma {:induction false} ItemsScan(sections: seq<Section>, at: Address)
    ensures at in Items(sections) <==> exists j: nat :: j < |sections| && at in ItemsIn(sections[j].key, sections[j].sentences)
  {
    if sections != [] {
      var front := sections[..|sections| - 1];
      ItemsScan(front, at);
      if j: nat :| j < |front| && at in ItemsIn(front[j].key, front[j].sentences) { assert sections[j] == front[j]; }
      if j: nat :| j < |sections| && at in ItemsIn(sections[j].key, sections[j].sentences) { assert j == |front| || front[j] == sections[j]; }
    }
  }

  lemma ItemsMembers(sections: seq<Section>, at: Address)
    requires DistinctKeys(sections)
    ensures at in Items(sections) <==> CitedAt(sections, at)
  {
    ItemsScan(sections, at);
    if j: nat :| j < |sections| && at in ItemsIn(sections[j].key, sections[j].sentences) {
      ItemsInMembers(sections[j].key, sections[j].sentences, at);
      LookupIsUnique(sections, sections[j]);
    }
    if CitedAt(sections, at) {
      LookupFinds(sections, at.key);
      var j: nat :| j < |sections| && sections[j] == Lookup(sections, at.key).value;
      ItemsInMembers(sections[j].key, sections[j].sentences, at);
    }
  }

  // --- what the answers say ---

  // Items are split into batches of `size` in order.
  function BatchOf(i: nat, size: nat): nat
    requires size > 0
  {
    if i < size then 0 else 1 + BatchOf(i - size, size)
  }

  lemma {:induction false} BatchIs(i: nat, size: nat)
    requires size > 0
    ensures BatchOf(i, size) * size <= i < BatchOf(i, size) * size + size
  {
    if i >= size { BatchIs(i - size, size); }
  }

  predicate StartsBatch(lo: nat, size: nat)
    requires size > 0
  {
    lo == 0 || (lo >= size && StartsBatch(lo - size, size))
  }

  lemma {:induction false} SameBatch(lo: nat, i: nat, size: nat)
    requires size > 0 && StartsBatch(lo, size) && lo <= i < lo + size
    ensures BatchOf(i, size) == BatchOf(lo, size)
  {
    if lo > 0 { SameBatch(lo - size, i - size, size); }
  }

  ghost predicate Says(items: seq<Address>, size: nat, answers: Answers, at: Address, verdict: Option<bool>)
    requires size > 0
  {
    exists i: nat :: i < |items| && items[i] == at && Settled(answers(BatchOf(i, size)), at) == verdict
  }

  datatype Tally = Tally(requested: nat, unsupported: set<Address>, unavailable: set<Address>)

  ghost predicate Tallied(items: seq<Address>, n: nat, size: nat, answers: Answers, tally: Tally)
    requires size > 0 && n <= |items|
  {
    && tally.unavailable <= tally.unsupported
    && (forall at :: at in tally.unavailable <==> Says(items[..n], size, answers, at, None))
    && (forall at :: at in tally.unsupported <==> Says(items[..n], size, answers, at, None) || Says(items[..n], size, answers, at, Some(false)))
  }

  // One batch: whatever no reply settles counts as unsupported.
  method CheckBatch(items: seq<Address>, lo: nat, hi: nat, size: nat, answers: Answers, tally: Tally) returns (more: Tally)
    requires size > 0 && lo < hi <= |items| && StartsBatch(lo, size) && hi <= lo + size && Tallied(items, lo, size, answers, tally)
    ensures Tallied(items, hi, size, answers, more) && more.requested == tally.requested
  {
    var b := BatchOf(lo, size);
    var batch := set i | lo <= i < hi :: items[i];
    var verdicts, open := Poll(batch, answers(b));
    var refuted := set at | at in verdicts && !verdicts[at];
    more := tally.(unsupported := tally.unsupported + refuted + open, unavailable := tally.unavailable + open);
    forall at, verdict: Option<bool>
      ensures Says(items[..hi], size, answers, at, verdict) <==>
        Says(items[..lo], size, answers, at, verdict) || (at in batch && Settled(answers(b), at) == verdict)
    {
      BatchSays(items, lo, hi, size, answers, at, verdict);
    }
  }

  lemma BatchSays(items: seq<Address>, lo: nat, hi: nat, size: nat, answers: Answers, at: Address, verdict: Option<bool>)
    requires size > 0 && lo < hi <= |items| && StartsBatch(lo, size) && hi <= lo + size
    ensures Says(items[..hi], size, answers, at, verdict) <==>
      Says(items[..lo], size, answers, at, verdict)
      || ((exists i :: lo <= i < hi && items[i] == at) && Settled(answers(BatchOf(lo, size)), at) == verdict)
  {
    forall i: nat | lo <= i < hi ensures BatchOf(i, size) == BatchOf(lo, size) { SameBatch(lo, i, size); }
    if i: nat :| i < hi && items[..hi][i] == at && Settled(answers(BatchOf(i, size)), at) == verdict {
      if i < lo { assert items[..lo][i] == at; } else { assert items[i] == at; }
    }
    if i: nat :| i < lo && items[..lo][i] == at && Settled(answers(BatchOf(i, size)), at) == verdict { assert items[..hi][i] == at; }
    if i: nat :| lo <= i < hi && items[i] == at { assert items[..hi][i] == at; }
  }

  method Verify(sections: seq<Section>, size: nat, answers: Answers) returns (tally: Tally)
    requires size > 0
    ensures tally.requested == |Items(sections)| && Tallied(Items(sections), |Items(sections)|, size, answers, tally)
  {
    var items := Items(sections);
    tally := Tally(|items|, {}, {});
    var lo := 0;
    while lo < |items|
      invariant StartsBatch(lo, size) || lo == |items|
      invariant lo <= |items| && tally.requested == |items| && Tallied(items, lo, size, answers, tally)
    {
      var hi := if lo + size < |items| then lo + size else |items|;
      tally := CheckBatch(items, lo, hi, size, answers, tally);
      lo := hi;
    }
    assert items[..|items|] == items;
  }

  // --- what is dropped ---

  function Kept(key: SectionKey, sentences: seq<Sentence>, withheld: set<Address>): seq<Sentence> {
    if sentences == [] then []
    else
      var i := |sentences| - 1;
      Kept(key, sentences[..i], withheld) + if Address(key, i) in withheld then [] else [sentences[i]]
  }

  ghost predicate Cut(sections: seq<Section>, withheld: set<Address>, after: seq<Section>) {
    && |after| == |sections|
    && forall j | 0 <= j < |sections| ::
         after[j].key == sections[j].key && after[j].sentences == Kept(sections[j].key, sections[j].sentences, withheld)
  }

  function Total(sections: seq<Section>): nat {
    if sections == [] then 0 else Total(sections[..|sections| - 1]) + |sections[|sections| - 1].sentences|
  }

  // The withheld places of one section, and of them all.
  ghost function CutAt(key: SectionKey, n: nat, withheld: set<Address>): set<Address> {
    set at | at in withheld && at.key == key && at.index < n
  }

  ghost predicate StandsIn(sections: seq<Section>, at: Address) {
    exists j :: 0 <= j < |sections| && sections[j].key == at.key && at.index < |sections[j].sentences|
  }

  ghost function CutFrom(sections: seq<Section>, withheld: set<Address>): set<Address> {
    set at | at in withheld && StandsIn(sections, at)
  }

  method CutSection(section: Section, withheld: set<Address>) returns (kept: seq<Sentence>, dropped: nat)
    ensures kept == Kept(section.key, section.sentences, withheld) && |kept| + dropped == |section.sentences|
    ensures dropped == |CutAt(section.key, |section.sentences|, withheld)|
  {
    kept, dropped := [], 0;
    for i := 0 to |section.sentences|
      invariant kept == Kept(section.key, section.sentences[..i], withheld) && |kept| + dropped == i
      invariant dropped == |CutAt(section.key, i, withheld)|
    {
      assert section.sentences[..i + 1][..i] == section.sentences[..i];
      OneMore(section.key, i, withheld);
      if Address(section.key, i) in withheld { dropped := dropped + 1; } else { kept := kept + [section.sentences[i]]; }
    }
    assert section.sentences[..|section.sentences|] == section.sentences;
  }

  lemma OneMore(key: SectionKey, i: nat, withheld: set<Address>)
    ensures |CutAt(key, i + 1, withheld)| == |CutAt(key, i, withheld)| + if Address(key, i) in withheld then 1 else 0
  {
    var at := Address(key, i);
    var was, now := CutAt(key, i, withheld), CutAt(key, i + 1, withheld);
    assert at !in was;
    if at in withheld { assert now == was + {at}; } else { assert now == was; }
  }

  lemma OneMoreSection(sections: seq<Section>, section: Section, withheld: set<Address>)
    requires DistinctKeys(sections + [section])
    ensures |CutFrom(sections + [section], withheld)| == |CutFrom(sections, withheld)| + |CutAt(section.key, |section.sentences|, withheld)|
  {
    var all := sections + [section];
    var before, more := CutFrom(sections, withheld), CutAt(section.key, |section.sentences|, withheld);
    forall at ensures at in CutFrom(all, withheld) <==> at in before || at in more {
      if StandsIn(sections, at) {
        var j :| 0 <= j < |sections| && sections[j].key == at.key && at.index < |sections[j].sentences|;
        assert all[j] == sections[j];
      }
      assert all[|sections|] == section;
    }
    forall at | at in before ensures at !in more {
      var j :| 0 <= j < |sections| && sections[j].key == at.key && at.index < |sections[j].sentences|;
      assert all[j].key != all[|sections|].key;
    }
    assert CutFrom(all, withheld) == before + more && before * more == {};
  }

  method Drop(sections: seq<Section>, withheld: set<Address>) returns (after: seq<Section>, dropped: nat)
    requires DistinctKeys(sections)
    ensures Cut(sections, withheld, after) && Total(after) + dropped == Total(sections)
    ensures dropped == |CutFrom(sections, withheld)|
  {
    after, dropped := [], 0;
    for j := 0 to |sections|
      invariant Cut(sections[..j], withheld, after) && Total(after) + dropped == Total(sections[..j])
      invariant dropped == |CutFrom(sections[..j], withheld)|
    {
      assert sections[..j + 1][..j] == sections[..j] && sections[..j + 1] == sections[..j] + [sections[j]];
      var kept, n := CutSection(sections[j], withheld);
      OneMoreSection(sections[..j], sections[j], withheld);
      ghost var was := after;
      after := after + [sections[j].(sentences := kept)];
      assert after[..|after| - 1] == was;
      dropped := dropped + n;
    }
    assert sections[..|sections|] == sections;
  }

  // --- the node ---

  datatype Notes = Notes(withheld: nat -> string)

  function NoteOf(notes: Notes, dropped: nat): Sentence {
    Sentence(notes.withheld(dropped), Meta, [], [], [])
  }

  // The note goes to the known gaps, opened at the end of the report if need be.
  function AddNote(sections: seq<Section>, note: Sentence): seq<Section> {
    if Lookup(sections, KnownGaps).Some? then Replace(sections, KnownGaps, Sentences(sections, KnownGaps) + [note])
    else sections + [Section(KnownGaps, [note])]
  }

  lemma AddNoteLooksUp(sections: seq<Section>, note: Sentence)
    requires DistinctKeys(sections)
    ensures forall key :: Sentences(AddNote(sections, note), key) == Sentences(sections, key) + if key == KnownGaps then [note] else []
    ensures DistinctKeys(AddNote(sections, note)) && forall key :: HasKey(AddNote(sections, note), key) <==> HasKey(sections, key) || key == KnownGaps
  {
    ReplaceLooksUp(sections, KnownGaps, Sentences(sections, KnownGaps) + [note]);
    if Lookup(sections, KnownGaps).None? {
      LookupFinds(sections, KnownGaps);
      forall key
        ensures Sentences(AddNote(sections, note), key) == Sentences(sections, key) + if key == KnownGaps then [note] else []
        ensures HasKey(AddNote(sections, note), key) <==> HasKey(sections, key) || key == KnownGaps
      {
        LookupAppend(sections, Section(KnownGaps, [note]), key);
      }
    }
  }

  lemma {:induction false} LookupAppend(sections: seq<Section>, section: Section, key: SectionKey)
    ensures Lookup(sections + [section], key) ==
      if Lookup(sections, key).Some? then Lookup(sections, key) else if section.key == key then Some(section) else None
  {
    if sections != [] {
      assert (sections + [section])[1..] == sections[1..] + [section];
      LookupAppend(sections[1..], section, key);
    }
  }

  datatype Verified = Verified(draft: Draft, rewritten: bool, dropped: nat)

  // The report the last verification was about, and its answers.
  datatype Inspection = Inspection(draft: Draft, answers: Answers)

  ghost function Last(draft: Draft, answers: Answers, rewrite: Draft, again: Answers, rewritten: bool): Inspection {
    if rewritten then Inspection(rewrite, again) else Inspection(draft, answers)
  }

  // Some cited sentence was left open by both replies to its batch; some was settled against.
  ghost predicate LeftOpen(seen: Inspection, size: nat)
    requires size > 0
  {
    exists at :: Says(Items(seen.draft.report.sections), size, seen.answers, at, None)
  }

  ghost predicate Refuted(seen: Inspection, size: nat)
    requires size > 0
  {
    exists at :: Says(Items(seen.draft.report.sections), size, seen.answers, at, Some(false))
  }

  lemma TallyTells(seen: Inspection, size: nat, tally: Tally)
    requires size > 0 && DistinctKeys(seen.draft.report.sections)
    requires var items := Items(seen.draft.report.sections); Tallied(items, |items|, size, seen.answers, tally)
    ensures tally.unavailable != {} <==> LeftOpen(seen, size)
    ensures tally.unsupported != {} <==> LeftOpen(seen, size) || Refuted(seen, size)
    ensures forall at | at in tally.unsupported :: CitedAt(seen.draft.report.sections, at)
  {
    var sections := seen.draft.report.sections;
    var items := Items(sections);
    assert items[..|items|] == items;
    if at :| Says(items, size, seen.answers, at, None) { assert at in tally.unavailable; }
    if at :| Says(items, size, seen.answers, at, Some(false)) { assert at in tally.unsupported; }
    forall at | at in tally.unsupported ensures CitedAt(sections, at) {
      assert at in items;
      ItemsMembers(sections, at);
    }
  }

  lemma AllStand(sections: seq<Section>, withheld: set<Address>)
    requires forall at | at in withheld :: InReport(sections, at)
    ensures CutFrom(sections, withheld) == withheld
  {
    forall at | at in withheld ensures StandsIn(sections, at) { LookupFinds(sections, at.key); }
  }

  // Kept exactly when uncited or supported by its own batch's answers.
  ghost predicate Deserved(seen: Inspection, size: nat, key: SectionKey, withheld: set<Address>)
    requires size > 0
  {
    var items := Items(seen.draft.report.sections);
    forall i: nat | i < |Sentences(seen.draft.report.sections, key)| ::
      Address(key, i) !in withheld <==>
        Uncited(Sentences(seen.draft.report.sections, key)[i]) || Says(items, size, seen.answers, Address(key, i), Some(true))
  }

  lemma SupportedOrWithheld(seen: Inspection, size: nat, tally: Tally, key: SectionKey)
    requires size > 0 && DistinctKeys(seen.draft.report.sections)
    requires var items := Items(seen.draft.report.sections); Tallied(items, |items|, size, seen.answers, tally)
    ensures Deserved(seen, size, key, tally.unsupported)
  {
    var sections := seen.draft.report.sections;
    var items := Items(sections);
    ItemsOnce(sections);
    forall i: nat | i < |Sentences(sections, key)|
      ensures Address(key, i) !in tally.unsupported <==>
        Uncited(Sentences(sections, key)[i]) || Says(items, size, seen.answers, Address(key, i), Some(true))
    {
      ItemsMembers(sections, Address(key, i));
      OneVerdict(items, size, seen.answers, tally, Address(key, i));
    }
  }

  lemma OneVerdict(items: seq<Address>, size: nat, answers: Answers, tally: Tally, at: Address)
    requires size > 0 && NoRepeats(items) && Tallied(items, |items|, size, answers, tally)
    ensures at in items ==> (at !in tally.unsupported <==> Says(items, size, answers, at, Some(true)))
    ensures at !in items ==> at !in tally.unsupported
  {
    assert items[..|items|] == items;
    if at in items {
      var k: nat :| k < |items| && items[k] == at;
      var verdict := Settled(answers(BatchOf(k, size)), at);
      assert Says(items, size, answers, at, verdict);
      forall other | Says(items, size, answers, at, other) ensures other == verdict {
        var i: nat :| i < |items| && items[i] == at && Settled(answers(BatchOf(i, size)), at) == other;
        assert !(i < k) && !(k < i);
      }
      if verdict.Some? {
        if verdict.value { assert verdict == Some(true); } else { assert verdict == Some(false); }
      }
    }
  }

  ghost predicate NoRepeats(items: seq<Address>) {
    forall i, j | 0 <= i < j < |items| :: items[i] != items[j]
  }

  lemma {:induction false} ItemsInOnce(key: SectionKey, sentences: seq<Sentence>)
    ensures NoRepeats(ItemsIn(key, sentences))
  {
    if sentences != [] {
      var i := |sentences| - 1;
      ItemsInOnce(key, sentences[..i]);
      ItemsInMembers(key, sentences[..i], Address(key, i));
    }
  }

  lemma {:induction false} ItemsOnce(sections: seq<Section>)
    requires DistinctKeys(sections)
    ensures NoRepeats(Items(sections))
  {
    if sections != [] {
      var front, last := sections[..|sections| - 1], sections[|sections| - 1];
      ItemsOnce(front);
      ItemsInOnce(last.key, last.sentences);
      var before, more := Items(front), ItemsIn(last.key, last.sentences);
      forall at | at in before ensures at !in more {
        ItemsScan(front, at);
        var j: nat :| j < |front| && at in ItemsIn(front[j].key, front[j].sentences);
        ItemsInMembers(front[j].key, front[j].sentences, at);
        ItemsInMembers(last.key, last.sentences, at);
      }
      JoinOnce(before, more);
    }
  }

  lemma JoinOnce(before: seq<Address>, more: seq<Address>)
    requires NoRepeats(before) && NoRepeats(more) && forall at | at in before :: at !in more
    ensures NoRepeats(before + more)
  {
    var all := before + more;
    forall i, j | 0 <= i < j < |all| ensures all[i] != all[j] {
      if i < |before| <= j { assert all[i] in before && all[j] in more; }
    }
  }

  lemma CutLooksUp(sections: seq<Section>, withheld: set<Address>, after: seq<Section>, key: SectionKey)
    requires DistinctKeys(sections) && Cut(sections, withheld, after)
    ensures DistinctKeys(after) && Sentences(after, key) == Kept(key, Sentences(sections, key), withheld)
    ensures HasKey(after, key) <==> HasKey(sections, key)
  {
    LookupFinds(sections, key);
    LookupFinds(after, key);
    if HasKey(after, key) {
      var j: nat :| j < |after| && after[j] == Lookup(after, key).value;
      assert sections[j] in sections && sections[j].key == key;
      LookupIsUnique(sections, sections[j]);
    }
    if HasKey(sections, key) {
      var j: nat :| j < |sections| && sections[j] == Lookup(sections, key).value;
      LookupIsUnique(after, after[j]);
    }
  }

  // Every place withheld held a cited sentence, and the places kept are the uncited and the supported ones.
  ghost predicate Examined(seen: Inspection, size: nat, withheld: set<Address>)
    requires size > 0
  {
    && (forall key :: Deserved(seen, size, key, withheld))
    && forall at | at in withheld :: CitedAt(seen.draft.report.sections, at)
  }

  lemma TallyExamines(seen: Inspection, size: nat, tally: Tally)
    requires size > 0 && DistinctKeys(seen.draft.report.sections)
    requires var items := Items(seen.draft.report.sections); Tallied(items, |items|, size, seen.answers, tally)
    ensures Examined(seen, size, tally.unsupported)
  {
    TallyTells(seen, size, tally);
    forall key ensures Deserved(seen, size, key, tally.unsupported) { SupportedOrWithheld(seen, size, tally, key); }
  }

  // The report to deliver, rewritten once if every cited sentence was settled and some was refuted.
  method Examine(draft: Draft, resynthesized: bool, size: nat, answers: Answers, rewrite: Draft, again: Answers)
    returns (current: Draft, rewritten: bool, unsupported: set<Address>, open: bool)
    requires size > 0 && !draft.fallback && DistinctKeys(draft.report.sections) && DistinctKeys(rewrite.report.sections)
    ensures var first := Inspection(draft, answers); rewritten <==> !resynthesized && Refuted(first, size) && !LeftOpen(first, size)
    ensures current == Last(draft, answers, rewrite, again, rewritten).draft
    ensures !current.fallback ==> Examined(Last(draft, answers, rewrite, again, rewritten), size, unsupported)
    ensures current.fallback ==> unsupported == {}
    ensures open <==> !current.fallback && LeftOpen(Last(draft, answers, rewrite, again, rewritten), size)
  {
    current, rewritten := draft, false;
    var tally := Verify(draft.report.sections, size, answers);
    TallyTells(Inspection(draft, answers), size, tally);
    TallyExamines(Inspection(draft, answers), size, tally);
    unsupported := tally.unsupported;
    if unsupported != {} && !resynthesized && tally.unavailable == {} {
      current, rewritten := rewrite, true;
      if !rewrite.fallback {
        tally := Verify(rewrite.report.sections, size, again);
        TallyTells(Inspection(rewrite, again), size, tally);
        TallyExamines(Inspection(rewrite, again), size, tally);
        unsupported := tally.unsupported;
      } else {
        // The positions checked so far are those of another report.
        unsupported := {};
      }
    }
    open := tally.unavailable != {};
  }

  // Every section without its withheld sentences, and the note among the known gaps.
  ghost predicate Withheld(before: seq<Section>, withheld: set<Address>, note: seq<Sentence>, after: seq<Section>) {
    && DistinctKeys(after)
    && forall key ::
         && Sentences(after, key) == Kept(key, Sentences(before, key), withheld) + (if key == KnownGaps then note else [])
         && (HasKey(after, key) <==> HasKey(before, key) || (key == KnownGaps && note != []))
  }

  lemma CutWithholds(sections: seq<Section>, withheld: set<Address>, after: seq<Section>)
    requires DistinctKeys(sections) && Cut(sections, withheld, after)
    ensures Withheld(sections, withheld, [], after)
  {
    CutLooksUp(sections, withheld, after, KnownGaps);
    forall key
      ensures Sentences(after, key) == Kept(key, Sentences(sections, key), withheld) + []
      ensures HasKey(after, key) <==> HasKey(sections, key)
    {
      CutLooksUp(sections, withheld, after, key);
    }
  }

  lemma NoteIsAdded(sections: seq<Section>, withheld: set<Address>, after: seq<Section>, note: Sentence)
    requires Withheld(sections, withheld, [], after)
    ensures Withheld(sections, withheld, [note], AddNote(after, note))
  {
    AddNoteLooksUp(after, note);
    forall key ensures Sentences(AddNote(after, note), key) == Kept(key, Sentences(sections, key), withheld) + if key == KnownGaps then [note] else [] {
      assert Sentences(after, key) == Kept(key, Sentences(sections, key), withheld) + (if key == KnownGaps then [] else []);
    }
  }

  method Withhold(notes: Notes, sections: seq<Section>, withheld: set<Address>, open: bool)
    returns (after: seq<Section>, dropped: nat)
    requires DistinctKeys(sections) && forall at | at in withheld :: InReport(sections, at)
    ensures dropped == |withheld|
    ensures Withheld(sections, withheld, if open then [Sentence(notes.withheld(dropped), Meta, [], [], [])] else [], after)
  {
    after, dropped := Drop(sections, withheld);
    AllStand(sections, withheld);
    CutWithholds(sections, withheld, after);
    if open {
      NoteIsAdded(sections, withheld, after, NoteOf(notes, dropped));
      after := AddNote(after, NoteOf(notes, dropped));
    }
  }

  method VerifyCitations(ctx: Context, notes: Notes, draft: Draft, resynthesized: bool, size: nat, answers: Answers, rewrite: Draft, again: Answers)
    returns (r: Verified, ghost withheld: set<Address>, ghost note: seq<Sentence>)
    requires size > 0 && DistinctKeys(draft.report.sections) && DistinctKeys(rewrite.report.sections)
    ensures draft.fallback ==> r == Verified(draft, false, 0)
    ensures var first := Inspection(draft, answers);
      r.rewritten <==> !draft.fallback && !resynthesized && Refuted(first, size) && !LeftOpen(first, size)
    ensures var seen := Last(draft, answers, rewrite, again, r.rewritten);
      && (r.draft.fallback <==> seen.draft.fallback)
      && (!draft.fallback ==> Withheld(seen.draft.report.sections, withheld, note, r.draft.report.sections))
      && (!r.draft.fallback ==> Examined(seen, size, withheld))
      && note == if !r.draft.fallback && LeftOpen(seen, size) then [Sentence(notes.withheld(r.dropped), Meta, [], [], [])] else []
    ensures r.draft.fallback ==> withheld == {}
    ensures r.dropped == |withheld|
    ensures !draft.fallback ==> r.draft.report.sources == SourceList(ctx, CitedDocs(r.draft.report.sections, ctx.ledger))
  {
    withheld, note := {}, [];
    if draft.fallback {
      r := Verified(draft, false, 0);
      return;
    }
    var current, rewritten, unsupported, open := Examine(draft, resynthesized, size, answers, rewrite, again);
    var sections, dropped := Withhold(notes, current.report.sections, unsupported, open);
    withheld, note := unsupported, if open then [Sentence(notes.withheld(dropped), Meta, [], [], [])] else [];
    var sources := RebuildSources(ctx, sections);
    r := Verified(current.(report := Report(sections, sources)), rewritten, dropped);
  }

  // --- fail closed ---

  lemma {:induction false} KeptFrom(key: SectionKey, sentences: seq<Sentence>, withheld: set<Address>, s: Sentence) returns (i: nat)
    requires s in Kept(key, sentences, withheld)
    ensures i < |sentences| && sentences[i] == s && Address(key, i) !in withheld
  {
    if s in Kept(key, sentences[..|sentences| - 1], withheld) {
      i := KeptFrom(key, sentences[..|sentences| - 1], withheld, s);
    } else {
      i := |sentences| - 1;
    }
  }

  // Whatever the verifier answers, a cited sentence that stays was named exactly once, in support, by
  // a reply to the batch it was asked in, at its position in the report that was verified last.
  lemma KeptIsSupported(seen: Inspection, size: nat, key: SectionKey, withheld: set<Address>, s: Sentence)
    returns (i: nat, n: nat, t: nat, k: nat)
    requires size > 0 && Deserved(seen, size, key, withheld) && Cited(s)
    requires s in Kept(key, Sentences(seen.draft.report.sections, key), withheld)
    ensures i < |Sentences(seen.draft.report.sections, key)| && Sentences(seen.draft.report.sections, key)[i] == s
    ensures var items := Items(seen.draft.report.sections); n < |items| && items[n] == Address(key, i)
    ensures var replies := seen.answers(BatchOf(n, size));
      t < |replies| && replies[t].Some? && Sole(replies[t].value, Address(key, i), k) && replies[t].value[k].value
  {
    i := KeptFrom(key, Sentences(seen.draft.report.sections, key), withheld, s);
    var items := Items(seen.draft.report.sections);
    n :| n < |items| && items[n] == Address(key, i) && Settled(seen.answers(BatchOf(n, size)), Address(key, i)) == Some(true);
    t, k := SettledBy(seen.answers(BatchOf(n, size)), Address(key, i));
  }
}
