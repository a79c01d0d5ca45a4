/** The report and the part of the research state the output gate reads, with lookups by section key. */
module Reports {
  import opened Wrappers
  import opened Numeric
  import opened Sorting
  import opened Evidence

  // Declared in the order of SECTION_ORDER.
  datatype SectionKey = Summary | KeyFindings | Conflicting | Recommendations | Conclusion | KnownGaps | Sources

  datatype SentenceKind = Fact | Recommendation | Meta

  datatype Label = Uncertain | SingleSource | Approximate | Gap(subq: string) | GateNote | OtherLabel(name: string)

  datatype Sentence = Sentence(
    text: string, kind: SentenceKind, clusterIds: seq<string>, findingRefs: seq<string>, labels: seq<Label>)

  datatype Section = Section(key: SectionKey, sentences: seq<Sentence>)

  datatype Source = Source(number: nat, docId: string, url: string, title: string, domain: string, score: real)

  datatype Report = Report(sections: seq<Section>, sources: seq<Source>)

  datatype Address = Address(key: SectionKey, index: nat)

  // --- the ledger ---

  datatype Ledger = Ledger(
    clusters: map<string, Cluster>, claims: map<string, Claim>, documents: map<string, Document>,
    plan: seq<SubQuestion>, question: string, queries: nat, queriesDone: nat, contradictions: nat)

  // --- sections by key ---

  function Order(key: SectionKey): nat {
    match key
    case Summary => 0
    case KeyFindings => 1
    case Conflicting => 2
    case Recommendations => 3
    case Conclusion => 4
    case KnownGaps => 5
    case Sources => 6
  }

  predicate Earlier(a: Section, b: Section) {
    Order(a.key) <= Order(b.key)
  }

  ghost predicate DistinctKeys(sections: seq<Section>) {
    forall i, j | 0 <= i < j < |sections| :: sections[i].key != sections[j].key
  }

  function Lookup(sections: seq<Section>, key: SectionKey): Option<Section> {
    if sections == [] then None
    else if sections[0].key == key then Some(sections[0])
    else Lookup(sections[1..], key)
  }

  ghost predicate HasKey(sections: seq<Section>, key: SectionKey) {
    Lookup(sections, key).Some?
  }

  // The sentences under a key; a missing section has none.
  function Sentences(sections: seq<Section>, key: SectionKey): seq<Sentence> {
    var found := Lookup(sections, key);
    if found.Some? then found.value.sentences else []
  }

  // Replace the sentences of the first section with that key.
  function Replace(sections: seq<Section>, key: SectionKey, sentences: seq<Sentence>): seq<Section> {
    if sections == [] then []
    else if sections[0].key == key then [sections[0].(sentences := sentences)] + sections[1..]
    else [sections[0]] + Replace(sections[1..], key, sentences)
  }

  function EnsureSection(sections: seq<Section>, key: SectionKey): seq<Section> {
    if Lookup(sections, key).Some? then sections else Sort(sections + [Section(key, [])], Earlier)
  }

  lemma {:induction false} LookupFinds(sections: seq<Section>, key: SectionKey)
    ensures Lookup(sections, key).Some? ==>
      Lookup(sections, key).value in sections && Lookup(sections, key).value.key == key
    ensures Lookup(sections, key).None? ==> forall s | s in sections :: s.key != key
  {
    if sections != [] && sections[0].key != key {
      LookupFinds(sections[1..], key);
      forall s | s in sections && Lookup(sections, key).None? ensures s.key != key {
        if s != sections[0] { assert s in sections[1..]; }
      }
    }
  }

  lemma {:induction false} LookupIsUnique(sections: seq<Section>, section: Section)
    requires DistinctKeys(sections) && section in sections
    ensures Lookup(sections, section.key) == Some(section)
  {
    if sections[0] != section {
      assert section in sections[1..];
      var i :| 1 <= i < |sections| && sections[i] == section;
      LookupIsUnique(sections[1..], section);
    } else {
      assert sections[0].key == section.key;
    }
  }

  lemma {:induction false} ReplaceLooksUp(sections: seq<Section>, key: SectionKey, sentences: seq<Sentence>)
    ensures |Replace(sections, key, sentences)| == |sections|
    ensures forall i | 0 <= i < |sections| :: Replace(sections, key, sentences)[i].key == sections[i].key
    ensures DistinctKeys(sections) ==> DistinctKeys(Replace(sections, key, sentences))
    ensures forall k :: HasKey(Replace(sections, key, sentences), k) <==> HasKey(sections, k)
    ensures forall k :: Sentences(Replace(sections, key, sentences), k) ==
                        if k == key && HasKey(sections, key) then sentences else Sentences(sections, k)
  {
    if sections != [] {
      var r := Replace(sections, key, sentences);
      if sections[0].key != key {
        ReplaceLooksUp(sections[1..], key, sentences);
        assert r[1..] == Replace(sections[1..], key, sentences);
      } else {
        assert r[1..] == sections[1..];
      }
      forall k
        ensures HasKey(r, k) <==> HasKey(sections, k)
        ensures Sentences(r, k) == if k == key && HasKey(sections, key) then sentences else Sentences(sections, k)
      {
        assert Lookup(r, k) == if r[0].key == k then Some(r[0]) else Lookup(r[1..], k);
        assert Lookup(sections, k) == if sections[0].key == k then Some(sections[0]) else Lookup(sections[1..], k);
        if k != sections[0].key {
          assert Sentences(r, k) == Sentences(r[1..], k) && Sentences(sections, k) == Sentences(sections[1..], k);
          assert HasKey(r, k) == HasKey(r[1..], k) && HasKey(sections, k) == HasKey(sections[1..], k);
        }
      }
    }
  }

  // Adding a missing section and sorting moves no sentence.
  lemma EnsureLooksUp(sections: seq<Section>, key: SectionKey)
    requires DistinctKeys(sections)
    ensures var r := EnsureSection(sections, key);
      && DistinctKeys(r)
      && (forall k :: HasKey(r, k) <==> HasKey(sections, k) || k == key)
      && (forall k :: Sentences(r, k) == Sentences(sections, k))
  {
    if Lookup(sections, key).None? {
      LookupFinds(sections, key);
      var longer := sections + [Section(key, [])];
      var r := Sort(longer, Earlier);
      var apart := (a: Section, b: Section) => a.key != b.key;
      forall i, j | 0 <= i < j < |longer| ensures apart(longer[i], longer[j]) {
        assert longer[i] in sections;
      }
      SortElements(longer, Earlier);
      SortKeepsPairs(longer, Earlier, apart);
      assert DistinctKeys(r) by {
        forall i, j | 0 <= i < j < |r| ensures r[i].key != r[j].key { assert apart(r[i], r[j]); }
      }
      forall k
        ensures HasKey(r, k) <==> HasKey(sections, k) || k == key
        ensures Sentences(r, k) == Sentences(sections, k)
      {
        LookupFinds(sections, k);
        LookupFinds(r, k);
        if k == key {
          LookupIsUnique(r, Section(key, []));
        } else if HasKey(sections, k) {
          LookupIsUnique(r, Lookup(sections, k).value);
        }
      }
    }
  }
}
