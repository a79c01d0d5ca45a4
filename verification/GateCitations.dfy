/** The documents a report cites, as a set: neither the order of sections nor that of sentences matters. */
module GateCitations {
  import opened Wrappers
  import opened Reports
  import opened GateRules
  import opened GateRemedy

  ghost predicate Mentions(sentences: seq<Sentence>, c: string) {
    exists i: nat :: i < |sentences| && c in sentences[i].clusterIds + sentences[i].findingRefs
  }

  ghost predicate Cites(sections: seq<Section>, c: string) {
    exists key :: Mentions(Sentences(sections, key), c)
  }

  lemma {:induction false} CitationMembers(sentences: seq<Sentence>, c: string)
    ensures c in Citations(sentences) <==> Mentions(sentences, c)
  {
    if sentences != [] {
      var front, last := sentences[..|sentences| - 1], sentences[|sentences| - 1];
      CitationMembers(front, c);
      if i: nat :| i < |front| && c in front[i].clusterIds + front[i].findingRefs { assert sentences[i] == front[i]; }
      if i: nat :| i < |sentences| && c in sentences[i].clusterIds + sentences[i].findingRefs {
        assert i == |front| || front[i] == sentences[i];
      }
    }
  }

  lemma {:induction false} AllCitationMembers(sections: seq<Section>, c: string)
    ensures c in AllCitations(sections) <==> exists j: nat :: j < |sections| && Mentions(sections[j].sentences, c)
  {
    if sections != [] {
      var front := sections[..|sections| - 1];
      AllCitationMembers(front, c);
      CitationMembers(sections[|sections| - 1].sentences, c);
      if j: nat :| j < |front| && Mentions(front[j].sentences, c) { assert sections[j] == front[j]; }
      if j: nat :| j < |sections| && Mentions(sections[j].sentences, c) { assert j == |front| || front[j] == sections[j]; }
    }
  }

  lemma CitesIsCited(sections: seq<Section>, c: string)
    requires DistinctKeys(sections)
    ensures c in AllCitations(sections) <==> Cites(sections, c)
  {
    AllCitationMembers(sections, c);
    if j: nat :| j < |sections| && Mentions(sections[j].sentences, c) {
      LookupIsUnique(sections, sections[j]);
      assert Mentions(Sentences(sections, sections[j].key), c);
    }
    if key :| Mentions(Sentences(sections, key), c) {
      LookupFinds(sections, key);
      var j: nat :| j < |sections| && sections[j] == Lookup(sections, key).value;
    }
  }

  lemma {:induction false} AddDocsMembers(ordered: seq<string>, docs: seq<string>, ledger: Ledger, d: string)
    ensures d in AddDocs(ordered, docs, ledger) <==> d in ordered || (d in docs && d in ledger.documents)
  {
    if docs != [] {
      AddDocsMembers(ordered, docs[..|docs| - 1], ledger, d);
      assert docs == docs[..|docs| - 1] + [docs[|docs| - 1]];
    }
  }

  ghost predicate Behind(cids: seq<string>, ledger: Ledger, d: string) {
    d in ledger.documents && exists c :: c in cids && c in ledger.clusters && d in ledger.clusters[c].docIds
  }

  lemma {:induction false} CitedMembers(cids: seq<string>, ledger: Ledger, d: string)
    ensures d in AddCited([], cids, ledger) <==> Behind(cids, ledger, d)
  {
    if cids != [] {
      var front, c := cids[..|cids| - 1], cids[|cids| - 1];
      assert cids == front + [c];
      CitedMembers(front, ledger, d);
      if c in ledger.clusters { AddDocsMembers(AddCited([], front, ledger), ledger.clusters[c].docIds, ledger, d); }
    }
  }

  lemma DocumentMembers(sections: seq<Section>, ledger: Ledger, d: string)
    requires DistinctKeys(sections)
    ensures d in CitedDocs(sections, ledger) <==> exists key :: CitesDoc(Sentences(sections, key), ledger, d)
  {
    CitedMembers(AllCitations(sections), ledger, d);
    if d in CitedDocs(sections, ledger) {
      var c :| c in AllCitations(sections) && c in ledger.clusters && d in ledger.clusters[c].docIds;
      CitesIsCited(sections, c);
      var key :| Mentions(Sentences(sections, key), c);
      var i: nat :| i < |Sentences(sections, key)| && c in Sentences(sections, key)[i].clusterIds + Sentences(sections, key)[i].findingRefs;
      assert RestsOn(Sentences(sections, key)[i], ledger, d);
    }
    if key :| CitesDoc(Sentences(sections, key), ledger, d) {
      var i: nat :| i < |Sentences(sections, key)| && RestsOn(Sentences(sections, key)[i], ledger, d);
      var s := Sentences(sections, key)[i];
      var c :| c in s.clusterIds + s.findingRefs && c in ledger.clusters && d in ledger.clusters[c].docIds;
      assert Mentions(Sentences(sections, key), c);
      CitesIsCited(sections, c);
    }
  }

  // The document is behind a finding the sentence cites.
  ghost predicate RestsOn(s: Sentence, ledger: Ledger, d: string) {
    Behind(s.clusterIds + s.findingRefs, ledger, d)
  }

  ghost predicate CitesDoc(sentences: seq<Sentence>, ledger: Ledger, d: string) {
    exists i: nat :: i < |sentences| && RestsOn(sentences[i], ledger, d)
  }
}
