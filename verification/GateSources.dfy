/** The source list a round derives from the citations. */
module GateSources {
  import opened Wrappers
  import opened Reports
  import opened GateRules
  import opened GateRemedy
  import opened GateTheorems

  ghost predicate NoRepeats(docs: seq<string>) {
    forall i, j | 0 <= i < j < |docs| :: docs[i] != docs[j]
  }

  lemma {:induction false} AddDocsOnce(ordered: seq<string>, docs: seq<string>, ledger: Ledger)
    requires NoRepeats(ordered)
    ensures NoRepeats(AddDocs(ordered, docs, ledger))
  {
    if docs != [] { AddDocsOnce(ordered, docs[..|docs| - 1], ledger); }
  }

  lemma {:induction false} CitedOnce(cids: seq<string>, ledger: Ledger)
    ensures NoRepeats(AddCited([], cids, ledger))
  {
    if cids != [] {
      var front, c := cids[..|cids| - 1], cids[|cids| - 1];
      CitedOnce(front, ledger);
      if c in ledger.clusters { AddDocsOnce(AddCited([], front, ledger), ledger.clusters[c].docIds, ledger); }
    }
  }

  // Every entry is a cited document under its own canonical URL, and no URL appears twice.
  ghost predicate Shaped(ctx: Context, docs: seq<string>, sources: seq<Source>) {
    && (forall i | 0 <= i < |sources| ::
          sources[i].docId in docs && UrlOf(ctx, sources[i].docId) == Some(sources[i].url) && sources[i].number == i + 1)
    && (forall i, j | 0 <= i < j < |sources| :: sources[i].url != sources[j].url && sources[i].docId != sources[j].docId)
  }

  lemma {:induction false} SourceListShape(ctx: Context, docs: seq<string>)
    requires NoRepeats(docs)
    ensures Shaped(ctx, docs, SourceList(ctx, docs))
  {
    if docs != [] {
      var front, d := docs[..|docs| - 1], docs[|docs| - 1];
      assert docs == front + [d];
      SourceListShape(ctx, front);
      var was, now := SourceList(ctx, front), SourceList(ctx, docs);
      if now != was {
        forall i | 0 <= i < |was| ensures was[i].docId in docs && was[i].docId != d && was[i].url != now[|was|].url {
          assert was[i].docId in front;
          var k :| 0 <= k < |front| && front[k] == was[i].docId;
          assert docs[k] == front[k];
        }
        assert now == was + [now[|was|]];
      } else {
        forall i | 0 <= i < |was| ensures was[i].docId in docs { assert was[i].docId in front; }
      }
    }
  }

  // A cited document is listed unless it has no valid URL or shares one with an earlier entry.
  ghost predicate ProperUrls(ctx: Context, docs: seq<string>) {
    && (forall i | 0 <= i < |docs| :: UrlOf(ctx, docs[i]).Some?)
    && (forall i, j | 0 <= i < j < |docs| :: UrlOf(ctx, docs[i]) != UrlOf(ctx, docs[j]))
  }

  lemma AllListed(ctx: Context, docs: seq<string>)
    requires NoRepeats(docs)
    ensures (forall d | d in docs :: Listed(SourceList(ctx, docs), d)) <==> ProperUrls(ctx, docs)
  {
    var r := SourceList(ctx, docs);
    SourceListShape(ctx, docs);
    if forall d | d in docs :: Listed(r, d) {
      forall i | 0 <= i < |docs| ensures UrlOf(ctx, docs[i]).Some? && Listed(r, docs[i]) {
        assert docs[i] in docs;
        var k :| 0 <= k < |r| && r[k].docId == docs[i];
      }
      forall i, j | 0 <= i < j < |docs| ensures UrlOf(ctx, docs[i]) != UrlOf(ctx, docs[j]) {
        assert Listed(r, docs[i]) && Listed(r, docs[j]);
        var k :| 0 <= k < |r| && r[k].docId == docs[i];
        var l :| 0 <= l < |r| && r[l].docId == docs[j];
        assert k < l || l < k;
      }
    }
    if ProperUrls(ctx, docs) {
      ProperAreListed(ctx, docs);
    }
  }

  lemma {:induction false} ProperAreListed(ctx: Context, docs: seq<string>)
    requires NoRepeats(docs) && ProperUrls(ctx, docs)
    ensures forall d | d in docs :: Listed(SourceList(ctx, docs), d)
  {
    if docs != [] {
      var n := |docs| - 1;
      var front, d := docs[..n], docs[n];
      assert docs == front + [d];
      ProperAreListed(ctx, front);
      SourceListShape(ctx, front);
      var was, now := SourceList(ctx, front), SourceList(ctx, docs);
      assert UrlOf(ctx, docs[n]).Some?;
      var url := UrlOf(ctx, docs[n]).value;
      forall i | 0 <= i < |was| ensures was[i].url != url {
        assert was[i].docId in front;
        var k :| 0 <= k < |front| && front[k] == was[i].docId;
        assert docs[k] == front[k];
      }
      assert now == was + [Entry(ctx, d, url, |was| + 1)];
      forall e | e in docs ensures Listed(now, e) {
        if e == d {
          assert now[|was|].docId == d;
        } else {
          assert e in front;
          var i :| 0 <= i < |was| && was[i].docId == e;
          assert now[i].docId == e;
        }
      }
    }
  }

  // Whether G8 has anything left depends only on the listed URLs being fixed points of canonicalisation.
  lemma UrlsAfterwards(ctx: Context, sources: seq<Source>, docs: seq<string>)
    requires NoRepeats(docs) && sources == SourceList(ctx, docs)
    ensures (forall i: nat, v :: i < |sources| && v in CheckSource(sources, i, ctx.texts.canonical) ==> !AboutSources(v))
      <==> forall i | 0 <= i < |sources| :: ctx.texts.canonical(sources[i].url) == Some(sources[i].url)
  {
    SourceListShape(ctx, docs);
    var canonical := ctx.texts.canonical;
    if forall i | 0 <= i < |sources| :: canonical(sources[i].url) == Some(sources[i].url) {
      forall i: nat | i < |sources| ensures CheckSource(sources, i, canonical) == [] {
        assert !Repeats(sources, i, canonical);
      }
    }
    forall i: nat | i < |sources| && canonical(sources[i].url) != Some(sources[i].url)
      ensures exists v :: v in CheckSource(sources, i, canonical) && AboutSources(v)
    {
      var all := CheckSource(sources, i, canonical);
      assert all[0] in all && AboutSources(all[0]);
    }
  }
}
