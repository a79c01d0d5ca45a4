/** When a facet counts as answered: a strong primary source, or enough independent voices across all its findings. */
module Coverage {
  import opened Wrappers
  import opened Sets
  import opened Sorting
  import opened UnionFind
  import opened Evidence
  import opened Origins
  import opened Corroboration

  datatype FacetStatus = OpenFacet | ContestedFacet | SufficientFacet

  datatype Bar = Bar(primaryScore: real, minOrigins: nat)

  // The clusters of one sub-question; `only`: it has a single facet. `settled`: no contradiction awaits follow-up.
  datatype Case = Case(facetId: string, only: bool, clusters: seq<Cluster>, settled: set<string>)

  predicate Relevant(asked: Case, cluster: Cluster) {
    !cluster.requiresFresh && (asked.facetId in cluster.facetIds || (cluster.facetIds == [] && asked.only))
  }

  function RelevantOnes(asked: Case, clusters: seq<Cluster>): seq<Cluster> {
    if clusters == [] then []
    else RelevantOnes(asked, clusters[..|clusters| - 1]) + if Relevant(asked, clusters[|clusters| - 1]) then [clusters[|clusters| - 1]] else []
  }

  function AllIds(clusters: seq<Cluster>): seq<string> {
    if clusters == [] then [] else AllIds(clusters[..|clusters| - 1]) + clusters[|clusters| - 1].claimIds
  }

  // Every claim behind a relevant finding, once.
  function FacetMembers(asked: Case, claims: map<string, Claim>): seq<Claim> {
    Members(Unique(AllIds(RelevantOnes(asked, asked.clusters))), claims)
  }

  function StoredOrigins(clusters: seq<Cluster>): set<string> {
    set k, o | 0 <= k < |clusters| && o in clusters[k].originIds :: o
  }

  ghost function Support(asked: Case, claims: map<string, Claim>, documents: map<string, Document>, naming: Naming): set<string> {
    var members := FacetMembers(asked, claims);
    if members == [] then StoredOrigins(RelevantOnes(asked, asked.clusters))
    else set m | m in members :: VoiceIn(members, documents, naming)(m)
  }

  predicate Strong(asked: Case, bar: Bar) {
    var relevant := RelevantOnes(asked, asked.clusters);
    exists k | 0 <= k < |relevant| :: relevant[k].hasPrimary && relevant[k].bestScore >= bar.primaryScore
  }

  predicate Blocked(asked: Case) {
    var relevant := RelevantOnes(asked, asked.clusters);
    exists k | 0 <= k < |relevant| :: relevant[k].status == Contested && relevant[k].id !in asked.settled
  }

  // Evidence of the facet waits for a fresh confirmation and none of it is current.
  predicate AwaitsFreshness(asked: Case, subqId: string, claims: map<string, Claim>) {
    && (exists id | id in claims :: Bears(asked, subqId, claims[id]) && claims[id].requiresFresh)
    && !(exists id | id in claims :: Bears(asked, subqId, claims[id]) && claims[id].timeSensitive && !claims[id].requiresFresh)
  }

  predicate Bears(asked: Case, subqId: string, claim: Claim) {
    claim.subqId == subqId && claim.facetId == asked.facetId && (claim.validation == Affirmed || claim.validation == Legacy)
  }

  // --- the same, finding by finding ---

  // A finding of the sub-question, not awaiting confirmation, that names the facet, or names none where there is only one.
  ghost predicate About(asked: Case, c: Cluster) {
    c in asked.clusters && !c.requiresFresh && (asked.facetId in c.facetIds || (c.facetIds == [] && asked.only))
  }

  // Accepted evidence on the facet.
  ghost predicate Accepted(asked: Case, subqId: string, claim: Claim) {
    claim.subqId == subqId && claim.facetId == asked.facetId && claim.validation in {Affirmed, Legacy}
  }

  // Some of it needs a fresh confirmation, and none of it is dated and current.
  ghost predicate MustWait(asked: Case, subqId: string, claims: map<string, Claim>) {
    && (exists id :: id in claims && Accepted(asked, subqId, claims[id]) && claims[id].requiresFresh)
    && (forall id | id in claims && Accepted(asked, subqId, claims[id]) && claims[id].timeSensitive :: claims[id].requiresFresh)
  }

  lemma {:induction false} RelevantAre(asked: Case, clusters: seq<Cluster>, c: Cluster)
    ensures c in RelevantOnes(asked, clusters) <==> c in clusters && !c.requiresFresh && (asked.facetId in c.facetIds || (c.facetIds == [] && asked.only))
  {
    if clusters != [] {
      RelevantAre(asked, clusters[..|clusters| - 1], c);
      assert clusters == clusters[..|clusters| - 1] + [clusters[|clusters| - 1]];
    }
  }

  lemma {:induction false} RelevantInOrder(asked: Case, some: seq<Cluster>, others: seq<Cluster>)
    ensures RelevantOnes(asked, some + others) == RelevantOnes(asked, some) + RelevantOnes(asked, others)
  {
    if others == [] {
      assert some + others == some;
    } else {
      RelevantInOrder(asked, some, others[..|others| - 1]);
      assert (some + others)[..|some + others| - 1] == some + others[..|others| - 1];
    }
  }

  lemma StrongIff(asked: Case, bar: Bar)
    ensures Strong(asked, bar) <==> exists c :: About(asked, c) && c.hasPrimary && c.bestScore >= bar.primaryScore
  {
    var relevant := RelevantOnes(asked, asked.clusters);
    forall c ensures c in relevant <==> About(asked, c) { RelevantAre(asked, asked.clusters, c); }
    if k :| 0 <= k < |relevant| && relevant[k].hasPrimary && relevant[k].bestScore >= bar.primaryScore { assert About(asked, relevant[k]); }
  }

  lemma BlockedIff(asked: Case)
    ensures Blocked(asked) <==> exists c :: About(asked, c) && c.status == Contested && c.id !in asked.settled
  {
    var relevant := RelevantOnes(asked, asked.clusters);
    forall c ensures c in relevant <==> About(asked, c) { RelevantAre(asked, asked.clusters, c); }
    if k :| 0 <= k < |relevant| && relevant[k].status == Contested && relevant[k].id !in asked.settled { assert About(asked, relevant[k]); }
  }

  lemma AwaitsIff(asked: Case, subqId: string, claims: map<string, Claim>)
    ensures AwaitsFreshness(asked, subqId, claims) <==> MustWait(asked, subqId, claims)
  {
    assert forall id | id in claims :: Bears(asked, subqId, claims[id]) <==> Accepted(asked, subqId, claims[id]);
  }

  lemma {:induction false} AllIdsAre(clusters: seq<Cluster>, id: string)
    ensures id in AllIds(clusters) <==> exists c :: c in clusters && id in c.claimIds
  {
    if clusters != [] {
      AllIdsAre(clusters[..|clusters| - 1], id);
      assert clusters == clusters[..|clusters| - 1] + [clusters[|clusters| - 1]];
    }
  }

  lemma {:induction false} MembersAre(ids: seq<string>, claims: map<string, Claim>, m: Claim)
    ensures m in Members(ids, claims) <==> exists id :: id in ids && id in claims && claims[id] == m
  {
    if ids != [] {
      MembersAre(ids[..|ids| - 1], claims, m);
      assert ids == ids[..|ids| - 1] + [ids[|ids| - 1]];
    }
  }

  // The claims heard for a facet are those behind some finding about it; no other page or claim adds a voice.
  lemma FacetMembersAre(asked: Case, claims: map<string, Claim>, m: Claim)
    ensures m in FacetMembers(asked, claims) <==> exists c, id :: About(asked, c) && id in c.claimIds && id in claims && claims[id] == m
  {
    var relevant := RelevantOnes(asked, asked.clusters);
    forall c ensures c in relevant <==> About(asked, c) { RelevantAre(asked, asked.clusters, c); }
    forall id ensures id in Unique(AllIds(relevant)) <==> exists c :: About(asked, c) && id in c.claimIds {
      UniqueElements(AllIds(relevant));
      AllIdsAre(relevant, id);
    }
    MembersAre(Unique(AllIds(relevant)), claims, m);
  }

  // Without any of them, the voices stored with the findings count.
  lemma StoredOriginsAre(asked: Case, o: string)
    ensures o in StoredOrigins(RelevantOnes(asked, asked.clusters)) <==> exists c :: About(asked, c) && o in c.originIds
  {
    var relevant := RelevantOnes(asked, asked.clusters);
    forall c ensures c in relevant <==> About(asked, c) { RelevantAre(asked, asked.clusters, c); }
    if k :| 0 <= k < |relevant| && o in relevant[k].originIds { assert About(asked, relevant[k]); }
    if c :| About(asked, c) && o in c.originIds {
      var k :| 0 <= k < |relevant| && relevant[k] == c;
      assert o in relevant[k].originIds;
    }
  }

  lemma {:induction false} UniqueMembers(ids: seq<string>, claims: map<string, Claim>)
    requires forall id | id in claims :: claims[id].id == id
    ensures SameIdSameClaim(Members(ids, claims))
  {
    MembersAreClaims(ids, claims);
    var members := Members(ids, claims);
    forall i, j | 0 <= i < |members| && 0 <= j < |members| && members[i].id == members[j].id ensures members[i] == members[j] {
      assert members[i] in members && members[j] in members;
    }
  }

  method IndependentVoices(members: seq<Claim>, documents: map<string, Document>, naming: Naming) returns (voices: set<string>)
    requires SameIdSameClaim(members)
    ensures voices == set m | m in members :: VoiceIn(members, documents, naming)(m)
  {
    var keys := IndependentOriginKeys(members, documents, naming);
    AssignedToAll(members, KeyIn(members, documents, naming), keys);
    voices := keys.Values;
    ghost var voice := VoiceIn(members, documents, naming);
    forall v ensures v in voices <==> exists m :: m in members && voice(m) == v {
      if v in voices {
        var id :| id in keys && keys[id] == v;
        var i :| 0 <= i < |members| && members[i].id == id;
        assert members[i] in members && voice(members[i]) == v;
      }
      if m :| m in members && voice(m) == v { assert m.id in keys && keys[m.id] == v; }
    }
  }

  method AssessFacet(asked: Case, subqId: string, claims: map<string, Claim>, documents: map<string, Document>, naming: Naming, bar: Bar)
    returns (status: FacetStatus)
    requires forall id | id in claims :: claims[id].id == id
    ensures status == SufficientFacet <==>
      && !MustWait(asked, subqId, claims)
      && (forall c | About(asked, c) :: c.status != Contested || c.id in asked.settled)
      && ((exists c :: About(asked, c) && c.hasPrimary && c.bestScore >= bar.primaryScore)
          || |Support(asked, claims, documents, naming)| >= bar.minOrigins)
    ensures status == ContestedFacet <==>
      !MustWait(asked, subqId, claims) && exists c :: About(asked, c) && c.status == Contested && c.id !in asked.settled
  {
    StrongIff(asked, bar);
    BlockedIff(asked);
    AwaitsIff(asked, subqId, claims);
    var members := FacetMembers(asked, claims);
    UniqueMembers(Unique(AllIds(RelevantOnes(asked, asked.clusters))), claims);
    var origins := IndependentVoices(members, documents, naming);
    if members == [] {
      origins := StoredOrigins(RelevantOnes(asked, asked.clusters));
    }
    if AwaitsFreshness(asked, subqId, claims) {
      status := OpenFacet;
    } else if Blocked(asked) {
      status := ContestedFacet;
    } else if Strong(asked, bar) || |origins| >= bar.minOrigins {
      status := SufficientFacet;
    } else {
      status := OpenFacet;
    }
  }

  // However many findings and pages, a facet has no more voices than its members have origins, nor,
  // when all their pages are known, than those pages have publishers.
  lemma SupportIsIndependent(asked: Case, claims: map<string, Claim>, documents: map<string, Document>, naming: Naming)
    requires FacetMembers(asked, claims) != []
    ensures var members := FacetMembers(asked, claims);
      && |Support(asked, claims, documents, naming)| <= |OriginIds(members)|
      && ((forall m | m in members :: HasSite(m, documents)) ==>
            |Support(asked, claims, documents, naming)| <= |SitesOf(members, documents, naming)|)
  {
    var members := FacetMembers(asked, claims);
    var support := Support(asked, claims, documents, naming);
    VoicesWithinOrigins(members, documents, naming, support);
    if forall m | m in members :: HasSite(m, documents) {
      VoicesWithinSites(members, documents, naming, support);
    }
  }

  ghost function VoiceAt(members: seq<Claim>, documents: map<string, Document>, naming: Naming, node: string): string {
    var key := KeyIn(members, documents, naming)(node);
    if key.Some? then key.value else ""
  }

  lemma VoicesWithinOrigins(members: seq<Claim>, documents: map<string, Document>, naming: Naming, voices: set<string>)
    requires voices == set m | m in members :: VoiceIn(members, documents, naming)(m)
    ensures |voices| <= |OriginIds(members)|
  {
    forall v | v in voices ensures exists o :: o in OriginIds(members) && v == VoiceAt(members, documents, naming, "origin:" + o) {
      var m :| m in members && VoiceIn(members, documents, naming)(m) == v;
      assert m.originId in OriginIds(members) && v == VoiceAt(members, documents, naming, Node(m));
    }
    ImageSize(voices, OriginIds(members), (o: string, v) => v == VoiceAt(members, documents, naming, "origin:" + o));
  }

  lemma VoicesWithinSites(members: seq<Claim>, documents: map<string, Document>, naming: Naming, voices: set<string>)
    requires voices == set m | m in members :: VoiceIn(members, documents, naming)(m)
    requires forall m | m in members :: HasSite(m, documents)
    ensures |voices| <= |SitesOf(members, documents, naming)|
  {
    forall v | v in voices ensures exists site :: site in SitesOf(members, documents, naming) && v == VoiceAt(members, documents, naming, site) {
      var m :| m in members && VoiceIn(members, documents, naming)(m) == v;
      var site := SiteNode(naming, documents[m.docId].domain);
      var edges := Published(members, documents, naming);
      OneStep(edges, Node(m), site);
      SameGroupSameNames(Sort(members, ByOrigin), edges, naming, Node(m), site);
      assert site in SitesOf(members, documents, naming) && VoiceAt(members, documents, naming, site) == VoiceAt(members, documents, naming, Node(m));
    }
    ImageSize(voices, SitesOf(members, documents, naming), (site: string, v) => v == VoiceAt(members, documents, naming, site));
  }

  // The same for one finding: what its statistics call support is never more than its origins or publishers.
  lemma ClusterSupportIsIndependent(cluster: Cluster, members: seq<Claim>, documents: map<string, Document>, naming: Naming)
    requires UpToDate(cluster, members, documents, VoiceIn(members, documents, naming))
    ensures |cluster.originIds| <= |OriginIds(members)|
    ensures (forall m | m in members :: HasSite(m, documents)) ==> |cluster.originIds| <= |SitesOf(members, documents, naming)|
  {
    var voice := VoiceIn(members, documents, naming);
    var listed := VoicesOf(members, voice);
    UniqueElements(listed);
    var voices := set m | m in members :: voice(m);
    assert voices == set x | x in listed by {
      forall m | m in members ensures voice(m) in listed {
        var i :| 0 <= i < |members| && members[i] == m;
        assert listed[i] == voice(m);
      }
      forall x | x in listed ensures x in voices {
        var i :| 0 <= i < |listed| && listed[i] == x;
        assert members[i] in members;
      }
    }
    VoicesWithinOrigins(members, documents, naming, voices);
    if forall m | m in members :: HasSite(m, documents) { VoicesWithinSites(members, documents, naming, voices); }
  }
}
