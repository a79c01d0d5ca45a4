/** Claims that state the same fact become one finding; findings keep their id and members from round to round. */
module Clustering {
  import opened Wrappers
  import opened Numeric
  import opened Numbering
  import opened Evidence

  // Text similarity and normalisation, as functions of text. `named` says that an entity normalises to something.
  datatype Likeness = Likeness(
    compatible: (string, string) -> bool, fold: string -> string, withUnit: (string, string) -> string, quantities: string -> seq<Quantity>, named: string -> bool,
    score: (Claim, Claim) -> real, threshold: (Claim, Claim) -> real)

  const CONFLICT := Tolerance(0.02, 0.5, 31)

  function QuantityText(like: Likeness, claim: Claim): string {
    if claim.value != "" then like.withUnit(claim.value, claim.unit) else claim.text
  }

  // Both state a quantity and no reading of one matches the other.
  predicate ValuesConflict(like: Likeness, left: Claim, right: Claim) {
    var a, b := like.quantities(QuantityText(like, left)), like.quantities(QuantityText(like, right));
    a != [] && b != [] && forall i, j | 0 <= i < |a| && 0 <= j < |b| :: !QuantitiesMatch(a[i], b[j], CONFLICT)
  }

  lemma ConflictIsSymmetric(like: Likeness, left: Claim, right: Claim)
    ensures ValuesConflict(like, left, right) <==> ValuesConflict(like, right, left)
  {
    forall a: Quantity, b: Quantity ensures QuantitiesMatch(a, b, CONFLICT) <==> QuantitiesMatch(b, a, CONFLICT) {
      MatchIsSymmetric(a, b, CONFLICT);
    }
  }

  function Folded(like: Likeness, conditions: seq<string>): set<string> {
    set c | c in conditions :: like.fold(c)
  }

  predicate Agrees(like: Likeness, claim: Claim, anchor: Claim) {
    && like.compatible(claim.entity, anchor.entity)
    && Folded(like, claim.conditions) == Folded(like, anchor.conditions)
    && claim.effectiveFrom == anchor.effectiveFrom && claim.effectiveUntil == anchor.effectiveUntil
    && claim.requiresFresh == anchor.requiresFresh
    && !ValuesConflict(like, claim, anchor)
  }

  // Stricter by 0.04 when either side names no entity.
  function Threshold(like: Likeness, claim: Claim, anchor: Claim): real {
    var t := like.threshold(claim, anchor);
    if like.named(claim.entity) && like.named(anchor.entity) then t else if t + 0.04 < 1.0 then t + 0.04 else 1.0
  }

  // --- the same fact, field by field ---

  // The quantities a claim states: in its value with the unit, or in its text if it has none.
  ghost function Readings(like: Likeness, claim: Claim): seq<Quantity> {
    like.quantities(if claim.value == "" then claim.text else like.withUnit(claim.value, claim.unit))
  }

  // No quantity on one side, or some pair that matches within two percent, half a point, a coarser date.
  ghost predicate NoConflict(like: Likeness, claim: Claim, anchor: Claim) {
    || Readings(like, claim) == [] || Readings(like, anchor) == []
    || exists a, b :: a in Readings(like, claim) && b in Readings(like, anchor) && QuantitiesMatch(a, b, Tolerance(0.02, 0.5, 31))
  }

  ghost predicate SameConditions(like: Likeness, claim: Claim, anchor: Claim) {
    && (forall c | c in claim.conditions :: exists d :: d in anchor.conditions && like.fold(d) == like.fold(c))
    && (forall d | d in anchor.conditions :: exists c :: c in claim.conditions && like.fold(c) == like.fold(d))
  }

  ghost predicate SameFact(like: Likeness, claim: Claim, anchor: Claim) {
    && like.compatible(claim.entity, anchor.entity) && SameConditions(like, claim, anchor)
    && claim.effectiveFrom == anchor.effectiveFrom && claim.effectiveUntil == anchor.effectiveUntil
    && claim.requiresFresh == anchor.requiresFresh && NoConflict(like, claim, anchor)
  }

  // Similar at all, and enough: by 0.04 more, up to certainty, unless both name an entity.
  ghost predicate AlikeEnough(like: Likeness, claim: Claim, anchor: Claim) {
    var score, t := like.score(claim, anchor), like.threshold(claim, anchor);
    score > 0.0 && (if like.named(claim.entity) && like.named(anchor.entity) then score >= t else score >= t + 0.04 || score >= 1.0)
  }

  lemma AgreesIff(like: Likeness, claim: Claim, anchor: Claim)
    ensures Agrees(like, claim, anchor) <==> SameFact(like, claim, anchor)
  {
    var a, b := Readings(like, claim), Readings(like, anchor);
    if x, y :| x in a && y in b && QuantitiesMatch(x, y, Tolerance(0.02, 0.5, 31)) {
      var i :| 0 <= i < |a| && a[i] == x;
      var j :| 0 <= j < |b| && b[j] == y;
      assert !ValuesConflict(like, claim, anchor);
    }
    if Folded(like, claim.conditions) == Folded(like, anchor.conditions) {
      forall c | c in claim.conditions ensures exists d :: d in anchor.conditions && like.fold(d) == like.fold(c) {
        assert like.fold(c) in Folded(like, anchor.conditions);
      }
      forall d | d in anchor.conditions ensures exists c :: c in claim.conditions && like.fold(c) == like.fold(d) {
        assert like.fold(d) in Folded(like, claim.conditions);
      }
    }
  }

  lemma AlikeIff(like: Likeness, claim: Claim, anchor: Claim)
    ensures AlikeEnough(like, claim, anchor) <==> like.score(claim, anchor) >= Threshold(like, claim, anchor) && like.score(claim, anchor) > 0.0
  {
  }

  // The finding is about the claim's sub-question, and its first claim states the same fact in similar words.
  ghost predicate Eligible(like: Likeness, cluster: Cluster, anchors: map<string, Claim>, claim: Claim) {
    && cluster.subqId == claim.subqId && cluster.id in anchors
    && SameFact(like, claim, anchors[cluster.id]) && AlikeEnough(like, claim, anchors[cluster.id])
  }

  // The first cluster with the best score.
  ghost predicate Best(like: Likeness, clusters: seq<Cluster>, anchors: map<string, Claim>, claim: Claim, best: Option<nat>) {
    if best.None? then forall k | 0 <= k < |clusters| :: !Eligible(like, clusters[k], anchors, claim)
    else
      && best.value < |clusters| && Eligible(like, clusters[best.value], anchors, claim)
      && forall k | 0 <= k < |clusters| && Eligible(like, clusters[k], anchors, claim) ::
           && like.score(claim, anchors[clusters[k].id]) <= like.score(claim, anchors[clusters[best.value].id])
           && (k < best.value ==> like.score(claim, anchors[clusters[k].id]) < like.score(claim, anchors[clusters[best.value].id]))
  }

  method FindBest(like: Likeness, clusters: seq<Cluster>, anchors: map<string, Claim>, claim: Claim) returns (best: Option<nat>)
    ensures Best(like, clusters, anchors, claim, best)
  {
    best := None;
    var bestScore := 0.0;
    for k := 0 to |clusters|
      invariant Best(like, clusters[..k], anchors, claim, best)
      invariant bestScore == if best.None? then 0.0 else like.score(claim, anchors[clusters[best.value].id])
      invariant bestScore >= 0.0
    {
      var cluster := clusters[k];
      assert clusters[..k + 1] == clusters[..k] + [cluster];
      if cluster.subqId != claim.subqId || cluster.id !in anchors {
        continue;
      }
      var anchor := anchors[cluster.id];
      AgreesIff(like, claim, anchor);
      AlikeIff(like, claim, anchor);
      if !Agrees(like, claim, anchor) {
        continue;
      }
      var score := like.score(claim, anchor);
      if score >= Threshold(like, claim, anchor) && score > bestScore {
        best, bestScore := Some(k), score;
      }
    }
    assert clusters[..|clusters|] == clusters;
  }

  function Ids(clusters: seq<Cluster>): set<string> {
    set k | 0 <= k < |clusters| :: clusters[k].id
  }

  function NewCluster(id: string, claim: Claim): Cluster {
    Cluster(id, claim.subqId, [], [], [], [], claim.text, claim.value, claim.entity, claim.conditions, claim.effectiveFrom, claim.effectiveUntil,
            claim.requiresFresh, 0.0, 0.0, false, SingleSourced)
  }

  function Joined(cluster: Cluster, claim: Claim): Cluster {
    cluster.(claimIds := if claim.id in cluster.claimIds then cluster.claimIds else cluster.claimIds + [claim.id],
             facetIds := if claim.facetId == "" || claim.facetId in cluster.facetIds then cluster.facetIds else cluster.facetIds + [claim.facetId])
  }

  method Place(like: Likeness, clusters: seq<Cluster>, anchors: map<string, Claim>, claim: Claim)
    returns (placed: seq<Cluster>, named: map<string, Claim>, at: nat)
    ensures Placement(like, clusters, anchors, claim, placed, named, at)
  {
    var best := FindBest(like, clusters, anchors, claim);
    if best.Some? {
      at, named := best.value, anchors;
      placed := clusters[best.value := Joined(clusters[best.value], claim)];
    } else {
      var id, n := FreshId('k', |clusters| + 1, Ids(clusters));
      at, named := |clusters|, anchors[id := claim];
      placed := clusters + [Joined(NewCluster(id, claim), claim)];
    }
  }

  ghost predicate Placement(like: Likeness, clusters: seq<Cluster>, anchors: map<string, Claim>, claim: Claim,
                            placed: seq<Cluster>, named: map<string, Claim>, at: nat) {
    || (Best(like, clusters, anchors, claim, Some(at)) && named == anchors && placed == clusters[at := Joined(clusters[at], claim)])
    || (Best(like, clusters, anchors, claim, None) && at == |clusters| && |placed| == at + 1 && placed[at].id !in Ids(clusters)
        && named == anchors[placed[at].id := claim] && placed == clusters + [Joined(NewCluster(placed[at].id, claim), claim)])
  }

  // A claim joins an old finding exactly if it fits one; otherwise it opens a finding of its own.
  lemma PlacementMeans(like: Likeness, clusters: seq<Cluster>, anchors: map<string, Claim>, claim: Claim,
                       placed: seq<Cluster>, named: map<string, Claim>, at: nat)
    requires Placement(like, clusters, anchors, claim, placed, named, at)
    ensures |placed| == |clusters| <==> exists k :: 0 <= k < |clusters| && Eligible(like, clusters[k], anchors, claim)
    ensures at < |placed| && claim.id in placed[at].claimIds && (claim.facetId != "" ==> claim.facetId in placed[at].facetIds)
    ensures |placed| == |clusters| ==>
      && placed == clusters[at := placed[at]] && Eligible(like, clusters[at], anchors, claim) && named == anchors
      && placed[at] == clusters[at].(claimIds := placed[at].claimIds, facetIds := placed[at].facetIds)
      && placed[at].claimIds == clusters[at].claimIds + (if claim.id in clusters[at].claimIds then [] else [claim.id])
      && placed[at].facetIds == clusters[at].facetIds + (if claim.facetId == "" || claim.facetId in clusters[at].facetIds then [] else [claim.facetId])
    ensures |placed| != |clusters| ==>
      && at == |clusters| && placed == clusters + [placed[at]] && named == anchors[placed[at].id := claim]
      && (forall k | 0 <= k < |clusters| :: clusters[k].id != placed[at].id)
      && placed[at].subqId == claim.subqId && placed[at].claimIds == [claim.id] && placed[at].statement == claim.text
      && placed[at].value == claim.value && placed[at].entity == claim.entity && placed[at].conditions == claim.conditions
      && placed[at].effectiveFrom == claim.effectiveFrom && placed[at].effectiveUntil == claim.effectiveUntil
      && placed[at].requiresFresh == claim.requiresFresh && placed[at].facetIds == (if claim.facetId == "" then [] else [claim.facetId])
  {
    forall k | 0 <= k < |clusters| && at == |clusters| ensures clusters[k].id in Ids(clusters) {}
  }

  // --- what clusters keep ---

  // Same finding: everything but the members, the facets and the statistics is as it was, and no member left.
  ghost predicate Continues(was: Cluster, now: Cluster) {
    && now == was.(claimIds := now.claimIds, docIds := now.docIds, originIds := now.originIds, facetIds := now.facetIds,
                   confidence := now.confidence, bestScore := now.bestScore, hasPrimary := now.hasPrimary, status := now.status)
    && was.claimIds <= now.claimIds && was.facetIds <= now.facetIds
  }

  ghost predicate Extends(existing: seq<Cluster>, clusters: seq<Cluster>) {
    |existing| <= |clusters| && forall k | 0 <= k < |existing| :: Continues(existing[k], clusters[k])
  }

  ghost predicate DistinctIds(clusters: seq<Cluster>) {
    forall k, l | 0 <= k < l < |clusters| :: clusters[k].id != clusters[l].id
  }

  // No claim is a member twice.
  ghost predicate Partition(clusters: seq<Cluster>) {
    && (forall k, l | 0 <= k < l < |clusters| :: forall id | id in clusters[k].claimIds :: id !in clusters[l].claimIds)
    && (forall k | 0 <= k < |clusters| :: NoRepeat(clusters[k].claimIds))
  }

  ghost predicate NoRepeat(ids: seq<string>) {
    forall i, j | 0 <= i < j < |ids| :: ids[i] != ids[j]
  }

  ghost predicate Member(clusters: seq<Cluster>, id: string) {
    exists k :: 0 <= k < |clusters| && id in clusters[k].claimIds
  }

  ghost predicate Anchored(clusters: seq<Cluster>, anchors: map<string, Claim>, claims: map<string, Claim>) {
    forall k | 0 <= k < |clusters| ::
      (clusters[k].id in anchors <==> clusters[k].claimIds != [])
      && (clusters[k].claimIds != [] ==> clusters[k].claimIds[0] in claims && anchors[clusters[k].id] == claims[clusters[k].claimIds[0]])
  }

  // Every member is about the cluster's sub-question and states the same fact as the first member, if not as every other.
  ghost predicate MemberFits(like: Likeness, cluster: Cluster, claims: map<string, Claim>, i: nat)
    requires i < |cluster.claimIds|
  {
    && cluster.claimIds[i] in claims && cluster.claimIds[0] in claims && claims[cluster.claimIds[i]].subqId == cluster.subqId
    && (i > 0 ==> SameFact(like, claims[cluster.claimIds[i]], claims[cluster.claimIds[0]]))
  }

  ghost predicate Cohesive(like: Likeness, clusters: seq<Cluster>, claims: map<string, Claim>) {
    forall k, i: nat | 0 <= k < |clusters| && i < |clusters[k].claimIds| :: MemberFits(like, clusters[k], claims, i)
  }

  ghost predicate Sane(like: Likeness, clusters: seq<Cluster>, anchors: map<string, Claim>, claims: map<string, Claim>) {
    Partition(clusters) && Anchored(clusters, anchors, claims) && Cohesive(like, clusters, claims)
  }

  lemma PlacementExtends(like: Likeness, existing: seq<Cluster>, clusters: seq<Cluster>, anchors: map<string, Claim>, claim: Claim,
                         placed: seq<Cluster>, named: map<string, Claim>, at: nat)
    requires Placement(like, clusters, anchors, claim, placed, named, at) && Extends(existing, clusters) && DistinctIds(clusters)
    ensures Extends(existing, placed) && DistinctIds(placed)
  {
    forall k | 0 <= k < |clusters| ensures Continues(clusters[k], placed[k]) && placed[k].id == clusters[k].id {}
    forall k, l | 0 <= k < l < |placed| ensures placed[k].id != placed[l].id {
      if l == |clusters| { assert clusters[k].id in Ids(clusters); }
    }
  }

  lemma PlacementAdds(like: Likeness, clusters: seq<Cluster>, anchors: map<string, Claim>, claim: Claim,
                      placed: seq<Cluster>, named: map<string, Claim>, at: nat, id: string)
    requires Placement(like, clusters, anchors, claim, placed, named, at)
    ensures Member(placed, id) <==> Member(clusters, id) || id == claim.id
  {
    assert claim.id in placed[at].claimIds;
    if k :| 0 <= k < |clusters| && id in clusters[k].claimIds { assert id in placed[k].claimIds; }
    if k :| 0 <= k < |placed| && id in placed[k].claimIds { assert id == claim.id || id in clusters[k].claimIds; }
  }

  lemma PlacementPartitions(like: Likeness, clusters: seq<Cluster>, anchors: map<string, Claim>, claim: Claim,
                            placed: seq<Cluster>, named: map<string, Claim>, at: nat)
    requires Placement(like, clusters, anchors, claim, placed, named, at) && Partition(clusters) && !Member(clusters, claim.id)
    ensures Partition(placed)
  {
    forall k | 0 <= k < |placed|
      ensures NoRepeat(placed[k].claimIds)
      ensures k != at ==> k < |clusters| && placed[k].claimIds == clusters[k].claimIds && claim.id !in placed[k].claimIds
    {
      assert k < |clusters| ==> claim.id !in clusters[k].claimIds;
    }
    forall k, l, id | 0 <= k < l < |placed| && id in placed[k].claimIds ensures id !in placed[l].claimIds {
      if id != claim.id && l < |clusters| { assert id in clusters[k].claimIds && id !in clusters[l].claimIds; }
    }
  }

  lemma PlacementFits(like: Likeness, clusters: seq<Cluster>, anchors: map<string, Claim>, claims: map<string, Claim>, claim: Claim,
                      placed: seq<Cluster>, named: map<string, Claim>, at: nat)
    requires Placement(like, clusters, anchors, claim, placed, named, at) && DistinctIds(clusters) && !Member(clusters, claim.id)
    requires Anchored(clusters, anchors, claims) && Cohesive(like, clusters, claims)
    requires claim.id in claims && claims[claim.id] == claim
    ensures Anchored(placed, named, claims) && Cohesive(like, placed, claims)
  {
    assert at < |clusters| ==> claim.id !in clusters[at].claimIds;
    forall k | 0 <= k < |clusters| && k != at ensures placed[k] == clusters[k] && placed[k].id != placed[at].id {
      if at == |clusters| { assert clusters[k].id in Ids(clusters); }
    }
    forall k, i: nat | 0 <= k < |placed| && i < |placed[k].claimIds| ensures MemberFits(like, placed[k], claims, i) {
      if k != at {
        assert MemberFits(like, clusters[k], claims, i);
      } else if k < |clusters| && i < |clusters[k].claimIds| {
        assert MemberFits(like, clusters[k], claims, i);
      } else if k < |clusters| {
        assert MemberFits(like, clusters[k], claims, 0);
      }
    }
  }

  // --- the whole pass ---

  predicate Missing(existing: seq<Cluster>, claims: map<string, Claim>) {
    exists k, i | 0 <= k < |existing| && 0 <= i < |existing[k].claimIds| :: existing[k].claimIds[i] !in claims
  }

  ghost predicate Fresh(existing: seq<Cluster>, newClaims: seq<Claim>) {
    && (forall i, j | 0 <= i < j < |newClaims| :: newClaims[i].id != newClaims[j].id)
    && (forall i | 0 <= i < |newClaims| :: !Member(existing, newClaims[i].id))
  }

  function Added(claims: map<string, Claim>, newClaims: seq<Claim>): map<string, Claim> {
    if newClaims == [] then claims else Added(claims, newClaims[..|newClaims| - 1])[newClaims[|newClaims| - 1].id := newClaims[|newClaims| - 1]]
  }

  lemma {:induction false} AddedHas(claims: map<string, Claim>, newClaims: seq<Claim>, id: string)
    ensures id in Added(claims, newClaims) <==> id in claims || exists i :: 0 <= i < |newClaims| && newClaims[i].id == id
    ensures (forall i | 0 <= i < |newClaims| :: newClaims[i].id != id) && id in claims ==> Added(claims, newClaims)[id] == claims[id]
    ensures forall i | 0 <= i < |newClaims| && newClaims[i].id == id && (forall j | i < j < |newClaims| :: newClaims[j].id != id) ::
      Added(claims, newClaims)[id] == newClaims[i]
  {
    if newClaims != [] {
      var n := |newClaims| - 1;
      AddedHas(claims, newClaims[..n], id);
      assert newClaims[n].id == id || forall i | 0 <= i < |newClaims| && newClaims[i].id == id :: newClaims[..n][i].id == id;
      if i :| 0 <= i < n && newClaims[..n][i].id == id { assert newClaims[i].id == id; }
      forall i | 0 <= i < |newClaims| && newClaims[i].id == id && (forall j | i < j < |newClaims| :: newClaims[j].id != id)
        ensures Added(claims, newClaims)[id] == newClaims[i]
      {
        if i < n {
          assert newClaims[n].id != id && newClaims[..n][i] == newClaims[i];
          assert forall j | i < j < n :: newClaims[..n][j].id == newClaims[j].id;
        }
      }
    }
  }

  method AnchorsOf(clusters: seq<Cluster>, claims: map<string, Claim>) returns (anchors: map<string, Claim>)
    requires DistinctIds(clusters) && !Missing(clusters, claims)
    ensures Anchored(clusters, anchors, claims)
  {
    anchors := map[];
    for k := 0 to |clusters|
      invariant Anchored(clusters[..k], anchors, claims)
      invariant forall id | id in anchors :: id in Ids(clusters[..k])
    {
      assert clusters[..k + 1] == clusters[..k] + [clusters[k]];
      if clusters[k].claimIds != [] && clusters[k].claimIds[0] in claims {
        anchors := anchors[clusters[k].id := claims[clusters[k].claimIds[0]]];
      }
    }
    assert clusters[..|clusters|] == clusters;
  }

  ghost predicate Named(done: seq<Claim>, id: string) {
    exists i :: 0 <= i < |done| && done[i].id == id
  }

  // Old findings continue, and the members are the old ones and the new claims.
  ghost predicate Reached(existing: seq<Cluster>, done: seq<Claim>, clusters: seq<Cluster>) {
    Extends(existing, clusters) && DistinctIds(clusters) && forall id :: Member(clusters, id) <==> Member(existing, id) || Named(done, id)
  }

  lemma ReachedNext(like: Likeness, existing: seq<Cluster>, done: seq<Claim>, clusters: seq<Cluster>, anchors: map<string, Claim>, claim: Claim,
                    placed: seq<Cluster>, named: map<string, Claim>, at: nat)
    requires Reached(existing, done, clusters) && Placement(like, clusters, anchors, claim, placed, named, at)
    ensures Reached(existing, done + [claim], placed)
  {
    PlacementExtends(like, existing, clusters, anchors, claim, placed, named, at);
    forall id ensures Member(placed, id) <==> Member(clusters, id) || id == claim.id {
      PlacementAdds(like, clusters, anchors, claim, placed, named, at, id);
    }
    forall id ensures Named(done + [claim], id) <==> Named(done, id) || id == claim.id {
      if i :| 0 <= i < |done| && done[i].id == id { assert (done + [claim])[i].id == id; }
      assert (done + [claim])[|done|] == claim;
    }
  }

  lemma SaneNext(like: Likeness, existing: seq<Cluster>, newClaims: seq<Claim>, n: nat, clusters: seq<Cluster>, anchors: map<string, Claim>,
                 allClaims: map<string, Claim>, placed: seq<Cluster>, named: map<string, Claim>, at: nat)
    requires n < |newClaims| && Fresh(existing, newClaims) && Reached(existing, newClaims[..n], clusters)
    requires Sane(like, clusters, anchors, Added(allClaims, newClaims))
    requires Placement(like, clusters, anchors, newClaims[n], placed, named, at)
    ensures Sane(like, placed, named, Added(allClaims, newClaims))
  {
    AddedHas(allClaims, newClaims, newClaims[n].id);
    assert !Named(newClaims[..n], newClaims[n].id);
    PlacementPartitions(like, clusters, anchors, newClaims[n], placed, named, at);
    PlacementFits(like, clusters, anchors, Added(allClaims, newClaims), newClaims[n], placed, named, at);
  }

  ghost predicate Trusted(like: Likeness, existing: seq<Cluster>, newClaims: seq<Claim>, allClaims: map<string, Claim>) {
    Fresh(existing, newClaims) && Partition(existing) && Cohesive(like, existing, allClaims)
  }

  lemma StartsReached(existing: seq<Cluster>)
    requires DistinctIds(existing)
    ensures Reached(existing, [], existing)
  {
  }

  lemma StartsSane(like: Likeness, existing: seq<Cluster>, newClaims: seq<Claim>, allClaims: map<string, Claim>, start: map<string, Claim>)
    requires Trusted(like, existing, newClaims, allClaims) && Anchored(existing, start, Added(allClaims, newClaims))
    ensures Sane(like, existing, start, Added(allClaims, newClaims))
  {
    OldClaimsStay(like, existing, newClaims, allClaims);
  }

  // Where the pass stands after the first `n` new claims.
  ghost predicate Midway(like: Likeness, existing: seq<Cluster>, newClaims: seq<Claim>, n: nat, allClaims: map<string, Claim>,
                         clusters: seq<Cluster>, anchors: map<string, Claim>)
    requires n <= |newClaims|
  {
    && Reached(existing, newClaims[..n], clusters)
    && (Trusted(like, existing, newClaims, allClaims) ==> Sane(like, clusters, anchors, Added(allClaims, newClaims)))
  }

  lemma ReachedAt(like: Likeness, existing: seq<Cluster>, newClaims: seq<Claim>, n: nat, clusters: seq<Cluster>, anchors: map<string, Claim>,
                  placed: seq<Cluster>, named: map<string, Claim>, at: nat)
    requires n < |newClaims| && Reached(existing, newClaims[..n], clusters) && Placement(like, clusters, anchors, newClaims[n], placed, named, at)
    ensures Reached(existing, newClaims[..n + 1], placed)
  {
    assert newClaims[..n + 1] == newClaims[..n] + [newClaims[n]];
    ReachedNext(like, existing, newClaims[..n], clusters, anchors, newClaims[n], placed, named, at);
  }

  lemma MidwayNext(like: Likeness, existing: seq<Cluster>, newClaims: seq<Claim>, n: nat, allClaims: map<string, Claim>,
                   clusters: seq<Cluster>, anchors: map<string, Claim>, placed: seq<Cluster>, named: map<string, Claim>, at: nat)
    requires n < |newClaims| && Midway(like, existing, newClaims, n, allClaims, clusters, anchors)
    requires Placement(like, clusters, anchors, newClaims[n], placed, named, at)
    ensures Midway(like, existing, newClaims, n + 1, allClaims, placed, named)
  {
    ReachedAt(like, existing, newClaims, n, clusters, anchors, placed, named, at);
    if Trusted(like, existing, newClaims, allClaims) {
      SaneNext(like, existing, newClaims, n, clusters, anchors, allClaims, placed, named, at);
    }
  }

  lemma MidwayStart(like: Likeness, existing: seq<Cluster>, newClaims: seq<Claim>, allClaims: map<string, Claim>, start: map<string, Claim>)
    requires DistinctIds(existing) && Anchored(existing, start, Added(allClaims, newClaims))
    ensures Midway(like, existing, newClaims, 0, allClaims, existing, start)
  {
    assert newClaims[..0] == [];
    StartsReached(existing);
    if Trusted(like, existing, newClaims, allClaims) { StartsSane(like, existing, newClaims, allClaims, start); }
  }

  // The findings, and the first claim of each, as one new claim after the other is placed.
  datatype Stage = Stage(clusters: seq<Cluster>, anchors: map<string, Claim>)

  ghost predicate PlacedNext(like: Likeness, before: Stage, claim: Claim, after: Stage) {
    exists at: nat :: Placement(like, before.clusters, before.anchors, claim, after.clusters, after.anchors, at)
  }

  ghost predicate Stages(like: Likeness, existing: seq<Cluster>, newClaims: seq<Claim>, claims: map<string, Claim>, stages: seq<Stage>) {
    && |stages| == |newClaims| + 1 && stages[0].clusters == existing && Anchored(existing, stages[0].anchors, claims)
    && forall n | 0 <= n < |newClaims| :: PlacedNext(like, stages[n], newClaims[n], stages[n + 1])
  }

  lemma StagesGrow(like: Likeness, existing: seq<Cluster>, done: seq<Claim>, claim: Claim, claims: map<string, Claim>, stages: seq<Stage>, next: Stage)
    requires Stages(like, existing, done, claims, stages) && PlacedNext(like, stages[|done|], claim, next)
    ensures Stages(like, existing, done + [claim], claims, stages + [next])
  {
    var longer, all := stages + [next], done + [claim];
    forall n | 0 <= n < |all| ensures PlacedNext(like, longer[n], all[n], longer[n + 1]) {
      if n < |done| { assert longer[n] == stages[n] && longer[n + 1] == stages[n + 1] && all[n] == done[n]; }
    }
  }

  ghost predicate Gone(like: Likeness, existing: seq<Cluster>, newClaims: seq<Claim>, n: nat, claims: map<string, Claim>, stages: seq<Stage>)
    requires n <= |newClaims|
  {
    Stages(like, existing, newClaims[..n], claims, stages)
  }

  lemma GoesOn(like: Likeness, existing: seq<Cluster>, newClaims: seq<Claim>, n: nat, claims: map<string, Claim>, stages: seq<Stage>, next: Stage)
    requires n < |newClaims| && Gone(like, existing, newClaims, n, claims, stages) && PlacedNext(like, stages[n], newClaims[n], next)
    ensures Gone(like, existing, newClaims, n + 1, claims, stages + [next])
  {
    assert newClaims[..n + 1] == newClaims[..n] + [newClaims[n]];
    StagesGrow(like, existing, newClaims[..n], newClaims[n], claims, stages, next);
  }

  method PlaceAll(like: Likeness, existing: seq<Cluster>, newClaims: seq<Claim>, ghost allClaims: map<string, Claim>, start: map<string, Claim>)
    returns (clusters: seq<Cluster>, anchors: map<string, Claim>, ghost stages: seq<Stage>)
    requires DistinctIds(existing) && Anchored(existing, start, Added(allClaims, newClaims))
    ensures Midway(like, existing, newClaims, |newClaims|, allClaims, clusters, anchors)
    ensures Stages(like, existing, newClaims, Added(allClaims, newClaims), stages) && stages[|newClaims|].clusters == clusters
  {
    clusters := existing;
    var named := start;
    stages := [Stage(existing, start)];
    MidwayStart(like, existing, newClaims, allClaims, start);
    for n := 0 to |newClaims|
      invariant Midway(like, existing, newClaims, n, allClaims, clusters, named)
      invariant |stages| == n + 1 && stages[n] == Stage(clusters, named) && Gone(like, existing, newClaims, n, Added(allClaims, newClaims), stages)
    {
      var placed, more, at := Place(like, clusters, named, newClaims[n]);
      MidwayNext(like, existing, newClaims, n, allClaims, clusters, named, placed, more, at);
      GoesOn(like, existing, newClaims, n, Added(allClaims, newClaims), stages, Stage(placed, more));
      stages := stages + [Stage(placed, more)];
      clusters, named := placed, more;
    }
    assert newClaims[..|newClaims|] == newClaims;
    anchors := named;
  }

  // The members before the statistics are refreshed; None when a member's claim is missing.
  method AssignClaims(like: Likeness, existing: seq<Cluster>, newClaims: seq<Claim>, allClaims: map<string, Claim>)
    returns (r: Option<seq<Cluster>>, claims: map<string, Claim>, ghost stages: seq<Stage>)
    requires DistinctIds(existing)
    ensures r.Some? ==> Stages(like, existing, newClaims, claims, stages) && stages[|newClaims|].clusters == r.value
    ensures r.None? <==> Missing(existing, allClaims)
    ensures claims == Added(allClaims, newClaims)
    ensures r.Some? ==> Reached(existing, newClaims, r.value)
    ensures r.Some? && Trusted(like, existing, newClaims, allClaims) ==> Partition(r.value) && Cohesive(like, r.value, claims)
  {
    claims, stages := Added(allClaims, newClaims), [];
    if Missing(existing, allClaims) {
      r := None;
      return;
    }
    forall id ensures id in allClaims ==> id in claims { AddedHas(allClaims, newClaims, id); }
    var anchors := AnchorsOf(existing, claims);
    var clusters, last;
    clusters, last, stages := PlaceAll(like, existing, newClaims, allClaims, anchors);
    assert newClaims[..|newClaims|] == newClaims;
    r := Some(clusters);
  }

  lemma OldClaimsStay(like: Likeness, existing: seq<Cluster>, newClaims: seq<Claim>, allClaims: map<string, Claim>)
    requires Fresh(existing, newClaims) && Cohesive(like, existing, allClaims)
    ensures Cohesive(like, existing, Added(allClaims, newClaims))
  {
    var claims := Added(allClaims, newClaims);
    forall k, i: nat | 0 <= k < |existing| && i < |existing[k].claimIds|
      ensures MemberFits(like, existing[k], claims, i)
    {
      var ids := existing[k].claimIds;
      assert MemberFits(like, existing[k], allClaims, i);
      forall id | id in {ids[i], ids[0]} ensures id in claims && claims[id] == allClaims[id] {
        assert Member(existing, id);
        AddedHas(allClaims, newClaims, id);
      }
    }
  }
}
