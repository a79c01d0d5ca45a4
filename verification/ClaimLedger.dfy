/**
 The claim ledger over a whole run: batches of extracted claims are validated and recorded, then copies
 are merged and evidence is clustered. The model's replies are arbitrary throughout.
 */
module ClaimLedger {
  import opened Wrappers
  import opened Numbering
  import opened Evidence
  import opened Origins
  import opened Verdicts
  import opened Validation
  import opened Syndication
  import opened Clustering
  import opened Corroboration

  // --- admission of what the model extracted from one page ---

  datatype Page = Page(docId: string, originId: string, subqs: seq<string>)

  // `facets` maps each sub-question to its facets; `injected` and `quoted` inspect the texts, `trim` strips them.
  datatype Admission = Admission(facets: map<string, set<string>>, injected: string -> bool, quoted: string -> bool, trim: string -> string)

  function Candidate(rules: Admission, page: Page, item: Claim): Claim
    requires page.subqs != [] && page.subqs[0] in rules.facets
  {
    var subq := if item.subqId in rules.facets then item.subqId else page.subqs[0];
    item.(id := "", text := rules.trim(item.text), quote := rules.trim(item.quote), docId := page.docId, originId := page.originId, subqId := subq,
          facetId := if item.facetId in rules.facets[subq] then item.facetId else "", requiresFresh := false, validation := Legacy)
  }

  // The accepted items as candidates, in order.
  ghost function Candidates(rules: Admission, page: Page, items: seq<Claim>): seq<Claim>
    requires page.subqs != [] && page.subqs[0] in rules.facets
  {
    if items == [] then []
    else
      var last := items[|items| - 1];
      Candidates(rules, page, items[..|items| - 1])
      + if rules.quoted(last.quote) && !rules.injected(last.quote) && !rules.injected(last.text) then [Candidate(rules, page, last)] else []
  }

  // A candidate is the item about the page it came from, under a sub-question and facet of the plan.
  lemma CandidateMeans(rules: Admission, page: Page, item: Claim)
    requires page.subqs != [] && page.subqs[0] in rules.facets
    ensures var c := Candidate(rules, page, item);
      && c.docId == page.docId && c.originId == page.originId && c.text == rules.trim(item.text) && c.quote == rules.trim(item.quote)
      && c.subqId in rules.facets && (c.facetId == "" || c.facetId in rules.facets[c.subqId])
      && (item.subqId in rules.facets ==> c.subqId == item.subqId) && (item.subqId !in rules.facets ==> c.subqId == page.subqs[0])
      && (item.facetId in rules.facets[c.subqId] ==> c.facetId == item.facetId)
      && c.value == item.value && c.unit == item.unit && c.entity == item.entity && c.conditions == item.conditions
      && c.validation == Legacy && !c.requiresFresh
  {
  }

  // Accepted items become candidates of the page, in order; of the others, those addressed to the model
  // and those whose quote is not on the page are counted apart.
  method AdmitItems(rules: Admission, page: Page, items: seq<Claim>) returns (accepted: seq<Claim>, rejected: nat, injected: nat)
    requires page.subqs != [] && page.subqs[0] in rules.facets
    ensures accepted == Candidates(rules, page, items)
    ensures injected == Addressed(rules, items)
    ensures |accepted| + rejected + injected == |items|
  {
    accepted, rejected, injected := [], 0, 0;
    assert items[..0] == [] && items[..|items|] == items;
    for i := 0 to |items|
      invariant accepted == Candidates(rules, page, items[..i])
      invariant injected == Addressed(rules, items[..i])
      invariant |accepted| + rejected + injected == i
    {
      CandidatesNext(rules, page, items, i);
      if rules.injected(items[i].quote) || rules.injected(items[i].text) {
        injected := injected + 1;
      } else if !rules.quoted(items[i].quote) {
        rejected := rejected + 1;
      } else {
        accepted := accepted + [Candidate(rules, page, items[i])];
      }
    }
    assert items[..|items|] == items;
  }

  ghost predicate SpeaksToModel(rules: Admission, item: Claim) {
    rules.injected(item.quote) || rules.injected(item.text)
  }

  // How many of the items speak to the model.
  ghost function Addressed(rules: Admission, items: seq<Claim>): nat {
    |set i | 0 <= i < |items| && SpeaksToModel(rules, items[i])|
  }

  lemma AddressedNext(rules: Admission, items: seq<Claim>, item: Claim)
    ensures Addressed(rules, []) == 0
    ensures Addressed(rules, items + [item]) == Addressed(rules, items) + if SpeaksToModel(rules, item) then 1 else 0
  {
    var n, all := |items|, items + [item];
    var was := set i | 0 <= i < n && SpeaksToModel(rules, items[i]);
    var now := set i | 0 <= i < n + 1 && SpeaksToModel(rules, all[i]);
    assert n !in was;
    if SpeaksToModel(rules, item) { assert now == was + {n}; } else { assert now == was; }
  }

  lemma CandidatesNext(rules: Admission, page: Page, items: seq<Claim>, i: nat)
    requires page.subqs != [] && page.subqs[0] in rules.facets && i < |items|
    ensures Candidates(rules, page, items[..i + 1]) == Candidates(rules, page, items[..i])
      + if rules.quoted(items[i].quote) && !SpeaksToModel(rules, items[i]) then [Candidate(rules, page, items[i])] else []
    ensures Addressed(rules, items[..i + 1]) == Addressed(rules, items[..i]) + if SpeaksToModel(rules, items[i]) then 1 else 0
  {
    assert items[..i + 1] == items[..i] + [items[i]] && items[..i + 1][..i] == items[..i];
    AddressedNext(rules, items[..i], items[i]);
  }

  // Nothing addressed to the model and nothing unquoted is ever a candidate; everything else is.
  lemma {:induction false} CandidatesAre(rules: Admission, page: Page, items: seq<Claim>, c: Claim)
    requires page.subqs != [] && page.subqs[0] in rules.facets
    ensures c in Candidates(rules, page, items) <==>
      exists item :: item in items && !rules.injected(item.quote) && !rules.injected(item.text) && rules.quoted(item.quote) && c == Candidate(rules, page, item)
  {
    if items != [] {
      CandidatesAre(rules, page, items[..|items| - 1], c);
      assert items == items[..|items| - 1] + [items[|items| - 1]];
    }
  }

  // --- the claims in play ---

  ghost predicate InSequence(claims: seq<Claim>) {
    forall i | 0 <= i < |claims| :: claims[i].id == Numbered('c', i + 1)
  }

  ghost predicate Apart(claims: seq<Claim>) {
    forall i, j | 0 <= i < j < |claims| :: claims[i].id != claims[j].id
  }

  lemma IdsDiffer(claims: seq<Claim>)
    requires InSequence(claims)
    ensures Apart(claims)
  {
    forall i, j | 0 <= i < j < |claims| ensures claims[i].id != claims[j].id {
      if claims[i].id == claims[j].id { NumberedIsInjective('c', i + 1, j + 1); }
    }
  }

  function ById(claims: seq<Claim>): map<string, Claim> {
    Added(map[], claims)
  }

  lemma ByIdHas(claims: seq<Claim>)
    requires InSequence(claims)
    ensures forall i | 0 <= i < |claims| :: claims[i].id in ById(claims) && ById(claims)[claims[i].id] == claims[i]
    ensures forall id | id in ById(claims) :: ById(claims)[id].id == id && ById(claims)[id] in claims
  {
    IdsDiffer(claims);
    AddedByIds(map[], claims);
    forall i | 0 <= i < |claims| ensures claims[i].id in ById(claims) && ById(claims)[claims[i].id] == claims[i] {
      AddedHas(map[], claims, claims[i].id);
    }
    forall id | id in ById(claims) ensures ById(claims)[id] in claims {
      AddedHas(map[], claims, id);
      var i :| 0 <= i < |claims| && claims[i].id == id;
    }
  }

  predicate Evidential(claim: Claim) {
    claim.validation == Affirmed || claim.validation == Legacy
  }

  // Evidence that no finding holds yet, in order.
  function Unclustered(claims: seq<Claim>, clustered: set<string>): seq<Claim> {
    if claims == [] then []
    else
      var last := claims[|claims| - 1];
      Unclustered(claims[..|claims| - 1], clustered) + if last.id !in clustered && Evidential(last) then [last] else []
  }

  lemma {:induction false} UnclusteredMembers(claims: seq<Claim>, clustered: set<string>)
    ensures forall c :: c in Unclustered(claims, clustered) <==> c in claims && c.id !in clustered && Evidential(c)
  {
    if claims != [] {
      UnclusteredMembers(claims[..|claims| - 1], clustered);
      assert claims == claims[..|claims| - 1] + [claims[|claims| - 1]];
    }
  }

  lemma {:induction false} UnclusteredInOrder(some: seq<Claim>, others: seq<Claim>, clustered: set<string>)
    ensures Unclustered(some + others, clustered) == Unclustered(some, clustered) + Unclustered(others, clustered)
  {
    if others == [] {
      assert some + others == some;
    } else {
      UnclusteredInOrder(some, others[..|others| - 1], clustered);
      assert (some + others)[..|some + others| - 1] == some + others[..|others| - 1];
    }
  }

  lemma {:induction false} UnclusteredIdsDiffer(claims: seq<Claim>, clustered: set<string>)
    requires Apart(claims)
    ensures Apart(Unclustered(claims, clustered))
  {
    if claims != [] {
      var front, last := claims[..|claims| - 1], claims[|claims| - 1];
      UnclusteredIdsDiffer(front, clustered);
      UnclusteredMembers(front, clustered);
      forall c | c in Unclustered(front, clustered) ensures c.id != last.id {
        var i :| 0 <= i < |front| && front[i] == c;
        assert claims[i] == c;
      }
      AppendDiffers(Unclustered(front, clustered), last);
      var was := Unclustered(front, clustered);
      assert Unclustered(claims, clustered) == was || Unclustered(claims, clustered) == was + [last];
    }
  }

  lemma AppendDiffers(was: seq<Claim>, last: Claim)
    requires Apart(was) && forall c | c in was :: c.id != last.id
    ensures Apart(was + [last])
  {
    var r := was + [last];
    forall i, j | 0 <= i < j < |r| ensures r[i].id != r[j].id { assert r[i] in was; }
  }

  function Clustered(clusters: seq<Cluster>): set<string> {
    set k, id | 0 <= k < |clusters| && id in clusters[k].claimIds :: id
  }

  lemma {:induction false} AddedAgain(claims: map<string, Claim>, more: seq<Claim>)
    requires forall c | c in more :: c.id in claims && claims[c.id] == c
    ensures Added(claims, more) == claims
  {
    if more != [] { AddedAgain(claims, more[..|more| - 1]); }
  }

  // --- what vouches for a claim ---

  datatype Voucher = Voucher(check: Scrutiny, draft: Claim, key: string, replies: seq<Reply<string, Opinion>>)

  ghost predicate Vouched(v: Voucher, claim: Claim) {
    claim == Judged(v.check, v.draft, Settled(v.replies, v.key)).(id := claim.id, originId := claim.originId)
  }

  // One affirmative verdict about the draft, the scope represented, legal authority present.
  ghost predicate Earned(v: Voucher) {
    AffirmedOnce(v.replies, v.key) && !OutOfScope(v.check, v.draft) && !v.check.gap(Judged(v.check, v.draft, Settled(v.replies, v.key)))
  }

  lemma NeverLegacy(check: Scrutiny, draft: Claim, opinion: Option<Opinion>)
    ensures Judged(check, draft, opinion).validation != Legacy
  {
  }

  lemma EvidenceIsEarned(v: Voucher, claim: Claim)
    requires Vouched(v, claim) && Evidential(claim)
    ensures Earned(v) && claim.validation == Affirmed
  {
    var judged := Judged(v.check, v.draft, Settled(v.replies, v.key));
    NeverLegacy(v.check, v.draft, Settled(v.replies, v.key));
    assert judged.validation == claim.validation;
    FailClosed(v.check, v.draft, v.replies, v.key);
  }

  ghost predicate AllVouched(claims: seq<Claim>, vouchers: seq<Voucher>) {
    |vouchers| == |claims| && forall i | 0 <= i < |claims| :: Vouched(vouchers[i], claims[i])
  }

  // Every member of a finding is a recorded claim that counts as evidence.
  ghost predicate Grounded(clusters: seq<Cluster>, claims: map<string, Claim>) {
    forall id | Member(clusters, id) :: id in claims && Evidential(claims[id])
  }

  ghost predicate Sound(like: Likeness, clusters: seq<Cluster>, claims: seq<Claim>) {
    && InSequence(claims) && DistinctIds(clusters) && Partition(clusters)
    && Cohesive(like, clusters, ById(claims)) && Grounded(clusters, ById(claims))
  }

  // Claims that differ at most in their origin leave the findings sound.
  lemma OriginsDoNotMatter(like: Likeness, clusters: seq<Cluster>, claims: seq<Claim>, moved: seq<Claim>)
    requires Sound(like, clusters, claims) && |claims| <= |moved| && InSequence(moved)
    requires forall i | 0 <= i < |claims| :: moved[i] == claims[i].(originId := moved[i].originId)
    ensures Sound(like, clusters, moved)
  {
    ByIdHas(claims);
    ByIdHas(moved);
    forall id | id in ById(claims)
      ensures id in ById(moved) && ById(moved)[id] == ById(claims)[id].(originId := ById(moved)[id].originId)
    {
      var i :| 0 <= i < |claims| && claims[i] == ById(claims)[id];
      assert moved[i].id == id;
    }
    forall k, i: nat | 0 <= k < |clusters| && i < |clusters[k].claimIds| ensures MemberFits(like, clusters[k], ById(moved), i) {
      assert MemberFits(like, clusters[k], ById(claims), i);
    }
  }

  // --- the state of a run ---

  datatype Books = Books(documents: map<string, Document>, claims: seq<Claim>, clusters: seq<Cluster>)

  // The evidence no finding holds is placed claim by claim, and all statistics are recomputed.
  ghost predicate Regrouped(like: Likeness, naming: Naming, clusters: seq<Cluster>, now: Books) {
    var more := Unclustered(now.claims, Clustered(clusters));
    AllUpToDate(now.clusters, ById(now.claims), now.documents, naming)
    && exists stages: seq<Stage> :: Stages(like, clusters, more, ById(now.claims), stages) && Restated(stages[|more|].clusters, now.clusters)
  }

  // Without new evidence nothing happens; otherwise copies are merged first.
  ghost predicate Corroborated(like: Likeness, naming: Naming, quoting: Quoting, was: Books, now: Books) {
    if forall c | c in was.claims && Evidential(c) :: Member(was.clusters, c.id) then now == was
    else
      && (exists moved :: Merged(quoting, was.documents, was.claims, moved, now.documents, now.claims))
      && Regrouped(like, naming, was.clusters, now)
  }

  class Ledger {
    const library: Library
    var clusters: seq<Cluster>
    ghost var vouchers: seq<Voucher>

    ghost predicate Valid(like: Likeness)
      reads this, library
    {
      AllVouched(library.claims, vouchers) && Sound(like, clusters, library.claims)
    }

    constructor (like: Likeness, documents: map<string, Document>)
      ensures Valid(like) && fresh(library) && library.documents == documents && library.claims == [] && clusters == []
    {
      library := new Library(documents, []);
      clusters, vouchers := [], [];
    }

    ghost function Contents(): Books
      reads this, library
    {
      Books(library.documents, library.claims, clusters)
    }

    // Validates the candidates of one page and records them all, whatever their verdict.
    method Record(like: Likeness, candidates: seq<Claim>, check: Scrutiny, replies: seq<Reply<string, Opinion>>)
      requires Valid(like) && |replies| == 2
      modifies this, library
      ensures Valid(like) && clusters == old(clusters) && library.documents == old(library.documents)
      ensures Recorded(old(library.claims), library.claims, candidates, check, replies)
    {
      library.claims, vouchers := RecordBatch(like, clusters, library.claims, vouchers, candidates, check, replies);
    }

    // Merges copies, then clusters the evidence no finding holds yet.
    method Corroborate(like: Likeness, naming: Naming, quoting: Quoting)
      requires Valid(like)
      modifies this, library
      ensures Valid(like)
      ensures |library.claims| == |old(library.claims)|
      ensures forall i | 0 <= i < |library.claims| :: library.claims[i] == old(library.claims[i]).(originId := library.claims[i].originId)
      ensures Extends(old(clusters), clusters)
      ensures forall i | 0 <= i < |library.claims| && Evidential(library.claims[i]) :: Member(clusters, library.claims[i].id)
      ensures Corroborated(like, naming, quoting, old(Contents()), Contents())
    {
      var evidence := Unclustered(library.claims, Clustered(clusters));
      if evidence == [] {
        NothingNew(library.claims, clusters);
        return;
      }
      ghost var was := Contents();
      var moved := MergeCopies(like, quoting);
      ClusterRest(like, naming);
      AfterMerge(like, naming, quoting, moved, was, Contents());
    }

    method MergeCopies(like: Likeness, quoting: Quoting) returns (moved: map<string, string>)
      requires Valid(like)
      modifies library
      ensures Valid(like)
      ensures Merged(quoting, old(library.documents), old(library.claims), moved, library.documents, library.claims)
    {
      ghost var was := library.claims;
      moved := library.MergeSyndicatedOrigins(quoting);
      OriginsDoNotMatter(like, clusters, was, library.claims);
    }

    method ClusterRest(like: Likeness, naming: Naming)
      requires Valid(like)
      modifies this`clusters
      ensures Valid(like) && Extends(old(clusters), clusters) && Regrouped(like, naming, old(clusters), Contents())
      ensures forall i | 0 <= i < |library.claims| && Evidential(library.claims[i]) :: Member(clusters, library.claims[i].id)
    {
      clusters := ClusterEvidence(like, naming, clusters, library.documents, library.claims);
    }
  }

  lemma AfterMerge(like: Likeness, naming: Naming, quoting: Quoting, moved: map<string, string>, was: Books, now: Books)
    requires Unclustered(was.claims, Clustered(was.clusters)) != []
    requires Merged(quoting, was.documents, was.claims, moved, now.documents, now.claims) && Regrouped(like, naming, was.clusters, now)
    ensures Corroborated(like, naming, quoting, was, now)
  {
    NothingNew(was.claims, was.clusters);
  }

  lemma NothingNew(claims: seq<Claim>, clusters: seq<Cluster>)
    ensures Unclustered(claims, Clustered(clusters)) == [] <==> forall c | c in claims && Evidential(c) :: Member(clusters, c.id)
  {
    UnclusteredMembers(claims, Clustered(clusters));
    var some := Unclustered(claims, Clustered(clusters));
    if some != [] { assert some[0] in some; }
  }

  // --- one step of the run ---

  ghost predicate Recorded(claims: seq<Claim>, all: seq<Claim>, candidates: seq<Claim>, check: Scrutiny, replies: seq<Reply<string, Opinion>>) {
    && |all| == |claims| + |candidates| && claims <= all
    && forall i | 0 <= i < |candidates| ::
         all[|claims| + i] == Judged(check, candidates[i], Settled(replies, CandidateKey(i))).(id := Numbered('c', |claims| + i + 1))
  }

  method RecordBatch(like: Likeness, ghost clusters: seq<Cluster>, claims: seq<Claim>, ghost vouchers: seq<Voucher>, candidates: seq<Claim>, check: Scrutiny,
                     replies: seq<Reply<string, Opinion>>) returns (all: seq<Claim>, ghost vouched: seq<Voucher>)
    requires |replies| == 2 && AllVouched(claims, vouchers) && Sound(like, clusters, claims)
    ensures AllVouched(all, vouched) && Sound(like, clusters, all) && Recorded(claims, all, candidates, check, replies)
  {
    ghost var drafts: seq<Voucher>;
    all, drafts := JudgeBatch(claims, candidates, check, replies);
    AppendVouched(like, clusters, claims, all, vouchers, drafts);
    vouched := vouchers + drafts;
  }

  method JudgeBatch(claims: seq<Claim>, candidates: seq<Claim>, check: Scrutiny, replies: seq<Reply<string, Opinion>>)
    returns (all: seq<Claim>, ghost drafts: seq<Voucher>)
    requires |replies| == 2
    ensures |drafts| == |candidates| && Recorded(claims, all, candidates, check, replies)
    ensures forall i | 0 <= i < |drafts| :: Vouched(drafts[i], all[|claims| + i]) && all[|claims| + i].id == Numbered('c', |claims| + i + 1)
  {
    var judged := new Claim[|candidates|](i requires 0 <= i < |candidates| => candidates[i]);
    ValidateClaims(judged, check, replies);
    all := Renumbered(claims, judged[..]);
    drafts := seq(|candidates|, i requires 0 <= i < |candidates| => Voucher(check, candidates[i], CandidateKey(i), replies));
    forall i | 0 <= i < |drafts|
      ensures Vouched(drafts[i], all[|claims| + i]) && all[|claims| + i].id == Numbered('c', |claims| + i + 1)
    {
      RenumberedIsVouched(drafts[i], judged[i], all[|claims| + i].id);
    }
  }

  lemma RenumberedIsVouched(v: Voucher, judged: Claim, id: string)
    requires judged == Judged(v.check, v.draft, Settled(v.replies, v.key))
    ensures Vouched(v, judged.(id := id))
  {
  }

  method Renumbered(claims: seq<Claim>, more: seq<Claim>) returns (all: seq<Claim>)
    ensures |all| == |claims| + |more| && claims <= all
    ensures forall i | 0 <= i < |more| :: all[|claims| + i] == more[i].(id := Numbered('c', |claims| + i + 1))
  {
    all := claims;
    for i := 0 to |more|
      invariant |all| == |claims| + i && claims <= all
      invariant forall k | 0 <= k < i :: all[|claims| + k] == more[k].(id := Numbered('c', |claims| + k + 1))
    {
      all := all + [more[i].(id := Numbered('c', |all| + 1))];
    }
  }

  lemma AppendVouched(like: Likeness, clusters: seq<Cluster>, claims: seq<Claim>, all: seq<Claim>, vouchers: seq<Voucher>, drafts: seq<Voucher>)
    requires AllVouched(claims, vouchers) && Sound(like, clusters, claims)
    requires |all| == |claims| + |drafts| && claims <= all
    requires forall i | 0 <= i < |drafts| :: Vouched(drafts[i], all[|claims| + i]) && all[|claims| + i].id == Numbered('c', |claims| + i + 1)
    ensures AllVouched(all, vouchers + drafts) && Sound(like, clusters, all)
  {
    forall i | 0 <= i < |all| ensures all[i].id == Numbered('c', i + 1) && Vouched((vouchers + drafts)[i], all[i]) {
      if i < |claims| {
        assert all[i] == claims[i] && (vouchers + drafts)[i] == vouchers[i];
      } else {
        assert all[i] == all[|claims| + (i - |claims|)] && (vouchers + drafts)[i] == drafts[i - |claims|];
      }
    }
    OriginsDoNotMatter(like, clusters, claims, all);
  }

  method ClusterEvidence(like: Likeness, naming: Naming, clusters: seq<Cluster>, documents: map<string, Document>, claims: seq<Claim>)
    returns (r: seq<Cluster>)
    requires Sound(like, clusters, claims)
    ensures Sound(like, r, claims) && Extends(clusters, r) && Regrouped(like, naming, clusters, Books(documents, claims, r))
    ensures forall i | 0 <= i < |claims| && Evidential(claims[i]) :: Member(r, claims[i].id)
  {
    var more := Unclustered(claims, Clustered(clusters));
    ReadyToCluster(like, clusters, claims, more);
    var grown, stages := ClusterClaims(like, naming, clusters, more, documents, ById(claims));
    r := grown.value;
    AddedAgain(ById(claims), more);
    EvidenceIsMember(clusters, claims, more, r);
  }

  lemma ReadyToCluster(like: Likeness, clusters: seq<Cluster>, claims: seq<Claim>, more: seq<Claim>)
    requires Sound(like, clusters, claims) && more == Unclustered(claims, Clustered(clusters))
    ensures !Missing(clusters, ById(claims)) && Trusted(like, clusters, more, ById(claims))
    ensures forall id | id in ById(claims) :: ById(claims)[id].id == id
    ensures forall c | c in more :: c.id in ById(claims) && ById(claims)[c.id] == c
  {
    IdsDiffer(claims);
    ByIdHas(claims);
    UnclusteredMembers(claims, Clustered(clusters));
    UnclusteredIdsDiffer(claims, Clustered(clusters));
    forall k, i | 0 <= k < |clusters| && 0 <= i < |clusters[k].claimIds| ensures clusters[k].claimIds[i] in ById(claims) {
      assert Member(clusters, clusters[k].claimIds[i]);
    }
    forall i | 0 <= i < |more| ensures !Member(clusters, more[i].id) { assert more[i] in more; }
  }

  lemma EvidenceIsMember(clusters: seq<Cluster>, claims: seq<Claim>, more: seq<Claim>, r: seq<Cluster>)
    requires InSequence(claims) && more == Unclustered(claims, Clustered(clusters)) && Reached(clusters, more, r)
    requires Grounded(clusters, ById(claims))
    ensures forall i | 0 <= i < |claims| && Evidential(claims[i]) :: Member(r, claims[i].id)
    ensures Grounded(r, ById(claims))
  {
    ByIdHas(claims);
    UnclusteredMembers(claims, Clustered(clusters));
    forall i | 0 <= i < |claims| && Evidential(claims[i]) ensures Member(r, claims[i].id) {
      if claims[i].id in Clustered(clusters) {
        assert Member(clusters, claims[i].id);
      } else {
        assert claims[i] in more;
        var j :| 0 <= j < |more| && more[j] == claims[i];
        assert Named(more, claims[i].id);
      }
    }
    forall id | Member(r, id) ensures id in ById(claims) && Evidential(ById(claims)[id]) {
      if !Member(clusters, id) {
        var i :| 0 <= i < |more| && more[i].id == id;
        assert more[i] in more;
      }
    }
  }

  // In every state the ledger can reach, a finding rests only on claims with exactly one affirmative verdict.
  lemma EveryMemberIsEarned(like: Likeness, ledger: Ledger, id: string) returns (i: nat)
    requires ledger.Valid(like) && Member(ledger.clusters, id)
    ensures i < |ledger.library.claims| && ledger.library.claims[i].id == id && i < |ledger.vouchers|
    ensures Vouched(ledger.vouchers[i], ledger.library.claims[i]) && Earned(ledger.vouchers[i])
  {
    var claims := ledger.library.claims;
    ByIdHas(claims);
    i :| 0 <= i < |claims| && claims[i] == ById(claims)[id];
    EvidenceIsEarned(ledger.vouchers[i], claims[i]);
  }

  datatype Step = Batch(candidates: seq<Claim>, check: Scrutiny, replies: seq<Reply<string, Opinion>>) | Merge(naming: Naming, quoting: Quoting)

  ghost predicate Took(like: Likeness, step: Step, was: Books, now: Books) {
    match step
    case Batch(candidates, check, replies) =>
      && now.clusters == was.clusters && now.documents == was.documents
      && Recorded(was.claims, now.claims, candidates, check, replies)
    case Merge(naming, quoting) => Corroborated(like, naming, quoting, was, now)
  }

  ghost predicate TookAt(like: Likeness, steps: seq<Step>, trail: seq<Books>, n: nat)
    requires n < |steps| && n + 1 < |trail|
  {
    Took(like, steps[n], trail[n], trail[n + 1])
  }

  ghost predicate Trail(like: Likeness, documents: map<string, Document>, steps: seq<Step>, n: nat, trail: seq<Books>)
    requires n <= |steps|
  {
    && |trail| == n + 1 && trail[0] == Books(documents, [], [])
    && forall k | 0 <= k < n :: TookAt(like, steps, trail, k)
  }

  lemma TrailGrows(like: Likeness, documents: map<string, Document>, steps: seq<Step>, n: nat, trail: seq<Books>, next: Books)
    requires n < |steps| && Trail(like, documents, steps, n, trail) && Took(like, steps[n], trail[n], next)
    ensures Trail(like, documents, steps, n + 1, trail + [next])
  {
    forall k | 0 <= k < n + 1 ensures TookAt(like, steps, trail + [next], k) {
      if k < n { assert TookAt(like, steps, trail, k); }
    }
  }

  method Take(ledger: Ledger, like: Likeness, step: Step)
    requires ledger.Valid(like) && (step.Batch? ==> |step.replies| == 2)
    modifies ledger, ledger.library
    ensures ledger.Valid(like) && Took(like, step, old(ledger.Contents()), ledger.Contents())
  {
    match step {
      case Batch(candidates, check, replies) => ledger.Record(like, candidates, check, replies);
      case Merge(naming, quoting) => ledger.Corroborate(like, naming, quoting);
    }
  }

  // Any sequence of steps, with any replies.
  method Run(like: Likeness, documents: map<string, Document>, steps: seq<Step>) returns (ledger: Ledger, ghost trail: seq<Books>)
    requires forall i | 0 <= i < |steps| && steps[i].Batch? :: |steps[i].replies| == 2
    ensures ledger.Valid(like) && Trail(like, documents, steps, |steps|, trail) && ledger.Contents() == trail[|steps|]
  {
    ledger := new Ledger(like, documents);
    trail := [ledger.Contents()];
    for n := 0 to |steps|
      invariant fresh(ledger) && fresh(ledger.library) && ledger.Valid(like)
      invariant Trail(like, documents, steps, n, trail) && ledger.Contents() == trail[n]
    {
      Take(ledger, like, steps[n]);
      TrailGrows(like, documents, steps, n, trail, ledger.Contents());
      trail := trail + [ledger.Contents()];
    }
  }
}
