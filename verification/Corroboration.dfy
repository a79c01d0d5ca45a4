/** Support and confidence of a finding, recomputed from all its members; and when claim order matters to them. */
module Corroboration {
  import opened Wrappers
  import opened Sets
  import opened Sorting
  import opened Folds
  import opened UnionFind
  import opened Evidence
  import Numeric
  import opened Origins
  import opened Clustering

  // --- products ---

  function Times(a: real, b: real): real {
    a * b
  }

  lemma TimesIsOrderFree()
    ensures OrderFree(Times, 1.0)
  {
    forall a: real, b: real, c: real ensures Law(Times, 1.0, a, b, c) {
      Rearrange(a, b, c);
    }
  }

  lemma Rearrange(a: real, b: real, c: real)
    ensures a * (b * c) == b * (a * c) == (a * b) * c
  {
  }

  predicate InUnit(x: real) {
    0.0 <= x <= 1.0
  }

  lemma UnitTimes(a: real, b: real)
    requires InUnit(a) && InUnit(b)
    ensures InUnit(a * b)
  {
    Shrinks(a, b);
  }

  lemma Shrinks(x: real, y: real)
    requires 0.0 <= x <= 1.0 && 0.0 <= y
    ensures 0.0 <= x * y <= y
  {
    assert (1.0 - x) * y >= 0.0;
  }

  lemma TimesStaysInUnit()
    ensures forall a, b | InUnit(a) && InUnit(b) :: InUnit(Times(a, b))
  {
    forall a: real, b: real | InUnit(a) && InUnit(b) ensures InUnit(Times(a, b)) {
      UnitTimes(a, b);
    }
  }

  lemma Falls(a: real, b: real, p: real)
    requires a <= b && 0.0 <= p
    ensures a * p <= b * p
  {
    assert (b - a) * p >= 0.0;
  }

  // --- the statistics ---

  type Voicing = Claim -> string

  function Members(ids: seq<string>, claims: map<string, Claim>): seq<Claim> {
    if ids == [] then []
    else
      var last := ids[|ids| - 1];
      Members(ids[..|ids| - 1], claims) + if last in claims then [claims[last]] else []
  }

  function Unique(s: seq<string>): seq<string> {
    if s == [] then []
    else
      var before := Unique(s[..|s| - 1]);
      if s[|s| - 1] in before then before else before + [s[|s| - 1]]
  }

  lemma {:induction false} UniqueElements(s: seq<string>)
    ensures forall x :: x in Unique(s) <==> x in s
    ensures NoRepeat(Unique(s))
    ensures |Unique(s)| == |set x | x in s|
  {
    if s != [] {
      var front, last := s[..|s| - 1], s[|s| - 1];
      UniqueElements(front);
      assert s == front + [last];
      assert (set x | x in s) == (set x | x in front) + {last};
    }
  }

  // Listed by first appearance.
  lemma {:induction false} FirstSeenFirst(s: seq<string>, n: nat)
    requires n <= |s|
    ensures Unique(s[..n]) <= Unique(s)
  {
    if n == |s| {
      assert s[..n] == s;
    } else {
      FirstSeenFirst(s[..|s| - 1], n);
      assert s[..|s| - 1][..n] == s[..n];
    }
  }

  // The members of a finding are the claims its ids name, in their order.
  lemma {:induction false} MembersInOrder(some: seq<string>, others: seq<string>, claims: map<string, Claim>)
    ensures Members(some + others, claims) == Members(some, claims) + Members(others, claims)
  {
    if others == [] {
      assert some + others == some;
    } else {
      MembersInOrder(some, others[..|others| - 1], claims);
      assert (some + others)[..|some + others| - 1] == some + others[..|others| - 1];
    }
  }

  function Larger(a: real, b: real): real {
    if a >= b then a else b
  }

  // The best score among the pages behind one voice, never below zero.
  ghost function BestOf(members: seq<Claim>, documents: map<string, Document>, voice: Voicing, key: string): real {
    if members == [] then 0.0
    else
      var before := BestOf(members[..|members| - 1], documents, voice, key);
      var last := members[|members| - 1];
      if last.docId in documents && voice(last) == key then Larger(before, documents[last.docId].score) else before
  }

  ghost function Heard(members: seq<Claim>, documents: map<string, Document>, voice: Voicing): set<string> {
    set m | m in members && m.docId in documents :: voice(m)
  }

  function Doubt(score: real): real {
    1.0 - 0.8 * (if score < 0.0 then 0.0 else if score > 1.0 then 1.0 else score)
  }

  ghost function AllDoubts(members: seq<Claim>, documents: map<string, Document>, voice: Voicing): real {
    Fold(Heard(members, documents, voice), Doubts(members, documents, voice), Times, 1.0)
  }

  function Belief(doubt: real): real {
    Numeric.FourPlaces(if 1.0 - doubt < 0.99 then 1.0 - doubt else 0.99)
  }

  ghost function Confidence(members: seq<Claim>, documents: map<string, Document>, voice: Voicing): real {
    Belief(AllDoubts(members, documents, voice))
  }

  lemma LessDoubtMoreBelief(doubt: real, more: real)
    requires doubt <= more
    ensures Belief(doubt) >= Belief(more)
  {
    Numeric.FourPlacesIsMonotone(if 1.0 - more < 0.99 then 1.0 - more else 0.99, if 1.0 - doubt < 0.99 then 1.0 - doubt else 0.99);
  }

  ghost function Doubts(members: seq<Claim>, documents: map<string, Document>, voice: Voicing): string -> real {
    key => Doubt(BestOf(members, documents, voice, key))
  }

  // Independent evidence combines like independent probabilities and is never certain.
  lemma ConfidenceInRange(members: seq<Claim>, documents: map<string, Document>, voice: Voicing)
    ensures 0.0 <= Confidence(members, documents, voice) <= 0.99
  {
    TimesStaysInUnit();
    FoldStays(Heard(members, documents, voice), Doubts(members, documents, voice), Times, 1.0, InUnit);
    LessDoubtMoreBelief(AllDoubts(members, documents, voice), 1.0);
    LessDoubtMoreBelief(0.0, AllDoubts(members, documents, voice));
    assert Belief(1.0) == 0.0 && Belief(0.0) == 0.99;
  }

  lemma DoubtOfOne(f: string -> real, key: string)
    ensures Fold({key}, f, Times, 1.0) == f(key)
  {
    TimesIsOrderFree();
    FoldPick({key}, f, Times, 1.0, key);
    assert {key} - {key} == {};
  }

  lemma DoubtOfTwo(f: string -> real, key: string, other: string, a: real, b: real)
    requires key != other && f(key) == a && f(other) == b
    ensures Fold({key, other}, f, Times, 1.0) == a * b
  {
    TimesIsOrderFree();
    FoldPick({key, other}, f, Times, 1.0, key);
    assert {key, other} - {key} == {other};
    DoubtOfOne(f, other);
    assert Times(f(key), f(other)) == Times(a, b);
  }

  ghost function ToFourPlaces(belief: real): real {
    Numeric.FourPlaces(if belief < 0.99 then belief else 0.99)
  }

  lemma BeliefOf(members: seq<Claim>, documents: map<string, Document>, voice: Voicing, belief: real)
    requires AllDoubts(members, documents, voice) == 1.0 - belief
    ensures Confidence(members, documents, voice) == ToFourPlaces(belief)
  {
  }

  lemma DoubtIn(members: seq<Claim>, documents: map<string, Document>, voice: Voicing, key: string)
    requires BestOf(members, documents, voice, key) <= 1.0
    ensures Doubts(members, documents, voice)(key) == 1.0 - 0.8 * BestOf(members, documents, voice, key)
  {
    BestIsMaximum(members, documents, voice, key);
    ScoresAreClamped(BestOf(members, documents, voice, key));
  }

  lemma DoubtOfOneVoice(members: seq<Claim>, documents: map<string, Document>, voice: Voicing, key: string, f: string -> real)
    requires Heard(members, documents, voice) == {key} && f == Doubts(members, documents, voice)
    ensures AllDoubts(members, documents, voice) == f(key)
  {
    DoubtOfOne(f, key);
  }

  lemma DoubtOfTwoVoices(members: seq<Claim>, documents: map<string, Document>, voice: Voicing, key: string, other: string, a: real, b: real)
    requires Heard(members, documents, voice) == {key, other} && key != other
    requires Doubts(members, documents, voice)(key) == a && Doubts(members, documents, voice)(other) == b
    ensures AllDoubts(members, documents, voice) == a * b
  {
    DoubtOfTwo(Doubts(members, documents, voice), key, other, a, b);
  }

  // One voice of score s gives 0.8 s, at most 0.99, to four places.
  lemma OneVoice(members: seq<Claim>, documents: map<string, Document>, voice: Voicing, key: string, belief: real)
    requires Heard(members, documents, voice) == {key} && BestOf(members, documents, voice, key) <= 1.0
    requires belief == 0.8 * BestOf(members, documents, voice, key)
    ensures Confidence(members, documents, voice) == ToFourPlaces(belief)
  {
    DoubtIn(members, documents, voice, key);
    DoubtOfOneVoice(members, documents, voice, key, Doubts(members, documents, voice));
    BeliefOf(members, documents, voice, belief);
  }

  // Two voices of doubts a and b, each 1 less 0.8 of its score, are wrong together only if each is.
  lemma TwoVoices(members: seq<Claim>, documents: map<string, Document>, voice: Voicing, key: string, other: string, a: real, b: real, belief: real)
    requires Heard(members, documents, voice) == {key, other} && key != other
    requires BestOf(members, documents, voice, key) <= 1.0 && a == 1.0 - 0.8 * BestOf(members, documents, voice, key)
    requires BestOf(members, documents, voice, other) <= 1.0 && b == 1.0 - 0.8 * BestOf(members, documents, voice, other)
    requires belief == 1.0 - a * b
    ensures Confidence(members, documents, voice) == ToFourPlaces(belief)
  {
    DoubtIn(members, documents, voice, key);
    DoubtIn(members, documents, voice, other);
    DoubtOfTwoVoices(members, documents, voice, key, other, a, b);
    BeliefOf(members, documents, voice, belief);
  }

  // Without a known page there is no confidence; scores outside [0, 1] count as the nearer end.
  lemma NoVoice(members: seq<Claim>, documents: map<string, Document>, voice: Voicing)
    requires forall m | m in members :: m.docId !in documents
    ensures Confidence(members, documents, voice) == 0.0
  {
    assert Heard(members, documents, voice) == {};
  }

  lemma ScoresAreClamped(score: real)
    ensures score > 1.0 ==> Doubt(score) == Doubt(1.0)
    ensures score < 0.0 ==> Doubt(score) == Doubt(0.0)
    ensures 0.0 <= score <= 1.0 ==> Doubt(score) == 1.0 - 0.8 * score
  {
  }

  lemma {:induction false} BestIsMaximum(members: seq<Claim>, documents: map<string, Document>, voice: Voicing, key: string)
    ensures var best := BestOf(members, documents, voice, key);
      && best >= 0.0
      && (forall m | m in members && m.docId in documents && voice(m) == key :: documents[m.docId].score <= best)
      && (best == 0.0 || exists m :: m in members && m.docId in documents && voice(m) == key && documents[m.docId].score == best)
  {
    if members != [] {
      var front, last := members[..|members| - 1], members[|members| - 1];
      assert members == front + [last];
      BestIsMaximum(front, documents, voice, key);
      var before := BestOf(front, documents, voice, key);
      if before != 0.0 {
        var m :| m in front && m.docId in documents && voice(m) == key && documents[m.docId].score == before;
        assert m in members;
      }
    }
  }

  // For given voices, the confidence does not depend on the order of the members.
  lemma ConfidenceIgnoresOrder(members: seq<Claim>, others: seq<Claim>, documents: map<string, Document>, voice: Voicing, likewise: Voicing)
    requires forall m :: m in members <==> m in others
    requires forall m | m in members :: voice(m) == likewise(m)
    ensures Confidence(members, documents, voice) == Confidence(others, documents, likewise)
  {
    assert Heard(members, documents, voice) == Heard(others, documents, likewise);
    forall key ensures BestOf(members, documents, voice, key) == BestOf(others, documents, likewise, key) {
      BestIsMaximum(members, documents, voice, key);
      BestIsMaximum(others, documents, likewise, key);
    }
    TimesIsOrderFree();
    SameFold(Heard(members, documents, voice), Doubts(members, documents, voice), Doubts(others, documents, likewise), Times, 1.0);
  }

  lemma DoubtsInUnit(keys: set<string>, f: string -> real)
    requires forall k :: InUnit(f(k))
    ensures InUnit(Fold(keys, f, Times, 1.0))
  {
    TimesStaysInUnit();
    FoldStays(keys, f, Times, 1.0, InUnit);
  }

  lemma OneFactorFalls(was: set<string>, key: string, f: string -> real, g: string -> real)
    requires (forall k :: InUnit(f(k)) && InUnit(g(k))) && (forall k | k != key :: f(k) == g(k)) && g(key) <= f(key)
    ensures Fold(was + {key}, g, Times, 1.0) <= Fold(was, f, Times, 1.0)
  {
    var others, all := was - {key}, was + {key};
    assert all - {key} == others;
    TimesIsOrderFree();
    ChangeOne(all, others, key, f, g, Times, 1.0);
    if key in was {
      ChangeOne(was, others, key, f, f, Times, 1.0);
    } else {
      assert was == others;
    }
    DoubtsInUnit(others, f);
    FactorFalls(g(key), f(key), Fold(others, f, Times, 1.0));
  }

  lemma FactorFalls(a: real, b: real, rest: real)
    requires InUnit(a) && InUnit(b) && InUnit(rest) && a <= b
    ensures Times(a, rest) <= Times(b, rest) && Times(a, rest) <= rest
  {
    Falls(a, b, rest);
    Falls(a, 1.0, rest);
    assert 1.0 * rest == rest;
  }

  lemma BestWithOneMore(members: seq<Claim>, m: Claim, documents: map<string, Document>, voice: Voicing, key: string)
    ensures var was, now := BestOf(members, documents, voice, key), BestOf(members + [m], documents, voice, key);
      now >= was && (m.docId !in documents || voice(m) != key ==> now == was)
  {
    assert (members + [m])[..|members|] == members;
  }

  lemma HeardWithOneMore(members: seq<Claim>, m: Claim, documents: map<string, Document>, voice: Voicing)
    ensures Heard(members + [m], documents, voice) == Heard(members, documents, voice) + if m.docId in documents then {voice(m)} else {}
  {
  }

  // One more claim never lowers the confidence.
  lemma MoreClaimsMoreConfident(members: seq<Claim>, m: Claim, documents: map<string, Document>, voice: Voicing)
    ensures Confidence(members + [m], documents, voice) >= Confidence(members, documents, voice)
  {
    var f, g := Doubts(members, documents, voice), Doubts(members + [m], documents, voice);
    forall key ensures g(key) <= f(key) && (m.docId !in documents || voice(m) != key ==> g(key) == f(key)) {
      BestWithOneMore(members, m, documents, voice, key);
    }
    var was, now := Heard(members, documents, voice), Heard(members + [m], documents, voice);
    HeardWithOneMore(members, m, documents, voice);
    FewerDoubts(was, now, if m.docId in documents then Some(voice(m)) else None, f, g);
    LessDoubtMoreBelief(AllDoubts(members + [m], documents, voice), AllDoubts(members, documents, voice));
  }

  lemma FewerDoubts(was: set<string>, now: set<string>, key: Option<string>, f: string -> real, g: string -> real)
    requires now == was + if key.Some? then {key.value} else {}
    requires forall k :: InUnit(f(k)) && InUnit(g(k)) && g(k) <= f(k) && (key != Some(k) ==> f(k) == g(k))
    ensures Fold(now, g, Times, 1.0) <= Fold(was, f, Times, 1.0)
  {
    if key.Some? {
      OneFactorFalls(was, key.value, f, g);
    } else {
      assert now == was;
      TimesIsOrderFree();
      SameFold(was, f, g, Times, 1.0);
    }
  }

  // --- the code ---

  // Members with one id are one claim, as the ledger is keyed by id.
  ghost predicate SameIdSameClaim(members: seq<Claim>) {
    forall i, j | 0 <= i < |members| && 0 <= j < |members| && members[i].id == members[j].id :: members[i] == members[j]
  }

  lemma {:induction false} LastWithId(members: seq<Claim>, i: nat) returns (last: nat)
    requires i < |members|
    ensures i <= last < |members| && members[last].id == members[i].id && IsLast(members, last)
    decreases |members| - i
  {
    last := i;
    if !IsLast(members, i) {
      var j: nat :| i < j < |members| && members[j].id == members[i].id;
      last := LastWithId(members, j);
    }
  }

  lemma AssignedToAll(members: seq<Claim>, key: string -> Option<string>, keys: map<string, string>)
    requires Assigned(members, key, keys) && SameIdSameClaim(members)
    ensures forall m | m in members :: m.id in keys && Some(keys[m.id]) == key(Node(m))
  {
    forall m | m in members ensures m.id in keys && Some(keys[m.id]) == key(Node(m)) {
      var i: nat :| i < |members| && members[i] == m;
      var last := LastWithId(members, i);
    }
  }

  lemma {:induction false} MembersAreClaims(ids: seq<string>, claims: map<string, Claim>)
    requires forall id | id in claims :: claims[id].id == id
    ensures forall m | m in Members(ids, claims) :: m.id in claims && claims[m.id] == m
  {
    if ids != [] { MembersAreClaims(ids[..|ids| - 1], claims); }
  }

  // The voice the ledger hears behind each claim of a finding.
  ghost function VoiceIn(members: seq<Claim>, documents: map<string, Document>, naming: Naming): Voicing {
    m => var key := KeyIn(members, documents, naming)(Node(m)); if key.Some? then key.value else ""
  }

  ghost function DocIds(members: seq<Claim>): seq<string> {
    seq(|members|, i requires 0 <= i < |members| => members[i].docId)
  }

  ghost function VoicesOf(members: seq<Claim>, voice: Voicing): seq<string> {
    seq(|members|, i requires 0 <= i < |members| => voice(members[i]))
  }

  ghost function RawBest(members: seq<Claim>, documents: map<string, Document>): real {
    BestOf(members, documents, m => "", "")
  }

  ghost function BestScore(members: seq<Claim>, documents: map<string, Document>): real {
    Numeric.FourPlaces(RawBest(members, documents))
  }

  ghost predicate HasPrimary(members: seq<Claim>, documents: map<string, Document>) {
    exists i :: 0 <= i < |members| && members[i].docId in documents && documents[members[i].docId].isPrimary
  }

  // The statistics of a cluster are those of its members.
  ghost predicate UpToDate(cluster: Cluster, members: seq<Claim>, documents: map<string, Document>, voice: Voicing) {
    && cluster.docIds == Unique(DocIds(members)) && cluster.originIds == Unique(VoicesOf(members, voice))
    && cluster.confidence == Confidence(members, documents, voice)
    && cluster.bestScore == BestScore(members, documents)
    && cluster.hasPrimary == HasPrimary(members, documents)
    && (cluster.status == Contested || (cluster.status == Supported <==> |cluster.originIds| >= 2))
  }

  ghost predicate Scored(members: seq<Claim>, documents: map<string, Document>, voice: Voicing, bestByOrigin: map<string, real>, best: real, hasPrimary: bool) {
    && bestByOrigin.Keys == Heard(members, documents, voice)
    && (forall key :: BestOf(members, documents, voice, key) == if key in bestByOrigin then bestByOrigin[key] else 0.0)
    && best == RawBest(members, documents) && hasPrimary == HasPrimary(members, documents)
  }

  lemma ScoredNext(members: seq<Claim>, m: Claim, documents: map<string, Document>, voice: Voicing, bestByOrigin: map<string, real>, best: real, hasPrimary: bool)
    requires Scored(members, documents, voice, bestByOrigin, best, hasPrimary)
    ensures m.docId !in documents ==> Scored(members + [m], documents, voice, bestByOrigin, best, hasPrimary)
    ensures m.docId in documents ==>
      var score, key := documents[m.docId].score, voice(m);
      Scored(members + [m], documents, voice, bestByOrigin[key := Larger(if key in bestByOrigin then bestByOrigin[key] else 0.0, score)],
             Larger(best, score), hasPrimary || documents[m.docId].isPrimary)
  {
    assert (members + [m])[..|members|] == members;
    PrimaryGrows(members, m, documents);
    HeardWithOneMore(members, m, documents, voice);
  }

  method ScoreVoices(members: seq<Claim>, documents: map<string, Document>, keys: map<string, string>, ghost voice: Voicing)
    returns (bestByOrigin: map<string, real>, best: real, hasPrimary: bool)
    requires forall m | m in members :: m.id in keys && keys[m.id] == voice(m)
    ensures Scored(members, documents, voice, bestByOrigin, best, hasPrimary)
  {
    bestByOrigin, best, hasPrimary := map[], 0.0, false;
    for i := 0 to |members|
      invariant Scored(members[..i], documents, voice, bestByOrigin, best, hasPrimary)
    {
      var claim := members[i];
      assert members[..i + 1] == members[..i] + [claim];
      ScoredNext(members[..i], claim, documents, voice, bestByOrigin, best, hasPrimary);
      if claim.docId !in documents {
        continue;
      }
      var document := documents[claim.docId];
      best := Larger(best, document.score);
      hasPrimary := hasPrimary || document.isPrimary;
      var key := keys[claim.id];
      bestByOrigin := bestByOrigin[key := Larger(if key in bestByOrigin then bestByOrigin[key] else 0.0, document.score)];
    }
    assert members[..|members|] == members;
  }

  lemma PrimaryGrows(members: seq<Claim>, m: Claim, documents: map<string, Document>)
    ensures HasPrimary(members + [m], documents) <==>
      HasPrimary(members, documents) || (m.docId in documents && documents[m.docId].isPrimary)
  {
    var more := members + [m];
    if i :| 0 <= i < |members| && members[i].docId in documents && documents[members[i].docId].isPrimary { assert more[i] == members[i]; }
    assert more[|members|] == m;
  }

  ghost function DoubtAt(bestByOrigin: map<string, real>): string -> real {
    key => if key in bestByOrigin then Doubt(bestByOrigin[key]) else 1.0
  }

  method CombineDoubts(bestByOrigin: map<string, real>) returns (doubt: real)
    ensures doubt == Fold(bestByOrigin.Keys, DoubtAt(bestByOrigin), Times, 1.0)
  {
    var doubts := map key | key in bestByOrigin :: Doubt(bestByOrigin[key]);
    TimesIsOrderFree();
    doubt := FoldAll(doubts, Times, 1.0);
    assert doubts.Keys == bestByOrigin.Keys;
    SameFold(bestByOrigin.Keys, ValueAt(doubts, 1.0), DoubtAt(bestByOrigin), Times, 1.0);
  }

  lemma DoubtsAgree(bestByOrigin: map<string, real>, members: seq<Claim>, documents: map<string, Document>, voice: Voicing)
    requires bestByOrigin.Keys == Heard(members, documents, voice)
    requires forall key | key in bestByOrigin :: bestByOrigin[key] == BestOf(members, documents, voice, key)
    ensures Fold(bestByOrigin.Keys, DoubtAt(bestByOrigin), Times, 1.0) == AllDoubts(members, documents, voice)
  {
    TimesIsOrderFree();
    SameFold(bestByOrigin.Keys, DoubtAt(bestByOrigin), Doubts(members, documents, voice), Times, 1.0);
  }

  method ListVoices(members: seq<Claim>, keys: map<string, string>, ghost voice: Voicing) returns (docIds: seq<string>, originIds: seq<string>)
    requires forall m | m in members :: m.id in keys && keys[m.id] == voice(m)
    ensures docIds == Unique(DocIds(members)) && originIds == Unique(VoicesOf(members, voice))
  {
    docIds, originIds := [], [];
    for i := 0 to |members|
      invariant docIds == Unique(DocIds(members[..i])) && originIds == Unique(VoicesOf(members[..i], voice))
    {
      assert DocIds(members[..i + 1]) == DocIds(members[..i]) + [members[i].docId];
      assert VoicesOf(members[..i + 1], voice) == VoicesOf(members[..i], voice) + [voice(members[i])];
      if members[i].docId !in docIds { docIds := docIds + [members[i].docId]; }
      if keys[members[i].id] !in originIds { originIds := originIds + [keys[members[i].id]]; }
    }
    assert members[..|members|] == members;
  }

  method Refresh(cluster: Cluster, claims: map<string, Claim>, documents: map<string, Document>, naming: Naming) returns (r: Cluster)
    requires forall id | id in claims :: claims[id].id == id
    ensures var members := Members(cluster.claimIds, claims); UpToDate(r, members, documents, VoiceIn(members, documents, naming))
    ensures Continues(cluster, r) && r.claimIds == cluster.claimIds && r.facetIds == cluster.facetIds
    ensures r.status == Contested <==> cluster.status == Contested
  {
    var members := Members(cluster.claimIds, claims);
    MembersAreClaims(cluster.claimIds, claims);
    var keys := IndependentOriginKeys(members, documents, naming);
    ghost var voice := VoiceIn(members, documents, naming);
    AssignedToAll(members, KeyIn(members, documents, naming), keys);
    var docIds, originIds := ListVoices(members, keys, voice);
    var bestByOrigin, best, hasPrimary := ScoreVoices(members, documents, keys, voice);
    var doubt := CombineDoubts(bestByOrigin);
    DoubtsAgree(bestByOrigin, members, documents, voice);
    var status := if cluster.status == Contested then Contested else if |originIds| >= 2 then Supported else SingleSourced;
    r := cluster.(docIds := docIds, originIds := originIds, confidence := Belief(doubt), bestScore := Numeric.FourPlaces(best), hasPrimary := hasPrimary, status := status);
  }

  ghost predicate Current(cluster: Cluster, claims: map<string, Claim>, documents: map<string, Document>, naming: Naming) {
    var members := Members(cluster.claimIds, claims);
    UpToDate(cluster, members, documents, VoiceIn(members, documents, naming))
  }

  ghost predicate AllUpToDate(clusters: seq<Cluster>, claims: map<string, Claim>, documents: map<string, Document>, naming: Naming) {
    forall k | 0 <= k < |clusters| :: Current(clusters[k], claims, documents, naming)
  }

  lemma UpToDateNext(clusters: seq<Cluster>, next: Cluster, claims: map<string, Claim>, documents: map<string, Document>, naming: Naming)
    requires AllUpToDate(clusters, claims, documents, naming) && Current(next, claims, documents, naming)
    ensures AllUpToDate(clusters + [next], claims, documents, naming)
  {
  }

  method RefreshAll(clusters: seq<Cluster>, claims: map<string, Claim>, documents: map<string, Document>, naming: Naming) returns (r: seq<Cluster>)
    requires forall id | id in claims :: claims[id].id == id
    ensures AllUpToDate(r, claims, documents, naming) && Restated(clusters, r)
  {
    r := [];
    for k := 0 to |clusters|
      invariant AllUpToDate(r, claims, documents, naming) && Restated(clusters[..k], r)
    {
      var next := Refresh(clusters[k], claims, documents, naming);
      UpToDateNext(r, next, claims, documents, naming);
      RestatedNext(clusters, k, r, next);
      r := r + [next];
    }
    assert clusters[..|clusters|] == clusters;
  }

  // The same findings with the same members, whatever their statistics.
  ghost predicate Restated(clusters: seq<Cluster>, others: seq<Cluster>) {
    |others| == |clusters| && forall k | 0 <= k < |clusters| ::
      Continues(clusters[k], others[k]) && others[k].claimIds == clusters[k].claimIds && others[k].facetIds == clusters[k].facetIds
  }

  lemma RestatedNext(clusters: seq<Cluster>, k: nat, others: seq<Cluster>, next: Cluster)
    requires k < |clusters| && Restated(clusters[..k], others)
    requires Continues(clusters[k], next) && next.claimIds == clusters[k].claimIds && next.facetIds == clusters[k].facetIds
    ensures Restated(clusters[..k + 1], others + [next])
  {
  }

  lemma RestatedKeeps(like: Likeness, existing: seq<Cluster>, done: seq<Claim>, clusters: seq<Cluster>, others: seq<Cluster>, claims: map<string, Claim>)
    requires Restated(clusters, others)
    ensures Reached(existing, done, clusters) ==> Reached(existing, done, others)
    ensures Partition(clusters) ==> Partition(others)
    ensures Cohesive(like, clusters, claims) ==> Cohesive(like, others, claims)
  {
    forall id ensures Member(clusters, id) <==> Member(others, id) {
      if k :| 0 <= k < |clusters| && id in clusters[k].claimIds { assert id in others[k].claimIds; }
      if k :| 0 <= k < |others| && id in others[k].claimIds { assert id in clusters[k].claimIds; }
    }
    if Cohesive(like, clusters, claims) {
      forall k, i: nat | 0 <= k < |others| && i < |others[k].claimIds| ensures MemberFits(like, others[k], claims, i) {
        assert MemberFits(like, clusters[k], claims, i);
      }
    }
  }

  // Every new claim joins exactly one finding, old findings continue, and all statistics are recomputed.
  method ClusterClaims(like: Likeness, naming: Naming, existing: seq<Cluster>, newClaims: seq<Claim>, documents: map<string, Document>, allClaims: map<string, Claim>)
    returns (r: Option<seq<Cluster>>, ghost stages: seq<Stage>)
    requires DistinctIds(existing) && forall id | id in allClaims :: allClaims[id].id == id
    ensures r.None? <==> Missing(existing, allClaims)
    ensures r.Some? ==> Reached(existing, newClaims, r.value)
    // One new claim after the other joined the finding it fits best, or opened one of its own.
    ensures r.Some? ==> Stages(like, existing, newClaims, Added(allClaims, newClaims), stages) && Restated(stages[|newClaims|].clusters, r.value)
    ensures r.Some? ==> AllUpToDate(r.value, Added(allClaims, newClaims), documents, naming)
    ensures r.Some? && Trusted(like, existing, newClaims, allClaims) ==> Partition(r.value) && Cohesive(like, r.value, Added(allClaims, newClaims))
  {
    var grown, claims;
    grown, claims, stages := AssignClaims(like, existing, newClaims, allClaims);
    if grown.None? {
      r := None;
      return;
    }
    AddedByIds(allClaims, newClaims);
    var clusters := RefreshAll(grown.value, claims, documents, naming);
    RestatedKeeps(like, existing, newClaims, grown.value, clusters, claims);
    r := Some(clusters);
  }

  lemma {:induction false} AddedByIds(claims: map<string, Claim>, newClaims: seq<Claim>)
    requires forall id | id in claims :: claims[id].id == id
    ensures forall id | id in Added(claims, newClaims) :: Added(claims, newClaims)[id].id == id
  {
    if newClaims != [] { AddedByIds(claims, newClaims[..|newClaims| - 1]); }
  }
}
