/**
 Does it matter in which order claims are listed? When the members of one group that speak from the
 group's first speaking origin name different speakers, it does; otherwise it does not.
 */
module ClaimOrder {
  import opened Wrappers
  import opened Sorting
  import opened NameOrder
  import opened UnionFind
  import opened Evidence
  import opened Origins
  import opened Corroboration

  ghost predicate Speaks(edges: set<Edge>, node: string, m: Claim) {
    m.attributedTo != "" && Connected(edges, node, Node(m))
  }

  // `m` names a speaker, and no member of the group does so under an earlier origin.
  ghost predicate SpeaksFirst(members: seq<Claim>, edges: set<Edge>, node: string, m: Claim) {
    m in members && Speaks(edges, node, m) && forall t | t in members && Speaks(edges, node, t) :: AtMost(m.originId, t.originId)
  }

  ghost predicate Agreed(members: seq<Claim>, edges: set<Edge>, naming: Naming) {
    forall node, m, t :: SpeaksFirst(members, edges, node, m) && SpeaksFirst(members, edges, node, t) ==> Said(naming, m) == Said(naming, t)
  }

  ghost predicate Reordered(members: seq<Claim>, others: seq<Claim>) {
    multiset(members) == multiset(others)
  }

  ghost predicate SameKeys(members: seq<Claim>, others: seq<Claim>, edges: set<Edge>, naming: Naming) {
    forall node :: Key(Sort(members, ByOrigin), edges, naming, node) == Key(Sort(others, ByOrigin), edges, naming, node)
  }

  ghost predicate OrderIrrelevant(members: seq<Claim>, edges: set<Edge>, naming: Naming) {
    forall others :: Reordered(members, others) ==> SameKeys(members, others, edges, naming)
  }

  // --- order on origins ---

  lemma ByOriginIsPreorder()
    ensures TotalPreorder(ByOrigin)
  {
    forall x, y ensures ByOrigin(x, y) || ByOrigin(y, x) { BeforeIsTotal(x.originId, y.originId); }
    forall x, y, z | ByOrigin(x, y) && ByOrigin(y, z) ensures ByOrigin(x, z) {
      if Before(x.originId, y.originId) && Before(y.originId, z.originId) { BeforeIsTransitive(x.originId, y.originId, z.originId); }
    }
  }

  // --- if they agree, order is irrelevant ---

  lemma {:induction false} SpeakerExists(sorted: seq<Claim>, edges: set<Edge>, naming: Naming, node: string, m: Claim)
    requires m in sorted && Speaks(edges, node, m)
    ensures Speaker(sorted, edges, naming, node).Some?
  {
    if m != sorted[|sorted| - 1] {
      assert sorted == sorted[..|sorted| - 1] + [sorted[|sorted| - 1]];
      SpeakerExists(sorted[..|sorted| - 1], edges, naming, node, m);
    }
  }

  lemma {:induction false} SpeakerIsFirst(sorted: seq<Claim>, edges: set<Edge>, naming: Naming, node: string) returns (m: Claim)
    requires Pairwise(sorted, ByOrigin) && Speaker(sorted, edges, naming, node).Some?
    ensures SpeaksFirst(sorted, edges, node, m) && Speaker(sorted, edges, naming, node) == Some(Said(naming, m))
  {
    var front, last := sorted[..|sorted| - 1], sorted[|sorted| - 1];
    assert sorted == front + [last];
    if Speaker(front, edges, naming, node).Some? {
      m := SpeakerIsFirst(front, edges, naming, node);
      var i :| 0 <= i < |front| && front[i] == m;
      assert ByOrigin(sorted[i], sorted[|front|]);
    } else {
      m := last;
      forall t | t in sorted && Speaks(edges, node, t) ensures AtMost(m.originId, t.originId) {
        if t in front { SpeakerExists(front, edges, naming, node, t); }
      }
    }
  }

  lemma SameSpeaker(sorted: seq<Claim>, others: seq<Claim>, edges: set<Edge>, naming: Naming, node: string)
    requires Pairwise(sorted, ByOrigin) && Pairwise(others, ByOrigin) && forall m :: m in sorted <==> m in others
    requires Agreed(sorted, edges, naming)
    ensures Speaker(sorted, edges, naming, node) == Speaker(others, edges, naming, node)
  {
    if Speaker(sorted, edges, naming, node).Some? {
      var m := SpeakerIsFirst(sorted, edges, naming, node);
      SpeakerExists(others, edges, naming, node, m);
    }
    if Speaker(others, edges, naming, node).Some? {
      var t := SpeakerIsFirst(others, edges, naming, node);
      SpeakerExists(sorted, edges, naming, node, t);
      var m := SpeakerIsFirst(sorted, edges, naming, node);
      assert SpeaksFirst(sorted, edges, node, t);
    }
  }

  lemma SameFirstOrigin(sorted: seq<Claim>, others: seq<Claim>, edges: set<Edge>, node: string)
    requires Pairwise(sorted, ByOrigin) && Pairwise(others, ByOrigin) && forall m :: m in sorted <==> m in others
    ensures FirstOrigin(sorted, edges, node) == FirstOrigin(others, edges, node)
  {
    if FirstOrigin(sorted, edges, node).Some? {
      var m := FirstOriginFrom(sorted, edges, node);
      FirstOriginIsLeast(others, edges, node, m);
      var t := FirstOriginFrom(others, edges, node);
      FirstOriginIsLeast(sorted, edges, node, t);
      AtMostBothWays(m.originId, t.originId);
    } else if FirstOrigin(others, edges, node).Some? {
      var t := FirstOriginFrom(others, edges, node);
      FirstOriginExists(sorted, edges, node, t);
    }
  }

  lemma SortedMembers(members: seq<Claim>)
    ensures Pairwise(Sort(members, ByOrigin), ByOrigin) && forall m :: m in Sort(members, ByOrigin) <==> m in members
  {
    ByOriginIsPreorder();
    SortSorted(members, ByOrigin);
    SortElements(members, ByOrigin);
  }

  lemma AgreedThenSameKeys(members: seq<Claim>, others: seq<Claim>, edges: set<Edge>, naming: Naming)
    requires Agreed(members, edges, naming) && forall m :: m in members <==> m in others
    ensures SameKeys(members, others, edges, naming)
  {
    SortedMembers(members);
    SortedMembers(others);
    var sorted := Sort(members, ByOrigin);
    forall node, m | SpeaksFirst(sorted, edges, node, m) ensures SpeaksFirst(members, edges, node, m) {}
    forall node ensures Key(sorted, edges, naming, node) == Key(Sort(others, ByOrigin), edges, naming, node) {
      SameSpeaker(sorted, Sort(others, ByOrigin), edges, naming, node);
      SameFirstOrigin(sorted, Sort(others, ByOrigin), edges, node);
    }
  }

  // --- if they do not, whoever is listed first is heard ---

  ghost predicate Leads(s: seq<Claim>, edges: set<Edge>, node: string, m: Claim, i: nat) {
    i < |s| && s[i] == m && Speaks(edges, node, m) && forall j | 0 <= j < i :: !Speaks(edges, node, s[j])
  }

  lemma {:induction false} LeaderIsHeard(s: seq<Claim>, edges: set<Edge>, naming: Naming, node: string, m: Claim, i: nat)
    requires Leads(s, edges, node, m, i)
    ensures Speaker(s, edges, naming, node) == Some(Said(naming, m))
  {
    var front := s[..|s| - 1];
    if i < |s| - 1 {
      LeaderIsHeard(front, edges, naming, node, m, i);
    } else {
      Silent(front, edges, naming, node);
    }
  }

  lemma {:induction false} Silent(s: seq<Claim>, edges: set<Edge>, naming: Naming, node: string)
    requires forall j | 0 <= j < |s| :: !Speaks(edges, node, s[j])
    ensures Speaker(s, edges, naming, node).None?
  {
    if s != [] { Silent(s[..|s| - 1], edges, naming, node); }
  }

  lemma {:induction false} InsertKeepsLeader(s: seq<Claim>, x: Claim, edges: set<Edge>, node: string, m: Claim, i: nat) returns (k: nat)
    requires Leads(s, edges, node, m, i)
    requires Speaks(edges, node, x) ==> AtMost(m.originId, x.originId)
    ensures Leads(Insert(s, x, ByOrigin), edges, node, m, k)
  {
    var r := Insert(s, x, ByOrigin);
    var front, last := s[..|s| - 1], s[|s| - 1];
    if ByOrigin(last, x) {
      k := i;
    } else if i < |front| {
      k := InsertKeepsLeader(front, x, edges, node, m, i);
    } else {
      k := |s|;
      InsertElements(front, x, ByOrigin);
      assert r == Insert(front, x, ByOrigin) + [m];
      forall j | 0 <= j < k ensures !Speaks(edges, node, r[j]) {
        assert r[j] in Insert(front, x, ByOrigin);
      }
    }
  }

  lemma {:induction false} FirstListedLeads(m: Claim, rest: seq<Claim>, edges: set<Edge>, node: string) returns (k: nat)
    requires Speaks(edges, node, m) && forall t | t in rest && Speaks(edges, node, t) :: AtMost(m.originId, t.originId)
    ensures Leads(Sort([m] + rest, ByOrigin), edges, node, m, k)
  {
    var all := [m] + rest;
    if rest == [] {
      assert all[..0] == [] && all[0] == m;
      assert Sort(all, ByOrigin) == Insert(Sort(all[..0], ByOrigin), m, ByOrigin) == [m];
      k := 0;
    } else {
      var front := rest[..|rest| - 1];
      assert all[..|all| - 1] == [m] + front;
      var i := FirstListedLeads(m, front, edges, node);
      k := InsertKeepsLeader(Sort([m] + front, ByOrigin), rest[|rest| - 1], edges, node, m, i);
    }
  }

  lemma MoveToFront(members: seq<Claim>, m: Claim) returns (rest: seq<Claim>)
    requires m in members
    ensures Reordered(members, [m] + rest) && forall t | t in rest :: t in members
  {
    var i :| 0 <= i < |members| && members[i] == m;
    rest := members[..i] + members[i + 1..];
    assert members == members[..i] + [m] + members[i + 1..];
  }

  lemma FirstListedIsHeard(members: seq<Claim>, edges: set<Edge>, naming: Naming, node: string, m: Claim)
    requires SpeaksFirst(members, edges, node, m) && OrderIrrelevant(members, edges, naming)
    ensures Key(Sort(members, ByOrigin), edges, naming, node) == Some(Said(naming, m))
  {
    var rest := MoveToFront(members, m);
    var k := FirstListedLeads(m, rest, edges, node);
    LeaderIsHeard(Sort([m] + rest, ByOrigin), edges, naming, node, m, k);
    assert SameKeys(members, [m] + rest, edges, naming);
  }

  // The keys are independent of claim order exactly when first speakers agree.
  lemma OrderIrrelevantIffAgreed(members: seq<Claim>, edges: set<Edge>, naming: Naming)
    ensures OrderIrrelevant(members, edges, naming) <==> Agreed(members, edges, naming)
  {
    if Agreed(members, edges, naming) {
      forall others | Reordered(members, others) ensures SameKeys(members, others, edges, naming) {
        forall m ensures m in members <==> m in others { assert m in multiset(members) <==> m in multiset(others); }
        AgreedThenSameKeys(members, others, edges, naming);
      }
    }
    if OrderIrrelevant(members, edges, naming) {
      forall node, m, t | SpeaksFirst(members, edges, node, m) && SpeaksFirst(members, edges, node, t)
        ensures Said(naming, m) == Said(naming, t)
      {
        FirstListedIsHeard(members, edges, naming, node, m);
        FirstListedIsHeard(members, edges, naming, node, t);
      }
    }
  }

  lemma SameVoices(members: seq<Claim>, others: seq<Claim>, edges: set<Edge>, naming: Naming)
    requires SameKeys(members, others, edges, naming) && forall m :: m in members <==> m in others
    ensures Voices(Sort(members, ByOrigin), edges, naming) == Voices(Sort(others, ByOrigin), edges, naming)
  {
    SortElements(members, ByOrigin);
    SortElements(others, ByOrigin);
  }

  lemma SameVoice(members: seq<Claim>, others: seq<Claim>, documents: map<string, Document>, naming: Naming, m: Claim)
    requires Published(others, documents, naming) == Published(members, documents, naming)
    requires SameKeys(members, others, Published(members, documents, naming), naming)
    ensures VoiceIn(members, documents, naming)(m) == VoiceIn(others, documents, naming)(m)
  {
    var edges := Published(members, documents, naming);
    assert Key(Sort(members, ByOrigin), edges, naming, Node(m)) == Key(Sort(others, ByOrigin), edges, naming, Node(m));
    assert KeyIn(members, documents, naming)(Node(m)) == KeyIn(others, documents, naming)(Node(m));
  }

  // Then support and confidence do not depend on it either.
  lemma ConfidenceOfAgreed(members: seq<Claim>, others: seq<Claim>, documents: map<string, Document>, naming: Naming)
    requires Agreed(members, Published(members, documents, naming), naming) && forall m :: m in members <==> m in others
    ensures Confidence(members, documents, VoiceIn(members, documents, naming)) == Confidence(others, documents, VoiceIn(others, documents, naming))
    ensures Voices(Sort(members, ByOrigin), Published(members, documents, naming), naming)
         == Voices(Sort(others, ByOrigin), Published(others, documents, naming), naming)
  {
    var edges := Published(members, documents, naming);
    assert Published(others, documents, naming) == edges;
    AgreedThenSameKeys(members, others, edges, naming);
    SameVoices(members, others, edges, naming);
    var voice, likewise := VoiceIn(members, documents, naming), VoiceIn(others, documents, naming);
    forall m | m in members ensures voice(m) == likewise(m) { SameVoice(members, others, documents, naming, m); }
    ConfidenceIgnoresOrder(members, others, documents, voice, likewise);
  }

  // --- a case where order matters ---

  // Names are compared as they are written.
  const PLAIN := Naming(domain => domain, name => name)

  // Without documents no two origins are connected.
  lemma OnlyItself(m: Claim, t: Claim)
    requires m.originId != t.originId
    ensures !Connected({}, Node(t), Node(m))
  {
    NothingJoined();
    assert Node(m)[7..] == m.originId && Node(t)[7..] == t.originId;
  }

  lemma SaidIsInjective(a: Claim, b: Claim)
    requires a.attributedTo != b.attributedTo
    ensures Said(PLAIN, a) != Said(PLAIN, b)
  {
    assert Said(PLAIN, a)[5..] == a.attributedTo && Said(PLAIN, b)[5..] == b.attributedTo;
  }

  lemma FirstIsHeard(first: Claim, second: Claim, third: Claim)
    requires first.attributedTo != "" && first.originId == second.originId != third.originId
    ensures Key(Sort([first, second, third], ByOrigin), {}, PLAIN, Node(first)) == Some(Said(PLAIN, first))
  {
    var rest := [second, third];
    assert [first] + rest == [first, second, third];
    ConnectedToItself({}, Node(first));
    OnlyItself(third, first);
    var k := FirstListedLeads(first, rest, {}, Node(first));
    LeaderIsHeard(Sort([first] + rest, ByOrigin), {}, PLAIN, Node(first), first, k);
  }

  lemma ThirdIsHeard(members: seq<Claim>, third: Claim)
    requires third.attributedTo != "" && third in members && forall t | t in members && t != third :: t.originId != third.originId
    ensures Key(Sort(members, ByOrigin), {}, PLAIN, Node(third)) == Some(Said(PLAIN, third))
  {
    SortedMembers(members);
    ConnectedToItself({}, Node(third));
    var sorted := Sort(members, ByOrigin);
    SpeakerExists(sorted, {}, PLAIN, Node(third), third);
    var heard := SpeakerIsFirst(sorted, {}, PLAIN, Node(third));
    if heard != third { OnlyItself(heard, third); }
  }

  lemma VoicesOfTwo(sorted: seq<Claim>, a: Claim, b: Claim)
    requires a in sorted && b in sorted && forall m | m in sorted :: m == b || Node(m) == Node(a)
    ensures Voices(sorted, {}, PLAIN) == {Key(sorted, {}, PLAIN, Node(a)), Key(sorted, {}, PLAIN, Node(b))}
  {
  }

  lemma ListedVoices(first: Claim, second: Claim, third: Claim)
    requires first.attributedTo != "" && third.attributedTo != "" && first.originId == second.originId != third.originId
    ensures Voices(Sort([first, second, third], ByOrigin), {}, PLAIN) == {Some(Said(PLAIN, first)), Some(Said(PLAIN, third))}
  {
    var members := [first, second, third];
    assert forall m | m in members :: m == third || Node(m) == Node(first);
    assert first in members && third in members;
    FirstIsHeard(first, second, third);
    ThirdIsHeard(members, third);
    SortElements(members, ByOrigin);
    VoicesOfTwo(Sort(members, ByOrigin), first, third);
  }

  // Two sentences of one page quote X and Y, another page quotes X: one voice or two, by listing order.
  lemma OrderCanMatter(x: Claim, y: Claim, other: Claim)
    requires x.originId == y.originId != other.originId
    requires x.attributedTo == other.attributedTo != "" && y.attributedTo != "" && y.attributedTo != x.attributedTo
    ensures |Voices(Sort([x, y, other], ByOrigin), {}, PLAIN)| == 1
    ensures |Voices(Sort([y, x, other], ByOrigin), {}, PLAIN)| == 2
  {
    ListedVoices(x, y, other);
    ListedVoices(y, x, other);
    SaidIsInjective(x, y);
    var one, two := {Some(Said(PLAIN, x))}, {Some(Said(PLAIN, y)), Some(Said(PLAIN, other))};
    assert |one| == 1 && |two| == 2;
  }
}
