/**
 Who is behind a claim. Copies of one text share an origin, pages of one publisher share a site, and
 "according to X" makes X the voice; two claims are independent when none of that links them.
 */
module Origins {
  import opened Wrappers
  import opened Sets
  import opened Sorting
  import opened NameOrder
  import opened UnionFind
  import opened Evidence

  // `site` reduces a domain to its publisher, `speaker` normalises a name.
  datatype Naming = Naming(site: string -> string, speaker: string -> string)

  function Node(claim: Claim): string {
    "origin:" + claim.originId
  }

  function SiteNode(naming: Naming, domain: string): string {
    "site:" + naming.site(domain)
  }

  function Said(naming: Naming, claim: Claim): string {
    "said:" + naming.speaker(claim.attributedTo)
  }

  predicate HasSite(claim: Claim, documents: map<string, Document>) {
    claim.docId in documents && documents[claim.docId].domain != ""
  }

  // The origin of a claim belongs with the publisher of its page, if the page is known and has a domain.
  ghost function Published(members: seq<Claim>, documents: map<string, Document>, naming: Naming): set<Edge> {
    set c | c in members && c.docId in documents && documents[c.docId].domain != "" :: (Node(c), SiteNode(naming, documents[c.docId].domain))
  }

  predicate ByOrigin(a: Claim, b: Claim) {
    AtMost(a.originId, b.originId)
  }

  // The first speaker named in the group of `node`.
  ghost function Speaker(sorted: seq<Claim>, edges: set<Edge>, naming: Naming, node: string): Option<string> {
    if sorted == [] then None
    else
      var earlier := Speaker(sorted[..|sorted| - 1], edges, naming, node);
      var last := sorted[|sorted| - 1];
      if earlier.None? && last.attributedTo != "" && Connected(edges, node, Node(last)) then Some(Said(naming, last)) else earlier
  }

  ghost function FirstOrigin(sorted: seq<Claim>, edges: set<Edge>, node: string): Option<string> {
    if sorted == [] then None
    else
      var earlier := FirstOrigin(sorted[..|sorted| - 1], edges, node);
      var last := sorted[|sorted| - 1];
      if earlier.None? && Connected(edges, node, Node(last)) then Some(last.originId) else earlier
  }

  ghost function Key(sorted: seq<Claim>, edges: set<Edge>, naming: Naming, node: string): Option<string> {
    var speaker := Speaker(sorted, edges, naming, node);
    if speaker.Some? then speaker else FirstOrigin(sorted, edges, node)
  }

  // --- the code ---

  method JoinPublishers(members: seq<Claim>, documents: map<string, Document>, naming: Naming) returns (groups: Groups)
    ensures groups.Valid() && fresh(groups) && groups.edges == Published(members, documents, naming)
  {
    groups := new Groups();
    for i := 0 to |members|
      invariant groups.Valid() && groups.edges == Published(members[..i], documents, naming)
    {
      assert members[..i + 1] == members[..i] + [members[i]];
      if HasSite(members[i], documents) {
        groups.Join(Node(members[i]), SiteNode(naming, documents[members[i].docId].domain));
      } else {
        var _ := groups.Find(Node(members[i]));
      }
    }
    assert members[..|members|] == members;
  }

  // `keys` answers for the last member with each id.
  ghost predicate Assigned(members: seq<Claim>, key: string -> Option<string>, keys: map<string, string>) {
    && (forall id :: id in keys <==> exists i :: 0 <= i < |members| && members[i].id == id)
    && (forall i | 0 <= i < |members| && IsLast(members, i) :: members[i].id in keys && Some(keys[members[i].id]) == key(Node(members[i])))
  }

  ghost predicate IsLast(members: seq<Claim>, i: nat)
    requires i < |members|
  {
    forall j | i < j < |members| :: members[j].id != members[i].id
  }

  lemma AssignStep(members: seq<Claim>, i: nat, key: string -> Option<string>, keys: map<string, string>, value: string)
    requires i < |members| && Assigned(members[..i], key, keys) && Some(value) == key(Node(members[i]))
    ensures Assigned(members[..i + 1], key, keys[members[i].id := value])
  {
    var was, now := members[..i], members[..i + 1];
    var more := keys[members[i].id := value];
    assert now[i] == members[i];
    forall id ensures id in more <==> exists k :: 0 <= k < |now| && now[k].id == id {
      if k :| 0 <= k < |was| && was[k].id == id { assert now[k].id == id; }
      if k :| 0 <= k < |now| && now[k].id == id { assert k == i || was[k].id == id; }
    }
    forall k | 0 <= k < |now| && IsLast(now, k) ensures now[k].id in more && Some(more[now[k].id]) == key(Node(now[k])) {
      if k < i {
        assert now[i].id != now[k].id && was[k] == now[k];
        assert IsLast(was, k) by {
          forall j | k < j < |was| ensures was[j].id != was[k].id { assert now[j].id != now[k].id; }
        }
      }
    }
  }

  ghost function KeyIn(members: seq<Claim>, documents: map<string, Document>, naming: Naming): string -> Option<string> {
    node => Key(Sort(members, ByOrigin), Published(members, documents, naming), naming, node)
  }

  // `groupKey` holds the key of every named group under its root.
  ghost predicate Names(groupKey: map<string, string>, parent: map<string, string>, key: string -> Option<string>)
    requires Forest(parent)
  {
    forall node :: key(node) == if Root(parent, node) in groupKey then Some(groupKey[Root(parent, node)]) else None
  }

  method AssignKeys(groups: Groups, groupKey: map<string, string>, members: seq<Claim>, ghost key: string -> Option<string>)
    returns (keys: map<string, string>)
    requires groups.Valid() && Names(groupKey, groups.parent, key)
    requires forall c | c in members :: key(Node(c)).Some?
    ensures Assigned(members, key, keys)
  {
    keys := map[];
    for i := 0 to |members|
      invariant Assigned(members[..i], key, keys)
    {
      var group := groups.Find(Node(members[i]));
      assert key(Node(members[i])).Some?;
      AssignStep(members, i, key, keys, groupKey[group]);
      keys := keys[members[i].id := groupKey[group]];
    }
    assert members[..|members|] == members;
  }

  method IndependentOriginKeys(members: seq<Claim>, documents: map<string, Document>, naming: Naming) returns (keys: map<string, string>)
    ensures Assigned(members, KeyIn(members, documents, naming), keys)
  {
    var groups := JoinPublishers(members, documents, naming);
    var sorted := Sort(members, ByOrigin);
    var groupKey := NameGroups(groups, sorted, naming);
    ghost var key := KeyIn(members, documents, naming);
    forall c | c in members ensures key(Node(c)).Some? {
      SortElements(members, ByOrigin);
      EveryMemberIsNamed(sorted, groups.edges, naming, c);
    }
    keys := AssignKeys(groups, groupKey, members, key);
  }

  lemma Grow(s: seq<Claim>, i: nat)
    requires i < |s|
    ensures s[..i + 1][..i] == s[..i] && s[..i + 1][i] == s[i] && |s[..i + 1]| == i + 1
  {
  }

  // Two passes in origin order: speakers first, then origin ids for the groups without one.
  method NameGroups(groups: Groups, sorted: seq<Claim>, naming: Naming) returns (groupKey: map<string, string>)
    requires groups.Valid()
    ensures forall node ::
      Key(sorted, groups.edges, naming, node)
      == if Root(groups.parent, node) in groupKey then Some(groupKey[Root(groups.parent, node)]) else None
  {
    groupKey := map[];
    for i := 0 to |sorted|
      invariant forall node ::
        Speaker(sorted[..i], groups.edges, naming, node)
        == if Root(groups.parent, node) in groupKey then Some(groupKey[Root(groups.parent, node)]) else None
    {
      Grow(sorted, i);
      var group := groups.Find(Node(sorted[i]));
      if sorted[i].attributedTo != "" && group !in groupKey {
        groupKey := groupKey[group := Said(naming, sorted[i])];
      }
    }
    assert sorted[..|sorted|] == sorted;
    for i := 0 to |sorted|
      invariant forall node ::
        (var speaker := Speaker(sorted, groups.edges, naming, node);
         if speaker.Some? then speaker else FirstOrigin(sorted[..i], groups.edges, node))
        == if Root(groups.parent, node) in groupKey then Some(groupKey[Root(groups.parent, node)]) else None
    {
      Grow(sorted, i);
      var group := groups.Find(Node(sorted[i]));
      if group !in groupKey {
        groupKey := groupKey[group := sorted[i].originId];
      }
    }
  }

  // --- what the keys mean ---

  lemma {:induction false} FirstOriginFrom(sorted: seq<Claim>, edges: set<Edge>, node: string) returns (c: Claim)
    requires FirstOrigin(sorted, edges, node).Some?
    ensures c in sorted && Connected(edges, node, Node(c)) && FirstOrigin(sorted, edges, node) == Some(c.originId)
  {
    if FirstOrigin(sorted[..|sorted| - 1], edges, node).Some? {
      c := FirstOriginFrom(sorted[..|sorted| - 1], edges, node);
    } else {
      c := sorted[|sorted| - 1];
    }
  }

  lemma {:induction false} FirstOriginExists(sorted: seq<Claim>, edges: set<Edge>, node: string, c: Claim)
    requires c in sorted && Connected(edges, node, Node(c))
    ensures FirstOrigin(sorted, edges, node).Some?
  {
    if c != sorted[|sorted| - 1] {
      assert sorted == sorted[..|sorted| - 1] + [sorted[|sorted| - 1]];
      FirstOriginExists(sorted[..|sorted| - 1], edges, node, c);
    }
  }

  lemma EveryMemberIsNamed(sorted: seq<Claim>, edges: set<Edge>, naming: Naming, c: Claim)
    requires c in sorted
    ensures Key(sorted, edges, naming, Node(c)).Some?
  {
    ConnectedToItself(edges, Node(c));
    FirstOriginExists(sorted, edges, Node(c), c);
  }

  // In sorted order the first origin of a group is its least.
  lemma {:induction false} FirstOriginIsLeast(sorted: seq<Claim>, edges: set<Edge>, node: string, c: Claim)
    requires Pairwise(sorted, ByOrigin) && c in sorted && Connected(edges, node, Node(c))
    ensures FirstOrigin(sorted, edges, node).Some? && AtMost(FirstOrigin(sorted, edges, node).value, c.originId)
  {
    var front, last := sorted[..|sorted| - 1], sorted[|sorted| - 1];
    assert sorted == front + [last];
    if c in front {
      FirstOriginIsLeast(front, edges, node, c);
    } else if FirstOrigin(front, edges, node).Some? {
      var first := FirstOriginFrom(front, edges, node);
      BelowLast(sorted, first);
    }
  }

  lemma BelowLast(sorted: seq<Claim>, c: Claim)
    requires sorted != [] && Pairwise(sorted, ByOrigin) && c in sorted[..|sorted| - 1]
    ensures ByOrigin(c, sorted[|sorted| - 1])
  {
    var i :| 0 <= i < |sorted| - 1 && sorted[i] == c;
  }

  lemma {:induction false} SameGroupSameNames(sorted: seq<Claim>, edges: set<Edge>, naming: Naming, a: string, b: string)
    requires Connected(edges, a, b)
    ensures Speaker(sorted, edges, naming, a) == Speaker(sorted, edges, naming, b)
    ensures FirstOrigin(sorted, edges, a) == FirstOrigin(sorted, edges, b)
  {
    if sorted != [] {
      var last := Node(sorted[|sorted| - 1]);
      SameGroupSameNames(sorted[..|sorted| - 1], edges, naming, a, b);
      ConnectedIsSymmetric(edges, a, b);
      if Connected(edges, a, last) { ConnectedThrough(edges, b, a, last); }
      if Connected(edges, b, last) { ConnectedThrough(edges, a, b, last); }
    }
  }

  // One key exactly for claims linked by shared origins and sites, for groups quoting the same
  // speaker, and for a group without a speaker whose least origin id spells another's speaker key.
  lemma SharedKey(sorted: seq<Claim>, edges: set<Edge>, naming: Naming, c: Claim, d: Claim)
    requires c in sorted && d in sorted
    ensures var s, t := Speaker(sorted, edges, naming, Node(c)), Speaker(sorted, edges, naming, Node(d));
      Key(sorted, edges, naming, Node(c)) == Key(sorted, edges, naming, Node(d)) <==>
        || Connected(edges, Node(c), Node(d))
        || (s.Some? && s == t)
        || (s.Some? && t.None? && s == FirstOrigin(sorted, edges, Node(d)))
        || (t.Some? && s.None? && t == FirstOrigin(sorted, edges, Node(c)))
  {
    EveryMemberIsNamed(sorted, edges, naming, c);
    EveryMemberIsNamed(sorted, edges, naming, d);
    if Connected(edges, Node(c), Node(d)) { SameGroupSameNames(sorted, edges, naming, Node(c), Node(d)); }
    var s, t := Speaker(sorted, edges, naming, Node(c)), Speaker(sorted, edges, naming, Node(d));
    if s.None? && t.None? && Key(sorted, edges, naming, Node(c)) == Key(sorted, edges, naming, Node(d)) {
      var a := FirstOriginFrom(sorted, edges, Node(c));
      var b := FirstOriginFrom(sorted, edges, Node(d));
      ConnectedIsSymmetric(edges, Node(d), Node(b));
      ConnectedThrough(edges, Node(c), Node(a), Node(d));
    }
  }

  lemma {:induction false} SpeakerIsSaid(sorted: seq<Claim>, edges: set<Edge>, naming: Naming, node: string)
    ensures var s := Speaker(sorted, edges, naming, node); s.Some? ==> "said:" <= s.value
  {
    if sorted != [] { SpeakerIsSaid(sorted[..|sorted| - 1], edges, naming, node); }
  }

  // Origin ids that do not look like speaker keys leave only the two intended reasons.
  lemma SharedKeyMeansOneVoice(sorted: seq<Claim>, edges: set<Edge>, naming: Naming, c: Claim, d: Claim)
    requires c in sorted && d in sorted && forall m | m in sorted :: !("said:" <= m.originId)
    ensures Key(sorted, edges, naming, Node(c)) == Key(sorted, edges, naming, Node(d)) <==>
        || Connected(edges, Node(c), Node(d))
        || (Speaker(sorted, edges, naming, Node(c)).Some? && Speaker(sorted, edges, naming, Node(c)) == Speaker(sorted, edges, naming, Node(d)))
  {
    SharedKey(sorted, edges, naming, c, d);
    forall m | m in {c, d} ensures FirstOrigin(sorted, edges, Node(m)).Some? && !("said:" <= FirstOrigin(sorted, edges, Node(m)).value) {
      ConnectedToItself(edges, Node(m));
      FirstOriginExists(sorted, edges, Node(m), m);
      var first := FirstOriginFrom(sorted, edges, Node(m));
    }
    SpeakerIsSaid(sorted, edges, naming, Node(c));
    SpeakerIsSaid(sorted, edges, naming, Node(d));
  }

  // --- support ---

  ghost function Voices(sorted: seq<Claim>, edges: set<Edge>, naming: Naming): set<Option<string>> {
    set c | c in sorted :: Key(sorted, edges, naming, Node(c))
  }

  function OriginIds(members: seq<Claim>): set<string> {
    set c | c in members :: c.originId
  }

  function SitesOf(members: seq<Claim>, documents: map<string, Document>, naming: Naming): set<string> {
    set c | c in members && HasSite(c, documents) :: SiteNode(naming, documents[c.docId].domain)
  }

  lemma SupportWithinOrigins(sorted: seq<Claim>, edges: set<Edge>, naming: Naming)
    ensures |Voices(sorted, edges, naming)| <= |OriginIds(sorted)|
  {
    forall key | key in Voices(sorted, edges, naming)
      ensures exists o :: o in OriginIds(sorted) && key == Key(sorted, edges, naming, "origin:" + o)
    {
      var c :| c in sorted && key == Key(sorted, edges, naming, Node(c));
      assert c.originId in OriginIds(sorted);
    }
    ImageSize(Voices(sorted, edges, naming), OriginIds(sorted), (o: string, key) => key == Key(sorted, edges, naming, "origin:" + o));
  }

  // Four pages of one site are one voice.
  lemma SupportWithinSites(sorted: seq<Claim>, documents: map<string, Document>, naming: Naming)
    requires forall c | c in sorted :: HasSite(c, documents)
    ensures |Voices(sorted, Published(sorted, documents, naming), naming)| <= |SitesOf(sorted, documents, naming)|
  {
    var edges := Published(sorted, documents, naming);
    forall c | c in sorted
      ensures Key(sorted, edges, naming, Node(c)) == Key(sorted, edges, naming, SiteNode(naming, documents[c.docId].domain))
      ensures SiteNode(naming, documents[c.docId].domain) in SitesOf(sorted, documents, naming)
    {
      OneStep(edges, Node(c), SiteNode(naming, documents[c.docId].domain));
      SameGroupSameNames(sorted, edges, naming, Node(c), SiteNode(naming, documents[c.docId].domain));
    }
    ImageSize(Voices(sorted, edges, naming), SitesOf(sorted, documents, naming), (site: string, key) => key == Key(sorted, edges, naming, site));
  }
}
