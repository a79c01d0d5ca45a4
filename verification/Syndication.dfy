/** Pages that share long verbatim quotes are copies of one text and get one origin. */
module Syndication {
  import opened Sets
  import opened NameOrder
  import opened UnionFind
  import opened Evidence

  // `phrase` is the quote's words joined by spaces, `length` their number.
  datatype Quoting = Quoting(phrase: string -> string, length: string -> nat, minShared: int, minWords: int)

  predicate Counts(quoting: Quoting, documents: map<string, Document>, claim: Claim) {
    quoting.length(claim.quote) >= quoting.minWords && claim.docId in documents
  }

  ghost predicate Holds(quoting: Quoting, documents: map<string, Document>, claims: seq<Claim>, q: string, origin: string) {
    exists c :: c in claims && quoting.length(c.quote) >= quoting.minWords && quoting.phrase(c.quote) == q
      && c.docId in documents && documents[c.docId].originId == origin
  }

  // The long quotes found in pages of both origins.
  ghost function Shared(quoting: Quoting, documents: map<string, Document>, claims: seq<Claim>, x: string, y: string): set<string> {
    set c | c in claims && quoting.length(c.quote) >= quoting.minWords && c.docId in documents
      && Holds(quoting, documents, claims, quoting.phrase(c.quote), x) && Holds(quoting, documents, claims, quoting.phrase(c.quote), y)
      :: quoting.phrase(c.quote)
  }

  function Origins(documents: map<string, Document>): set<string> {
    set d | d in documents :: documents[d].originId
  }

  ghost predicate Copies(quoting: Quoting, documents: map<string, Document>, claims: seq<Claim>, x: string, y: string) {
    Before(x, y) && Shared(quoting, documents, claims, x, y) != {} && |Shared(quoting, documents, claims, x, y)| >= quoting.minShared
  }

  ghost function Graph(quoting: Quoting, documents: map<string, Document>, claims: seq<Claim>): set<Edge> {
    set x, y | x in Origins(documents) && y in Origins(documents) && Copies(quoting, documents, claims, x, y) :: (x, y)
  }

  ghost predicate IsLeast(edges: set<Edge>, node: string, least: string) {
    Connected(edges, node, least) && forall other | Connected(edges, node, other) :: AtMost(least, other)
  }

  function Moved(moved: map<string, string>, origin: string): string {
    if origin in moved then moved[origin] else origin
  }

  // --- counting the shared quotes ---

  ghost predicate Held(holders: map<string, set<string>>, q: string, origin: string) {
    q in holders && origin in holders[q]
  }

  lemma HoldsGrows(quoting: Quoting, documents: map<string, Document>, claims: seq<Claim>, c: Claim, q: string, origin: string)
    ensures Holds(quoting, documents, claims + [c], q, origin) <==>
      Holds(quoting, documents, claims, q, origin)
      || (Counts(quoting, documents, c) && quoting.phrase(c.quote) == q && documents[c.docId].originId == origin)
  {
    assert c in claims + [c];
  }

  method CollectHolders(quoting: Quoting, documents: map<string, Document>, claims: seq<Claim>) returns (holders: map<string, set<string>>)
    ensures forall q, o :: Held(holders, q, o) <==> Holds(quoting, documents, claims, q, o)
  {
    holders := map[];
    for i := 0 to |claims|
      invariant forall q, o :: Held(holders, q, o) <==> Holds(quoting, documents, claims[..i], q, o)
    {
      var c := claims[i];
      assert claims[..i + 1] == claims[..i] + [c];
      ghost var was := holders;
      if Counts(quoting, documents, c) {
        var q := quoting.phrase(c.quote);
        holders := holders[q := (if q in holders then holders[q] else {}) + {documents[c.docId].originId}];
      }
      forall q, o ensures Held(holders, q, o) <==> Holds(quoting, documents, claims[..i + 1], q, o) {
        HoldsGrows(quoting, documents, claims[..i], c, q, o);
        assert Held(was, q, o) <==> Holds(quoting, documents, claims[..i], q, o);
      }
    }
    assert claims[..|claims|] == claims;
  }

  ghost function Common(holders: map<string, set<string>>, done: set<string>, pair: Edge): set<string> {
    set q | q in done && Held(holders, q, pair.0) && Held(holders, q, pair.1)
  }

  function Tally(shared: map<Edge, nat>, pair: Edge): nat {
    if pair in shared then shared[pair] else 0
  }

  ghost predicate Tallied(holders: map<string, set<string>>, done: set<string>, shared: map<Edge, nat>, extra: set<Edge>) {
    && (forall pair :: Tally(shared, pair) ==
          if Before(pair.0, pair.1) then |Common(holders, done, pair)| + (if pair in extra then 1 else 0) else 0)
    && (forall pair | pair in shared :: shared[pair] > 0)
  }

  function Pairs(origins: set<string>): set<Edge> {
    set x, y | x in origins && y in origins && Before(x, y) :: (x, y)
  }

  method CountShared(holders: map<string, set<string>>) returns (shared: map<Edge, nat>)
    ensures Tallied(holders, holders.Keys, shared, {})
  {
    shared := map[];
    ghost var done: set<string> := {};
    var todo := holders.Keys;
    while todo != {}
      invariant done + todo == holders.Keys && done !! todo
      invariant Tallied(holders, done, shared, {})
    {
      var q :| q in todo;
      shared := CountPairs(holders, q, shared, done);
      todo := todo - {q};
      done := done + {q};
    }
  }

  method CountPairs(holders: map<string, set<string>>, q: string, shared: map<Edge, nat>, ghost done: set<string>) returns (more: map<Edge, nat>)
    requires q in holders && q !in done && Tallied(holders, done, shared, {})
    ensures Tallied(holders, done + {q}, more, {})
  {
    more := shared;
    var pairs := Pairs(holders[q]);
    var todo := pairs;
    while todo != {}
      invariant todo <= pairs
      invariant Tallied(holders, done, more, pairs - todo)
    {
      var pair :| pair in todo;
      ghost var extra := pairs - todo;
      more := more[pair := Tally(more, pair) + 1];
      todo := todo - {pair};
      assert pairs - todo == extra + {pair};
    }
    forall pair: Edge | Before(pair.0, pair.1)
      ensures |Common(holders, done + {q}, pair)| == |Common(holders, done, pair)| + if pair in pairs then 1 else 0
    {
      CommonGrows(holders, done, q, pair);
    }
  }

  lemma CommonGrows(holders: map<string, set<string>>, done: set<string>, q: string, pair: Edge)
    requires q in holders && q !in done && Before(pair.0, pair.1)
    ensures |Common(holders, done + {q}, pair)| == |Common(holders, done, pair)| + if pair in Pairs(holders[q]) then 1 else 0
  {
    assert Common(holders, done + {q}, pair) ==
      Common(holders, done, pair) + if Held(holders, q, pair.0) && Held(holders, q, pair.1) then {q} else {};
    assert pair in Pairs(holders[q]) <==> Held(holders, q, pair.0) && Held(holders, q, pair.1);
  }

  function Enough(shared: map<Edge, nat>, minShared: int): set<Edge> {
    set pair | pair in shared && shared[pair] >= minShared
  }

  // The pairs are joined in whatever order they come.
  method JoinCopies(shared: map<Edge, nat>, minShared: int) returns (groups: Groups)
    ensures fresh(groups) && groups.Valid() && groups.edges == Enough(shared, minShared)
  {
    groups := new Groups();
    var todo := Enough(shared, minShared);
    ghost var all := todo;
    while todo != {}
      invariant groups.Valid() && todo <= all && groups.edges == all - todo
    {
      var pair :| pair in todo;
      groups.Join(pair.0, pair.1);
      todo := todo - {pair};
    }
  }

  lemma EnoughIsGraph(quoting: Quoting, documents: map<string, Document>, claims: seq<Claim>, holders: map<string, set<string>>, shared: map<Edge, nat>)
    requires forall q, o :: Held(holders, q, o) <==> Holds(quoting, documents, claims, q, o)
    requires Tallied(holders, holders.Keys, shared, {})
    ensures Enough(shared, quoting.minShared) == Graph(quoting, documents, claims)
  {
    forall pair: Edge ensures pair in Enough(shared, quoting.minShared) <==> pair in Graph(quoting, documents, claims) {
      var common := Common(holders, holders.Keys, pair);
      SharedIsCommon(quoting, documents, claims, holders, pair);
      assert Tally(shared, pair) == if Before(pair.0, pair.1) then |common| else 0;
      if common != {} {
        var q :| q in common;
        assert Holds(quoting, documents, claims, q, pair.0) && Holds(quoting, documents, claims, q, pair.1);
        assert pair.0 in Origins(documents) && pair.1 in Origins(documents);
        assert pair == (pair.0, pair.1);
      }
    }
  }

  lemma SharedIsCommon(quoting: Quoting, documents: map<string, Document>, claims: seq<Claim>, holders: map<string, set<string>>, pair: Edge)
    requires forall q, o :: Held(holders, q, o) <==> Holds(quoting, documents, claims, q, o)
    ensures Common(holders, holders.Keys, pair) == Shared(quoting, documents, claims, pair.0, pair.1)
  {
    var common, shared := Common(holders, holders.Keys, pair), Shared(quoting, documents, claims, pair.0, pair.1);
    forall q ensures q in common <==> q in shared {
      if q in common {
        var c :| c in claims && Counts(quoting, documents, c) && quoting.phrase(c.quote) == q && documents[c.docId].originId == pair.0;
        assert Holds(quoting, documents, claims, q, pair.0) && Holds(quoting, documents, claims, q, pair.1);
      }
      if q in shared {
        assert Held(holders, q, pair.0) && Held(holders, q, pair.1);
      }
    }
  }

  // --- the merge ---

  // A claim carries the origin of its document.
  ghost predicate Consistent(documents: map<string, Document>, claims: seq<Claim>) {
    forall i | 0 <= i < |claims| :: claims[i].docId in documents ==> claims[i].originId == documents[claims[i].docId].originId
  }

  // Every document and claim is under the least origin of its component of copies, and otherwise as it was.
  ghost predicate Merged(quoting: Quoting, documents: map<string, Document>, claims: seq<Claim>, moved: map<string, string>,
                         later: map<string, Document>, after: seq<Claim>) {
    && (forall o :: IsLeast(Graph(quoting, documents, claims), o, Moved(moved, o)))
    && later.Keys == documents.Keys && |after| == |claims|
    && (forall d | d in later :: later[d] == documents[d].(originId := Moved(moved, documents[d].originId)))
    && (forall i | 0 <= i < |after| :: after[i] == claims[i].(originId := Moved(moved, claims[i].originId)))
  }

  lemma RootsAreLeast(parent: map<string, string>, edges: set<Edge>, moved: map<string, string>)
    requires Forest(parent) && Sound(parent, edges)
    requires moved == map o | o in parent && Root(parent, o) != o :: Root(parent, o)
    ensures forall o :: IsLeast(edges, o, Moved(moved, o))
  {
    forall o ensures IsLeast(edges, o, Moved(moved, o)) {
      assert Moved(moved, o) == Root(parent, o);
      RootIsConnected(parent, edges, o);
      forall other | Connected(edges, o, other) ensures AtMost(Root(parent, o), other) {
        RootIsLeast(parent, edges, o, other);
      }
    }
  }

  lemma Moves(quoting: Quoting, documents: map<string, Document>, claims: seq<Claim>, moved: map<string, string>)
    requires forall o :: IsLeast(Graph(quoting, documents, claims), o, Moved(moved, o))
    ensures Merged(quoting, documents, claims, moved,
                   map d | d in documents :: documents[d].(originId := Moved(moved, documents[d].originId)),
                   seq(|claims|, i requires 0 <= i < |claims| => claims[i].(originId := Moved(moved, claims[i].originId))))
    ensures moved == map[] ==> Merged(quoting, documents, claims, moved, documents, claims)
  {
  }

  class Library {
    var documents: map<string, Document>
    var claims: seq<Claim>

    constructor (documents: map<string, Document>, claims: seq<Claim>)
      ensures this.documents == documents && this.claims == claims
    {
      this.documents, this.claims := documents, claims;
    }

    method MergeSyndicatedOrigins(quoting: Quoting) returns (moved: map<string, string>)
      modifies this
      ensures Merged(quoting, old(documents), old(claims), moved, documents, claims) && forall o | o in moved :: moved[o] != o
    {
      var holders := CollectHolders(quoting, documents, claims);
      var shared := CountShared(holders);
      var groups := JoinCopies(shared, quoting.minShared);
      EnoughIsGraph(quoting, documents, claims, holders, shared);
      moved := map o | o in groups.parent && Root(groups.parent, o) != o :: Root(groups.parent, o);
      RootsAreLeast(groups.parent, groups.edges, moved);
      Moves(quoting, documents, claims, moved);
      if moved != map[] {
        documents := map d | d in documents :: documents[d].(originId := Moved(moved, documents[d].originId));
        claims := seq(|claims|, i requires 0 <= i < |claims| reads this => claims[i].(originId := Moved(moved, claims[i].originId)));
      }
    }
  }

  // --- what the merge means ---

  // The result depends on which claims there are, not on the order they came in.
  lemma OrderDoesNotMatter(quoting: Quoting, documents: map<string, Document>, claims: seq<Claim>, others: seq<Claim>)
    requires forall c :: c in claims <==> c in others
    ensures Graph(quoting, documents, claims) == Graph(quoting, documents, others)
  {
    forall q, o ensures Holds(quoting, documents, claims, q, o) <==> Holds(quoting, documents, others, q, o) {}
    forall x, y ensures Shared(quoting, documents, claims, x, y) == Shared(quoting, documents, others, x, y) {}
  }

  lemma LeastIsUnique(edges: set<Edge>, node: string, a: string, b: string)
    requires IsLeast(edges, node, a) && IsLeast(edges, node, b)
    ensures a == b
  {
    if a != b {
      BeforeIsTransitive(a, b, a);
      BeforeIsStrict(a);
    }
  }

  // Two merges of the same evidence, in any order, move every origin to the same place.
  lemma MergeIsDetermined(quoting: Quoting, documents: map<string, Document>, claims: seq<Claim>, others: seq<Claim>,
                          moved: map<string, string>, also: map<string, string>, origin: string)
    requires forall c :: c in claims <==> c in others
    requires IsLeast(Graph(quoting, documents, claims), origin, Moved(moved, origin))
    requires IsLeast(Graph(quoting, documents, others), origin, Moved(also, origin))
    ensures Moved(moved, origin) == Moved(also, origin)
  {
    OrderDoesNotMatter(quoting, documents, claims, others);
    LeastIsUnique(Graph(quoting, documents, claims), origin, Moved(moved, origin), Moved(also, origin));
  }

  // Two origins become one exactly when a chain of copies links them.
  lemma MergedIffCopies(edges: set<Edge>, a: string, b: string, x: string, y: string)
    requires IsLeast(edges, a, x) && IsLeast(edges, b, y)
    ensures x == y <==> Connected(edges, a, b)
  {
    if x == y {
      ConnectedIsSymmetric(edges, b, x);
      ConnectedThrough(edges, a, x, b);
    }
    if Connected(edges, a, b) {
      ConnectedIsSymmetric(edges, a, b);
      ConnectedThrough(edges, b, a, x);
      ConnectedThrough(edges, a, b, y);
      if x != y {
        BeforeIsTransitive(x, y, x);
        BeforeIsStrict(x);
      }
    }
  }

  // No merge invents an origin, so there are never more of them afterwards.
  lemma OriginsNeverGrow(before: map<string, Document>, after: map<string, Document>, moved: map<string, string>)
    requires after.Keys == before.Keys
    requires forall d | d in before :: after[d].originId == Moved(moved, before[d].originId)
    ensures |Origins(after)| <= |Origins(before)|
  {
    forall o | o in Origins(after) ensures exists p :: p in Origins(before) && o == Moved(moved, p) {
      var d :| d in after && after[d].originId == o;
      assert before[d].originId in Origins(before);
    }
    ImageSize(Origins(after), Origins(before), (p, o) => o == Moved(moved, p));
  }

  lemma ClaimsFollowDocuments(before: map<string, Document>, after: map<string, Document>, claims: seq<Claim>, later: seq<Claim>, moved: map<string, string>)
    requires Consistent(before, claims) && after.Keys == before.Keys && |later| == |claims|
    requires forall d | d in before :: after[d].originId == Moved(moved, before[d].originId)
    requires forall i | 0 <= i < |claims| :: later[i] == claims[i].(originId := Moved(moved, claims[i].originId))
    ensures Consistent(after, later)
  {
    forall i | 0 <= i < |later| && later[i].docId in after ensures later[i].originId == after[later[i].docId].originId {
      assert claims[i].docId in before;
    }
  }
}
