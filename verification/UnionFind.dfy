/** A union-find whose representative is the least member of each group, and what it computes. */
module UnionFind {
  import opened Sets
  import opened NameOrder

  type Edge = (string, string)

  // --- connection in a graph ---

  predicate Adjacent(edges: set<Edge>, a: string, b: string) {
    (a, b) in edges || (b, a) in edges
  }

  ghost predicate Chain(edges: set<Edge>, chain: seq<string>) {
    chain != [] && forall i | 0 <= i < |chain| - 1 :: Adjacent(edges, chain[i], chain[i + 1])
  }

  ghost predicate Joins(edges: set<Edge>, chain: seq<string>, a: string, b: string) {
    Chain(edges, chain) && chain[0] == a && chain[|chain| - 1] == b
  }

  ghost predicate Connected(edges: set<Edge>, a: string, b: string) {
    exists chain :: Joins(edges, chain, a, b)
  }

  lemma ConnectedToItself(edges: set<Edge>, a: string)
    ensures Connected(edges, a, a)
  {
    assert Joins(edges, [a], a, a);
  }

  lemma OneStep(edges: set<Edge>, a: string, b: string)
    requires Adjacent(edges, a, b)
    ensures Connected(edges, a, b)
  {
    assert Joins(edges, [a, b], a, b);
  }

  lemma ConnectedThrough(edges: set<Edge>, a: string, b: string, c: string)
    requires Connected(edges, a, b) && Connected(edges, b, c)
    ensures Connected(edges, a, c)
  {
    var left :| Joins(edges, left, a, b);
    var right :| Joins(edges, right, b, c);
    var chain := left + right[1..];
    forall i | 0 <= i < |chain| - 1 ensures Adjacent(edges, chain[i], chain[i + 1]) {
      if i >= |left| - 1 { assert chain[i] == right[i - |left| + 1] && chain[i + 1] == right[i - |left| + 2]; }
    }
    assert Joins(edges, chain, a, c);
  }

  lemma {:induction false} Backwards(edges: set<Edge>, chain: seq<string>, a: string, b: string)
    requires Joins(edges, chain, a, b)
    ensures Connected(edges, b, a)
    decreases |chain|
  {
    if |chain| == 1 {
      ConnectedToItself(edges, a);
    } else {
      assert Joins(edges, chain[1..], chain[1], b);
      Backwards(edges, chain[1..], chain[1], b);
      OneStep(edges, chain[1], a);
      ConnectedThrough(edges, b, chain[1], a);
    }
  }

  lemma ConnectedIsSymmetric(edges: set<Edge>, a: string, b: string)
    requires Connected(edges, a, b)
    ensures Connected(edges, b, a)
  {
    var chain :| Joins(edges, chain, a, b);
    Backwards(edges, chain, a, b);
  }

  lemma MoreEdges(edges: set<Edge>, more: set<Edge>, a: string, b: string)
    requires Connected(edges, a, b) && edges <= more
    ensures Connected(more, a, b)
  {
    var chain :| Joins(edges, chain, a, b);
    assert Joins(more, chain, a, b);
  }

  // A labelling that respects every edge is constant on every component.
  lemma {:induction false} SameOnChain(edges: set<Edge>, tag: string -> string, chain: seq<string>)
    requires Chain(edges, chain) && forall e | e in edges :: tag(e.0) == tag(e.1)
    ensures tag(chain[0]) == tag(chain[|chain| - 1])
    decreases |chain|
  {
    if |chain| > 1 {
      assert Adjacent(edges, chain[0], chain[1]);
      SameOnChain(edges, tag, chain[1..]);
    }
  }

  // --- parents ---

  ghost predicate Forest(parent: map<string, string>) {
    forall n | n in parent :: Before(parent[n], n)
  }

  ghost function Keys(parent: map<string, string>, node: string): set<string> {
    set n | n in parent && AtMost(n, node)
  }

  lemma ParentsFall(parent: map<string, string>, node: string)
    requires Forest(parent) && node in parent
    ensures |Keys(parent, parent[node])| < |Keys(parent, node)|
  {
    var under, over := Keys(parent, parent[node]), Keys(parent, node);
    forall n | n in under ensures n in over {
      if n != parent[node] { BeforeIsTransitive(n, parent[node], node); }
    }
    assert node !in under by {
      if Before(node, parent[node]) { BeforeIsTransitive(node, parent[node], node); }
      BeforeIsStrict(node);
    }
    assert node in over;
    Smaller(under, over, node);
  }

  lemma Smaller(under: set<string>, over: set<string>, x: string)
    requires under <= over && x in over && x !in under
    ensures |under| < |over|
  {
    var rest := over - {x};
    assert over == rest + {x} && under <= rest;
    SubsetSize(under, rest);
  }

  function Root(parent: map<string, string>, node: string): string
    requires Forest(parent)
    decreases |Keys(parent, node)|
  {
    if node in parent then
      ParentsFall(parent, node);
      Root(parent, parent[node])
    else node
  }

  lemma {:induction false} RootIsLow(parent: map<string, string>, node: string)
    requires Forest(parent)
    ensures Root(parent, node) !in parent && AtMost(Root(parent, node), node)
    decreases |Keys(parent, node)|
  {
    if node in parent {
      ParentsFall(parent, node);
      RootIsLow(parent, parent[node]);
      if Root(parent, node) != parent[node] { BeforeIsTransitive(Root(parent, node), parent[node], node); }
    }
  }

  // Hanging one root under a smaller one renames it for its whole group and nobody else.
  lemma {:induction false} HangMoves(parent: map<string, string>, high: string, low: string, node: string)
    requires Forest(parent) && Before(low, high) && low !in parent && high !in parent
    ensures Forest(parent[high := low])
    ensures Root(parent[high := low], node) == if Root(parent, node) == high then low else Root(parent, node)
    decreases |Keys(parent, node)|
  {
    var hung := parent[high := low];
    BeforeIsStrict(high);
    if node in parent {
      ParentsFall(parent, node);
      HangMoves(parent, high, low, parent[node]);
    } else if node == high {
      assert Root(hung, node) == Root(hung, low);
    }
  }

  // Two names have the same root exactly when the edges connect them.
  ghost predicate Sound(parent: map<string, string>, edges: set<Edge>) {
    Forest(parent) && forall a, b :: Connected(edges, a, b) <==> Root(parent, a) == Root(parent, b)
  }

  lemma NothingJoined()
    ensures Sound(map[], {})
  {
    forall a, b ensures Connected({}, a, b) <==> a == b {
      if chain :| Joins({}, chain, a, b) { assert |chain| == 1 || Adjacent({}, chain[0], chain[1]); }
      ConnectedToItself({}, a);
    }
  }

  lemma RootIsConnected(parent: map<string, string>, edges: set<Edge>, node: string)
    requires Sound(parent, edges)
    ensures Connected(edges, node, Root(parent, node))
  {
    RootIsLow(parent, node);
  }

  // `Root` is the least name of its component.
  lemma RootIsLeast(parent: map<string, string>, edges: set<Edge>, node: string, other: string)
    requires Sound(parent, edges) && Connected(edges, node, other)
    ensures AtMost(Root(parent, node), other)
  {
    RootIsLow(parent, other);
  }

  lemma JoinSound(parent: map<string, string>, edges: set<Edge>, left: string, right: string, hung: map<string, string>)
    requires Sound(parent, edges)
    requires var a, b := Root(parent, left), Root(parent, right);
      hung == if a == b then parent else if Before(a, b) then parent[b := a] else parent[a := b]
    ensures Sound(hung, edges + {(left, right)})
  {
    var a, b := Root(parent, left), Root(parent, right);
    var more := edges + {(left, right)};
    RootIsLow(parent, left);
    RootIsLow(parent, right);
    BeforeIsTotal(a, b);
    var low, high := if Before(a, b) then a else b, if Before(a, b) then b else a;
    forall n
      ensures Forest(hung)
      ensures Root(hung, n) == if Root(parent, n) == high then low else Root(parent, n)
    {
      if a != b { HangMoves(parent, high, low, n); }
    }
    forall x, y ensures Connected(more, x, y) <==> Root(hung, x) == Root(hung, y) {
      if chain :| Joins(more, chain, x, y) {
        var tag := n => if Root(parent, n) == high then low else Root(parent, n);
        forall e | e in more ensures tag(e.0) == tag(e.1) {
          if e in edges { OneStep(edges, e.0, e.1); }
        }
        SameOnChain(more, tag, chain);
      }
      if Root(hung, x) == Root(hung, y) {
        Bridged(parent, edges, left, right, x, y);
      }
    }
  }

  lemma Bridged(parent: map<string, string>, edges: set<Edge>, left: string, right: string, x: string, y: string)
    requires Sound(parent, edges)
    requires var a, b := Root(parent, left), Root(parent, right);
      Root(parent, x) == Root(parent, y) || (Root(parent, x) in {a, b} && Root(parent, y) in {a, b})
    ensures Connected(edges + {(left, right)}, x, y)
  {
    var more := edges + {(left, right)};
    if Root(parent, x) == Root(parent, y) {
      MoreEdges(edges, more, x, y);
    } else {
      var near, far := if Root(parent, x) == Root(parent, left) then left else right, if Root(parent, x) == Root(parent, left) then right else left;
      OneStep(more, near, far);
      MoreEdges(edges, more, x, near);
      MoreEdges(edges, more, far, y);
      ConnectedThrough(more, x, near, far);
      ConnectedThrough(more, x, far, y);
    }
  }

  // --- the structure the code keeps ---

  class Groups {
    var parent: map<string, string>
    ghost var edges: set<Edge>

    ghost predicate Valid()
      reads this
    {
      Sound(parent, edges)
    }

    constructor ()
      ensures Valid() && edges == {} && parent == map[]
    {
      parent, edges := map[], {};
      new;
      NothingJoined();
    }

    // Follows parents until there is none; the answer is the least name connected to `node`.
    method Find(node: string) returns (r: string)
      requires Valid()
      ensures r == Root(parent, node)
      ensures Connected(edges, node, r) && forall other | Connected(edges, node, other) :: AtMost(r, other)
    {
      r := node;
      while r in parent
        invariant Root(parent, r) == Root(parent, node)
        decreases |Keys(parent, r)|
      {
        ParentsFall(parent, r);
        r := parent[r];
      }
      RootIsConnected(parent, edges, node);
      forall other | Connected(edges, node, other) ensures AtMost(r, other) { RootIsLeast(parent, edges, node, other); }
    }

    method Join(left: string, right: string)
      requires Valid()
      modifies this
      ensures Valid() && edges == old(edges) + {(left, right)}
    {
      var a := Find(left);
      var b := Find(right);
      ghost var was := parent;
      if a != b {
        if Before(a, b) {
          parent := parent[b := a];
        } else {
          parent := parent[a := b];
        }
      }
      JoinSound(was, edges, left, right, parent);
      edges := edges + {(left, right)};
    }
  }
}
