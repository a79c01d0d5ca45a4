/** A stable sort by a total preorder, as Python's `sorted` with a key. */
module Sorting {

  ghost predicate TotalPreorder<T(!new)>(leq: (T, T) -> bool) {
    && (forall x, y :: leq(x, y) || leq(y, x))
    && (forall x, y, z :: leq(x, y) && leq(y, z) ==> leq(x, z))
  }

  ghost predicate Pairwise<T>(s: seq<T>, rel: (T, T) -> bool) {
    forall i, j | 0 <= i < j < |s| :: rel(s[i], s[j])
  }

  function Insert<T>(s: seq<T>, x: T, leq: (T, T) -> bool): seq<T> {
    if s == [] || leq(s[|s| - 1], x) then s + [x]
    else Insert(s[..|s| - 1], x, leq) + [s[|s| - 1]]
  }

  function Sort<T>(s: seq<T>, leq: (T, T) -> bool): seq<T> {
    if s == [] then [] else Insert(Sort(s[..|s| - 1], leq), s[|s| - 1], leq)
  }

  lemma {:induction false} InsertElements<T(!new)>(s: seq<T>, x: T, leq: (T, T) -> bool)
    ensures multiset(Insert(s, x, leq)) == multiset(s) + multiset{x}
    ensures forall y :: y in Insert(s, x, leq) <==> y in s || y == x
    ensures |Insert(s, x, leq)| == |s| + 1
  {
    if s != [] && !leq(s[|s| - 1], x) {
      InsertElements(s[..|s| - 1], x, leq);
      assert s == s[..|s| - 1] + [s[|s| - 1]];
    }
  }

  lemma {:induction false} SortElements<T(!new)>(s: seq<T>, leq: (T, T) -> bool)
    ensures multiset(Sort(s, leq)) == multiset(s)
    ensures forall y :: y in Sort(s, leq) <==> y in s
    ensures |Sort(s, leq)| == |s|
  {
    if s != [] {
      SortElements(s[..|s| - 1], leq);
      InsertElements(Sort(s[..|s| - 1], leq), s[|s| - 1], leq);
      assert s == s[..|s| - 1] + [s[|s| - 1]];
    }
  }

  lemma {:induction false} InsertSorted<T(!new)>(s: seq<T>, x: T, leq: (T, T) -> bool)
    requires TotalPreorder(leq) && Pairwise(s, leq)
    ensures Pairwise(Insert(s, x, leq), leq)
  {
    if s != [] && !leq(s[|s| - 1], x) {
      var front, last := s[..|s| - 1], s[|s| - 1];
      InsertSorted(front, x, leq);
      InsertElements(front, x, leq);
      var r := Insert(front, x, leq);
      forall i | 0 <= i < |r| ensures leq(r[i], last) {
        assert r[i] in r;
        if r[i] in front {
          var k :| 0 <= k < |front| && front[k] == r[i];
          assert leq(s[k], s[|s| - 1]);
        }
      }
    } else if s != [] {
      forall i | 0 <= i < |s| ensures leq(s[i], x) {
        if i < |s| - 1 { assert leq(s[i], s[|s| - 1]); }
      }
    }
  }

  lemma {:induction false} SortSorted<T(!new)>(s: seq<T>, leq: (T, T) -> bool)
    requires TotalPreorder(leq)
    ensures Pairwise(Sort(s, leq), leq)
  {
    if s != [] {
      SortSorted(s[..|s| - 1], leq);
      InsertSorted(Sort(s[..|s| - 1], leq), s[|s| - 1], leq);
    }
  }

  // A symmetric relation between all pairs survives any reordering.
  lemma {:induction false} InsertKeepsPairs<T(!new)>(s: seq<T>, x: T, leq: (T, T) -> bool, rel: (T, T) -> bool)
    requires Pairwise(s, rel) && forall k | 0 <= k < |s| :: rel(s[k], x) && rel(x, s[k])
    ensures Pairwise(Insert(s, x, leq), rel)
  {
    if s != [] && !leq(s[|s| - 1], x) {
      var front, last := s[..|s| - 1], s[|s| - 1];
      InsertKeepsPairs(front, x, leq, rel);
      InsertElements(front, x, leq);
      var r := Insert(front, x, leq);
      forall i | 0 <= i < |r| ensures rel(r[i], last) {
        assert r[i] in r;
        if r[i] in front {
          var k :| 0 <= k < |front| && front[k] == r[i];
          assert rel(s[k], s[|s| - 1]);
        } else {
          assert rel(x, s[|s| - 1]);
        }
      }
    }
  }

  lemma {:induction false} SortKeepsPairs<T(!new)>(s: seq<T>, leq: (T, T) -> bool, rel: (T, T) -> bool)
    requires Pairwise(s, rel) && forall x, y :: rel(x, y) ==> rel(y, x)
    ensures Pairwise(Sort(s, leq), rel)
  {
    if s != [] {
      SortKeepsPairs(s[..|s| - 1], leq, rel);
      SortElements(s[..|s| - 1], leq);
      var sorted := Sort(s[..|s| - 1], leq);
      forall i | 0 <= i < |sorted| ensures rel(sorted[i], s[|s| - 1]) {
        assert sorted[i] in sorted;
        var k :| 0 <= k < |s| - 1 && s[k] == sorted[i];
      }
      InsertKeepsPairs(sorted, s[|s| - 1], leq, rel);
    }
  }

  // --- sorting a part ---

  function Pick<T>(s: seq<T>, p: T -> bool): seq<T> {
    if s == [] then [] else Pick(s[..|s| - 1], p) + if p(s[|s| - 1]) then [s[|s| - 1]] else []
  }

  lemma {:induction false} PickMembers<T(!new)>(s: seq<T>, p: T -> bool)
    ensures forall x :: x in Pick(s, p) <==> x in s && p(x)
  {
    if s != [] {
      PickMembers(s[..|s| - 1], p);
      assert s == s[..|s| - 1] + [s[|s| - 1]];
    }
  }

  lemma PickLast<T>(s: seq<T>, x: T, p: T -> bool)
    ensures Pick(s + [x], p) == Pick(s, p) + if p(x) then [x] else []
  {
    assert (s + [x])[..|s|] == s;
  }

  lemma InsertLast<T>(s: seq<T>, y: T, x: T, leq: (T, T) -> bool)
    ensures Insert(s + [y], x, leq) == if leq(y, x) then s + [y] + [x] else Insert(s, x, leq) + [y]
  {
    assert (s + [y])[..|s|] == s;
  }

  lemma {:induction false} InsertPicks<T(!new)>(s: seq<T>, x: T, leq: (T, T) -> bool, p: T -> bool)
    requires TotalPreorder(leq) && Pairwise(s, leq)
    ensures Pick(Insert(s, x, leq), p) == if p(x) then Insert(Pick(s, p), x, leq) else Pick(s, p)
  {
    if s == [] || leq(s[|s| - 1], x) {
      PickLast(s, x, p);
      if Pick(s, p) != [] { PickedBelow(s, x, leq, p); }
    } else {
      var front, y := s[..|s| - 1], s[|s| - 1];
      InsertPicks(front, x, leq, p);
      assert s == front + [y];
      InsertPicksBelow(front, y, x, leq, p);
    }
  }

  lemma PickedBelow<T(!new)>(s: seq<T>, x: T, leq: (T, T) -> bool, p: T -> bool)
    requires TotalPreorder(leq) && Pairwise(s, leq) && s != [] && leq(s[|s| - 1], x) && Pick(s, p) != []
    ensures leq(Pick(s, p)[|Pick(s, p)| - 1], x)
  {
    var y, last := Pick(s, p)[|Pick(s, p)| - 1], s[|s| - 1];
    PickMembers(s, p);
    assert y in Pick(s, p);
    var k :| 0 <= k < |s| && s[k] == y;
    assert leq(y, last) && leq(last, x);
  }

  lemma InsertPicksBelow<T>(front: seq<T>, y: T, x: T, leq: (T, T) -> bool, p: T -> bool)
    requires !leq(y, x)
    requires Pick(Insert(front, x, leq), p) == if p(x) then Insert(Pick(front, p), x, leq) else Pick(front, p)
    ensures Pick(Insert(front + [y], x, leq), p) == if p(x) then Insert(Pick(front + [y], p), x, leq) else Pick(front + [y], p)
  {
    InsertLast(front, y, x, leq);
    PickLast(front, y, p);
    PickLast(Insert(front, x, leq), y, p);
    InsertLast(Pick(front, p), y, x, leq);
    if !p(y) { assert Pick(front + [y], p) == Pick(front, p); }
  }

  // Sorting what is picked is picking from what is sorted.
  lemma {:induction false} SortPicks<T(!new)>(s: seq<T>, leq: (T, T) -> bool, p: T -> bool)
    requires TotalPreorder(leq)
    ensures Sort(Pick(s, p), leq) == Pick(Sort(s, leq), p)
  {
    if s != [] {
      var front, x := s[..|s| - 1], s[|s| - 1];
      assert s == front + [x];
      SortPicks(front, leq, p);
      SortSorted(front, leq);
      InsertPicks(Sort(front, leq), x, leq, p);
      PickLast(front, x, p);
      SortLast(front, x, leq);
      SortLast(Pick(front, p), x, leq);
      assert Pick(front, p) + [] == Pick(front, p);
    }
  }

  lemma {:induction false} SortedStays<T>(s: seq<T>, leq: (T, T) -> bool)
    requires Pairwise(s, leq)
    ensures Sort(s, leq) == s
  {
    if s != [] {
      var front := s[..|s| - 1];
      SortedStays(front, leq);
      if front != [] { assert leq(s[|front| - 1], s[|s| - 1]); }
    }
  }

  // What ranks alike keeps its order.
  lemma SortStable<T(!new)>(s: seq<T>, leq: (T, T) -> bool, alike: T -> bool)
    requires TotalPreorder(leq) && forall x, y | alike(x) && alike(y) :: leq(x, y)
    ensures Pick(Sort(s, leq), alike) == Pick(s, alike)
  {
    SortPicks(s, leq, alike);
    PickMembers(s, alike);
    var some := Pick(s, alike);
    forall i, j | 0 <= i < j < |some| ensures leq(some[i], some[j]) { assert some[i] in some && some[j] in some; }
    SortedStays(some, leq);
  }

  lemma {:induction false} PickFirst<T(!new)>(s: seq<T>, p: T -> bool) returns (i: nat)
    requires exists x :: x in s && p(x)
    ensures i < |s| && p(s[i]) && (forall j | 0 <= j < i :: !p(s[j])) && Pick(s, p) != [] && Pick(s, p)[0] == s[i]
  {
    var front, last := s[..|s| - 1], s[|s| - 1];
    assert s == front + [last];
    if x :| x in front && p(x) {
      i := PickFirst(front, p);
    } else {
      i := |front|;
      NonePicked(front, p);
    }
  }

  lemma {:induction false} NonePicked<T>(s: seq<T>, p: T -> bool)
    requires forall i | 0 <= i < |s| :: !p(s[i])
    ensures Pick(s, p) == []
  {
    if s != [] { NonePicked(s[..|s| - 1], p); }
  }

  lemma SortLast<T>(s: seq<T>, x: T, leq: (T, T) -> bool)
    ensures Sort(s + [x], leq) == Insert(Sort(s, leq), x, leq)
  {
    assert (s + [x])[..|s|] == s;
  }
}
