/** Cardinalities of finite sets. */
module Sets {
  function Below(n: nat): (s: set<nat>)
    ensures |s| == n && forall k: nat :: k in s <==> k < n
  {
    if n == 0 then {} else Below(n - 1) + {n - 1}
  }

  lemma {:induction false} SubsetSize<T>(small: set<T>, large: set<T>)
    requires small <= large
    ensures |small| <= |large|
  {
    if small != {} {
      var x :| x in small;
      SubsetSize(small - {x}, large - {x});
    }
  }

  // Every element of `image` belongs to one of `source`, and no two to the same one.
  lemma {:induction false} ImageSize<A(!new), B(!new)>(image: set<B>, source: set<A>, rel: (A, B) -> bool)
    requires forall b | b in image :: exists a :: a in source && rel(a, b)
    requires forall a, b, c :: rel(a, b) && rel(a, c) ==> b == c
    ensures |image| <= |source|
  {
    if image != {} {
      var b :| b in image;
      var a :| a in source && rel(a, b);
      forall c | c in image - {b} ensures exists d :: d in source - {a} && rel(d, c) {
        var d :| d in source && rel(d, c);
        assert d != a;
      }
      ImageSize(image - {b}, source - {a}, rel);
    }
  }
}
