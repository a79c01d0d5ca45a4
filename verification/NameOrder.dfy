/** The lexicographic order on names. */
module NameOrder {
  import opened Sorting

  predicate Before(a: string, b: string) {
    b != "" && (a == "" || a[0] < b[0] || (a[0] == b[0] && Before(a[1..], b[1..])))
  }

  predicate AtMost(a: string, b: string) {
    a == b || Before(a, b)
  }

  lemma {:induction false} BeforeIsTransitive(a: string, b: string, c: string)
    requires Before(a, b) && Before(b, c)
    ensures Before(a, c)
  {
    if a != "" && a[0] == b[0] == c[0] { BeforeIsTransitive(a[1..], b[1..], c[1..]); }
  }

  lemma {:induction false} BeforeIsStrict(a: string)
    ensures !Before(a, a)
  {
    if a != "" { BeforeIsStrict(a[1..]); }
  }

  lemma {:induction false} BeforeIsTotal(a: string, b: string)
    ensures Before(a, b) || a == b || Before(b, a)
  {
    if a != "" && b != "" && a[0] == b[0] {
      BeforeIsTotal(a[1..], b[1..]);
      assert a == [a[0]] + a[1..] && b == [b[0]] + b[1..];
    }
  }

  lemma AtMostBothWays(a: string, b: string)
    requires AtMost(a, b) && AtMost(b, a)
    ensures a == b
  {
    if a != b {
      BeforeIsTransitive(a, b, a);
      BeforeIsStrict(a);
    }
  }

  lemma AtMostIsPreorder()
    ensures TotalPreorder(AtMost)
  {
    forall x, y ensures AtMost(x, y) || AtMost(y, x) { BeforeIsTotal(x, y); }
    forall x, y, z | AtMost(x, y) && AtMost(y, z) ensures AtMost(x, z) {
      if Before(x, y) && Before(y, z) { BeforeIsTransitive(x, y, z); }
    }
  }
}
