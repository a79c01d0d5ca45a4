/** Quantities in text: which matches are kept, and when two quantities state the same thing. */
module Numeric {
  import opened Wrappers
  import opened Sorting

  datatype Kind = Number | Percent | Money | Date | Year
  datatype Granularity = ByDay | ByMonth | ByYear

  // `iso` is the written date with its missing parts; fixed-width ISO strings compare as these do.
  datatype Iso = Iso(year: nat, month: nat, day: nat)

  datatype Quantity = Quantity(
    kind: Kind, start: nat, end: nat, values: seq<real>, unit: Option<string>,
    iso: Option<Iso>, granularity: Option<Granularity>, decimals: nat, scale: real)

  // --- scanning ---

  // One regex match, and what `_build` makes of it.
  datatype Match = Match(start: nat, end: nat, quantity: Option<Quantity>)

  ghost predicate MatchOk(m: Match, n: nat) {
    && m.start < m.end <= n
    && (m.quantity.Some? ==> m.quantity.value.start == m.start && m.quantity.value.end == m.end)
  }

  predicate Overlap(a: nat, b: nat, c: nat, d: nat) {
    a < d && c < b
  }

  ghost predicate Disjoint(found: seq<Quantity>) {
    forall i, j | 0 <= i < j < |found| :: !Overlap(found[i].start, found[i].end, found[j].start, found[j].end)
  }

  ghost predicate Clear(q: Quantity, ignored: seq<(nat, nat)>) {
    forall k | 0 <= k < |ignored| :: !Overlap(q.start, q.end, ignored[k].0, ignored[k].1)
  }

  ghost predicate Blocked(m: Match, ignored: seq<(nat, nat)>, found: seq<Quantity>) {
    || (exists k | 0 <= k < |ignored| :: Overlap(m.start, m.end, ignored[k].0, ignored[k].1))
    || (exists k | 0 <= k < |found| :: Overlap(m.start, m.end, found[k].start, found[k].end))
  }

  // `taken` marks exactly the characters of ignored text and of the quantities found so far.
  ghost predicate Marks(taken: seq<bool>, ignored: seq<(nat, nat)>, found: seq<Quantity>) {
    forall i | 0 <= i < |taken| :: taken[i] <==>
      || (exists k | 0 <= k < |ignored| :: ignored[k].0 <= i < ignored[k].1)
      || (exists k | 0 <= k < |found| :: found[k].start <= i < found[k].end)
  }

  method Mark(taken: array<bool>, start: nat, end: nat)
    requires start <= end <= taken.Length
    modifies taken
    ensures forall i | 0 <= i < taken.Length :: taken[i] == (old(taken[i]) || start <= i < end)
  {
    for i := start to end
      invariant forall j | 0 <= j < taken.Length :: taken[j] == (old(taken[j]) || start <= j < i)
    {
      taken[i] := true;
    }
  }

  method AnyTaken(taken: array<bool>, start: nat, end: nat) returns (any: bool)
    requires start <= end <= taken.Length
    ensures any <==> exists i | start <= i < end :: taken[i]
  {
    for i := start to end
      invariant forall j | start <= j < i :: !taken[j]
    {
      if taken[i] { return true; }
    }
    return false;
  }

  lemma MarkedOverlap(taken: seq<bool>, ignored: seq<(nat, nat)>, found: seq<Quantity>, m: Match)
    requires Marks(taken, ignored, found) && m.start < m.end <= |taken|
    requires forall k | 0 <= k < |found| :: found[k].start < found[k].end <= |taken|
    requires forall k | 0 <= k < |ignored| :: ignored[k].0 < ignored[k].1 <= |taken|
    ensures (exists i | m.start <= i < m.end :: taken[i]) <==> Blocked(m, ignored, found)
  {
    if k :| 0 <= k < |ignored| && Overlap(m.start, m.end, ignored[k].0, ignored[k].1) {
      assert taken[if m.start >= ignored[k].0 then m.start else ignored[k].0];
    }
    if k :| 0 <= k < |found| && Overlap(m.start, m.end, found[k].start, found[k].end) {
      assert taken[if m.start >= found[k].start then m.start else found[k].start];
    }
  }

  predicate StartsFirst(a: Quantity, b: Quantity) {
    a.start <= b.start
  }

  // Each character in at most one of them.
  ghost predicate InReadingOrder(found: seq<Quantity>) {
    forall i, j | 0 <= i < j < |found| :: found[i].end <= found[j].start
  }

  lemma SortedScan(found: seq<Quantity>)
    requires Disjoint(found) && forall k | 0 <= k < |found| :: found[k].start < found[k].end
    ensures var r := Sort(found, StartsFirst);
      && (forall q :: q in r <==> q in found)
      && InReadingOrder(r)
  {
    var r := Sort(found, StartsFirst);
    var apart := (a: Quantity, b: Quantity) => !Overlap(a.start, a.end, b.start, b.end);
    SortElements(found, StartsFirst);
    SortSorted(found, StartsFirst);
    SortKeepsPairs(found, StartsFirst, apart);
    forall i, j | 0 <= i < j < |r| ensures r[i].end <= r[j].start {
      assert StartsFirst(r[i], r[j]) && apart(r[i], r[j]);
      assert r[j] in r;
    }
  }

  // --- which matches are kept ---

  // A match counts unless it touches ignored text or an earlier match that counts.
  ghost predicate KeptAt(ignored: seq<(nat, nat)>, ms: seq<Match>, k: nat)
    requires k < |ms|
    decreases k
  {
    && ms[k].quantity.Some?
    && (forall i | 0 <= i < |ignored| :: !Overlap(ms[k].start, ms[k].end, ignored[i].0, ignored[i].1))
    && forall j: nat | j < k && KeptAt(ignored, ms, j) :: !Overlap(ms[k].start, ms[k].end, ms[j].start, ms[j].end)
  }

  ghost predicate Kept(ignored: seq<(nat, nat)>, ms: seq<Match>, q: Quantity) {
    exists k: nat :: k < |ms| && KeptAt(ignored, ms, k) && ms[k].quantity == Some(q)
  }

  // All matches, those of the first pattern first.
  function Ordered(patterns: seq<seq<Match>>): seq<Match> {
    if patterns == [] then [] else Ordered(patterns[..|patterns| - 1]) + patterns[|patterns| - 1]
  }

  ghost predicate AllOk(ms: seq<Match>, n: nat) {
    forall k | 0 <= k < |ms| :: MatchOk(ms[k], n)
  }

  ghost predicate Finds(n: nat, ignored: seq<(nat, nat)>, ms: seq<Match>, found: seq<Quantity>) {
    && Disjoint(found) && (forall k | 0 <= k < |found| :: found[k].start < found[k].end <= n)
    && forall q :: q in found <==> Kept(ignored, ms, q)
  }

  lemma {:induction false} KeptEarlier(ignored: seq<(nat, nat)>, ms: seq<Match>, m: Match, k: nat)
    requires k < |ms|
    ensures KeptAt(ignored, ms + [m], k) <==> KeptAt(ignored, ms, k)
  {
    forall j: nat | j < k ensures KeptAt(ignored, ms + [m], j) <==> KeptAt(ignored, ms, j) { KeptEarlier(ignored, ms, m, j); }
  }

  lemma KeptLast(n: nat, ignored: seq<(nat, nat)>, ms: seq<Match>, m: Match, found: seq<Quantity>)
    requires AllOk(ms, n) && Finds(n, ignored, ms, found)
    ensures KeptAt(ignored, ms + [m], |ms|) <==> m.quantity.Some? && !Blocked(m, ignored, found)
  {
    var more := ms + [m];
    forall j: nat | j < |ms| ensures KeptAt(ignored, more, j) <==> KeptAt(ignored, ms, j) { KeptEarlier(ignored, ms, m, j); }
    if j: nat :| j < |ms| && KeptAt(ignored, ms, j) && Overlap(m.start, m.end, ms[j].start, ms[j].end) {
      assert Kept(ignored, ms, ms[j].quantity.value);
      var k :| 0 <= k < |found| && found[k] == ms[j].quantity.value;
    }
    if k :| 0 <= k < |found| && Overlap(m.start, m.end, found[k].start, found[k].end) {
      assert found[k] in found;
      var j: nat :| j < |ms| && KeptAt(ignored, ms, j) && ms[j].quantity == Some(found[k]);
      assert more[j] == ms[j];
    }
  }

  lemma KeptGrows(ignored: seq<(nat, nat)>, ms: seq<Match>, m: Match, q: Quantity)
    ensures Kept(ignored, ms + [m], q) <==> Kept(ignored, ms, q) || (KeptAt(ignored, ms + [m], |ms|) && m.quantity == Some(q))
  {
    var more := ms + [m];
    if k: nat :| k < |ms| && KeptAt(ignored, ms, k) && ms[k].quantity == Some(q) {
      KeptEarlier(ignored, ms, m, k);
      assert more[k] == ms[k];
    }
    if k: nat :| k < |more| && KeptAt(ignored, more, k) && more[k].quantity == Some(q) {
      if k < |ms| { KeptEarlier(ignored, ms, m, k); }
    }
  }

  lemma FindsNext(n: nat, ignored: seq<(nat, nat)>, ms: seq<Match>, m: Match, found: seq<Quantity>)
    requires AllOk(ms, n) && MatchOk(m, n) && Finds(n, ignored, ms, found)
    ensures Finds(n, ignored, ms + [m], if m.quantity.None? || Blocked(m, ignored, found) then found else found + [m.quantity.value])
  {
    KeptLast(n, ignored, ms, m, found);
    forall q ensures Kept(ignored, ms + [m], q) <==> Kept(ignored, ms, q) || (KeptAt(ignored, ms + [m], |ms|) && m.quantity == Some(q)) {
      KeptGrows(ignored, ms, m, q);
    }
  }

  method ScanMatch(taken: array<bool>, ignored: seq<(nat, nat)>, m: Match, before: seq<Quantity>, ghost ms: seq<Match>) returns (found: seq<Quantity>)
    requires forall k | 0 <= k < |ignored| :: ignored[k].0 < ignored[k].1 <= taken.Length
    requires AllOk(ms, taken.Length) && MatchOk(m, taken.Length)
    requires Marks(taken[..], ignored, before) && Finds(taken.Length, ignored, ms, before)
    modifies taken
    ensures Marks(taken[..], ignored, found) && Finds(taken.Length, ignored, ms + [m], found)
  {
    found := before;
    FindsNext(taken.Length, ignored, ms, m, found);
    MarkedOverlap(taken[..], ignored, found, m);
    var any := AnyTaken(taken, m.start, m.end);
    if any || m.quantity.None? {
      return;
    }
    ghost var was := taken[..];
    Mark(taken, m.start, m.end);
    MarksGrow(was, taken[..], ignored, found, m.quantity.value);
    found := found + [m.quantity.value];
  }

  // The matches of one pattern, in the order the regex engine finds them; `ms` are those before.
  method ScanPattern(taken: array<bool>, ignored: seq<(nat, nat)>, pattern: seq<Match>, before: seq<Quantity>, ghost ms: seq<Match>)
    returns (found: seq<Quantity>)
    requires forall k | 0 <= k < |ignored| :: ignored[k].0 < ignored[k].1 <= taken.Length
    requires AllOk(ms, taken.Length) && AllOk(pattern, taken.Length)
    requires Marks(taken[..], ignored, before) && Finds(taken.Length, ignored, ms, before)
    modifies taken
    ensures Marks(taken[..], ignored, found) && Finds(taken.Length, ignored, ms + pattern, found)
  {
    found := before;
    assert ms + pattern[..0] == ms;
    for k := 0 to |pattern|
      invariant Marks(taken[..], ignored, found) && Finds(taken.Length, ignored, ms + pattern[..k], found)
    {
      assert ms + pattern[..k + 1] == ms + pattern[..k] + [pattern[k]];
      found := ScanMatch(taken, ignored, pattern[k], found, ms + pattern[..k]);
    }
    assert pattern[..|pattern|] == pattern;
  }

  lemma MarksGrow(was: seq<bool>, taken: seq<bool>, ignored: seq<(nat, nat)>, found: seq<Quantity>, q: Quantity)
    requires Marks(was, ignored, found) && |taken| == |was|
    requires forall i | 0 <= i < |was| :: taken[i] == (was[i] || q.start <= i < q.end)
    ensures Marks(taken, ignored, found + [q])
  {
    var more := found + [q];
    forall i | 0 <= i < |taken|
      ensures taken[i] <==>
        || (exists k | 0 <= k < |ignored| :: ignored[k].0 <= i < ignored[k].1)
        || (exists k | 0 <= k < |more| :: more[k].start <= i < more[k].end)
    {
      assert more[|found|] == q;
      if k :| 0 <= k < |found| && found[k].start <= i < found[k].end { assert more[k] == found[k]; }
    }
  }

  lemma {:induction false} OrderedOk(patterns: seq<seq<Match>>, n: nat)
    requires forall p | 0 <= p < |patterns| :: AllOk(patterns[p], n)
    ensures AllOk(Ordered(patterns), n)
  {
    if patterns != [] { OrderedOk(patterns[..|patterns| - 1], n); }
  }

  lemma KeptIsClear(ignored: seq<(nat, nat)>, ms: seq<Match>, n: nat, q: Quantity)
    requires AllOk(ms, n) && Kept(ignored, ms, q)
    ensures Clear(q, ignored)
  {
    var k: nat :| k < |ms| && KeptAt(ignored, ms, k) && ms[k].quantity == Some(q);
    assert MatchOk(ms[k], n);
  }

  // `ignored` are the matches of the ignored-text pattern, `patterns` the matches of each pattern
  // in priority order; a match whose `quantity` is None is one `_build` rejects.
  method ExtractQuantities(n: nat, ignored: seq<(nat, nat)>, patterns: seq<seq<Match>>) returns (result: seq<Quantity>)
    requires forall k | 0 <= k < |ignored| :: ignored[k].0 < ignored[k].1 <= n
    requires forall p | 0 <= p < |patterns| :: AllOk(patterns[p], n)
    ensures InReadingOrder(result)
    ensures forall q | q in result :: Clear(q, ignored)
    // Exactly the matches that touch no ignored text and no match kept of an earlier pattern or before it in its own.
    ensures forall q :: q in result <==> Kept(ignored, Ordered(patterns), q)
  {
    var taken := new bool[n](_ => false);
    for i := 0 to |ignored|
      invariant Marks(taken[..], ignored[..i], [])
    {
      Mark(taken, ignored[i].0, ignored[i].1);
    }
    assert ignored[..|ignored|] == ignored;
    var found: seq<Quantity> := [];
    for p := 0 to |patterns|
      invariant Marks(taken[..], ignored, found) && Finds(n, ignored, Ordered(patterns[..p]), found)
    {
      assert patterns[..p + 1][..p] == patterns[..p];
      OrderedOk(patterns[..p], n);
      found := ScanPattern(taken, ignored, patterns[p], found, Ordered(patterns[..p]));
    }
    assert patterns[..|patterns|] == patterns;
    result := Sort(found, StartsFirst);
    SortedScan(found);
    OrderedOk(patterns, n);
    forall q | q in result ensures Clear(q, ignored) { KeptIsClear(ignored, Ordered(patterns), n, q); }
  }

  // --- comparison ---

  datatype Tolerance = Tolerance(relative: real, percentPoints: real, dateDays: int)

  const EXACT := Tolerance(0.0, 0.0, 0)

  function Abs(x: real): real {
    if x < 0.0 then -x else x
  }

  function Max(x: real, y: real): real {
    if x < y then y else x
  }

  predicate IsClose(a: real, b: real) {
    Abs(a - b) <= Max(0.000000001 * Max(Abs(a), Abs(b)), 0.000000001)
  }

  predicate Close(a: real, b: real, relative: real) {
    IsClose(a, b) || (relative > 0.0 && Abs(a - b) <= relative * Max(Abs(a), Abs(b)))
  }

  function Pow10(n: nat): (p: int)
    ensures p >= 1
  {
    if n == 0 then 1 else 10 * Pow10(n - 1)
  }

  // The nearest integer, halves to the even one.
  function Nearest(x: real): int {
    var below := x.Floor;
    var rest := x - below as real;
    if rest < 0.5 || (rest == 0.5 && below % 2 == 0) then below else below + 1
  }

  lemma NearestIsMonotone(x: real, y: real)
    requires x <= y
    ensures Nearest(x) <= Nearest(y)
  {
    if x.Floor < y.Floor {
      assert Nearest(x) <= x.Floor + 1 <= y.Floor <= Nearest(y);
    } else {
      assert x.Floor == y.Floor;
    }
  }

  // Round half to even, as Python's `round`.
  function RoundHalfEven(x: real, decimals: nat): real {
    Nearest(x * Pow10(decimals) as real) as real / Pow10(decimals) as real
  }

  // `round(x, 4)`.
  function FourPlaces(x: real): real {
    Nearest(x * 10000.0) as real / 10000.0
  }

  lemma FourPlacesIsMonotone(x: real, y: real)
    requires x <= y
    ensures FourPlaces(x) <= FourPlaces(y)
  {
    NearestIsMonotone(x * 10000.0, y * 10000.0);
  }

  predicate RoundsTo(precise: real, coarse: Quantity, coarseValue: real) {
    var unit := if coarse.scale == 0.0 then 1.0 else coarse.scale;
    IsClose(RoundHalfEven(precise / unit, coarse.decimals), RoundHalfEven(coarseValue / unit, coarse.decimals))
  }

  predicate Dated(kind: Kind) {
    kind == Date || kind == Year
  }

  // ISO dates of four, two and two digits compare as these numbers.
  function Ordinal(iso: Iso): int {
    (iso.year * 100 + iso.month) * 100 + iso.day
  }

  function DateBounds(q: Quantity): Option<(int, int)> {
    if q.iso.None? then None
    else if q.granularity == Some(ByDay) then Some((Ordinal(q.iso.value), Ordinal(q.iso.value)))
    else if q.granularity == Some(ByMonth) then Some((Ordinal(q.iso.value.(day := 1)), Ordinal(q.iso.value.(day := 31))))
    else Some((Ordinal(q.iso.value.(month := 1, day := 1)), Ordinal(q.iso.value.(month := 12, day := 31))))
  }

  predicate Within(inner: (int, int), outer: (int, int)) {
    outer.0 <= inner.0 && inner.1 <= outer.1
  }

  predicate DatesMatch(left: Quantity, right: Quantity, dateDays: int) {
    if left.iso == right.iso && left.granularity == right.granularity then true
    else if dateDays <= 0 || left.granularity == right.granularity then false
    else
      var l, r := DateBounds(left), DateBounds(right);
      l.Some? && r.Some? && (Within(r.value, l.value) || Within(l.value, r.value))
  }

  predicate QuantitiesMatch(left: Quantity, right: Quantity, t: Tolerance) {
    if Dated(left.kind) || Dated(right.kind) then
      if Dated(left.kind) && Dated(right.kind) then DatesMatch(left, right, t.dateDays)
      else
        // A bare year against a plain number.
        var (year, other) := if left.kind == Year then (left, right) else (right, left);
        year.kind == Year && other.kind == Number && exists a, b | a in year.values && b in other.values :: Close(a, b, 0.0)
    else if left.kind == Percent || right.kind == Percent then
      left.kind == right.kind
      && exists a, b | a in left.values && b in right.values :: Abs(a - b) <= Max(t.percentPoints, 0.000000001)
    else if left.kind == Money && right.kind == Money && left.unit != right.unit then false
    else if exists a, b | a in left.values && b in right.values :: Close(a, b, t.relative) then true
    else
      t.relative > 0.0
      && exists a, b | a in left.values && b in right.values :: RoundsTo(b, left, a) || RoundsTo(a, right, b)
  }

  lemma MatchIsSymmetric(left: Quantity, right: Quantity, t: Tolerance)
    ensures QuantitiesMatch(left, right, t) <==> QuantitiesMatch(right, left, t)
  {
    if QuantitiesMatch(left, right, t) { MatchSwaps(left, right, t); }
    if QuantitiesMatch(right, left, t) { MatchSwaps(right, left, t); }
  }

  lemma CloseSwaps(a: real, b: real, relative: real)
    requires Close(a, b, relative)
    ensures Close(b, a, relative)
  {
    assert Abs(a - b) == Abs(b - a) && Max(Abs(a), Abs(b)) == Max(Abs(b), Abs(a));
  }

  lemma CloseWidens(a: real, b: real, relative: real, wider: real)
    requires Close(a, b, relative) && relative <= wider
    ensures Close(a, b, wider)
  {
    var scale := Max(Abs(a), Abs(b));
    assert scale >= 0.0;
    assert relative * scale <= wider * scale;
  }

  lemma MatchSwaps(left: Quantity, right: Quantity, t: Tolerance)
    requires QuantitiesMatch(left, right, t)
    ensures QuantitiesMatch(right, left, t)
  {
    if Dated(left.kind) || Dated(right.kind) {
    } else if left.kind == Percent || right.kind == Percent {
      var a, b :| a in left.values && b in right.values && Abs(a - b) <= Max(t.percentPoints, 0.000000001);
      assert Abs(b - a) == Abs(a - b);
    } else if a, b :| a in left.values && b in right.values && Close(a, b, t.relative) {
      CloseSwaps(a, b, t.relative);
    } else {
      var a, b :| a in left.values && b in right.values && (RoundsTo(b, left, a) || RoundsTo(a, right, b));
    }
  }

  lemma MatchIsMonotone(left: Quantity, right: Quantity, t: Tolerance, wider: Tolerance)
    requires t.relative <= wider.relative && t.percentPoints <= wider.percentPoints && t.dateDays <= wider.dateDays
    ensures QuantitiesMatch(left, right, t) ==> QuantitiesMatch(left, right, wider)
  {
    if QuantitiesMatch(left, right, t) && !Dated(left.kind) && !Dated(right.kind) {
      if left.kind == Percent {
        var a, b :| a in left.values && b in right.values && Abs(a - b) <= Max(t.percentPoints, 0.000000001);
        assert Abs(a - b) <= Max(wider.percentPoints, 0.000000001);
      } else if a, b :| a in left.values && b in right.values && Close(a, b, t.relative) {
        CloseWidens(a, b, t.relative, wider.relative);
      }
    }
  }

  // A deadline one day off is a different deadline, whatever the tolerance.
  lemma DayDatesMatchExactly(left: Quantity, right: Quantity, t: Tolerance)
    requires left.kind == right.kind == Date && left.granularity == right.granularity == Some(ByDay)
    ensures QuantitiesMatch(left, right, t) <==> left.iso == right.iso
  {
  }

  // Tolerant matching of dates is containment of a finer statement in a coarser one.
  lemma CoarseDatesContain(day: Quantity, month: Quantity, t: Tolerance)
    requires day.kind == month.kind == Date && day.granularity == Some(ByDay) && month.granularity == Some(ByMonth)
    requires day.iso.Some? && month.iso.Some? && 1 <= day.iso.value.day <= 31 && 1 <= day.iso.value.month <= 12
    requires 1 <= month.iso.value.month <= 12
    ensures QuantitiesMatch(day, month, t) <==>
      t.dateDays > 0 && day.iso.value.year == month.iso.value.year && day.iso.value.month == month.iso.value.month
  {
  }
}
