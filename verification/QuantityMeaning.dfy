/** When two quantities state the same thing: by kind, in terms of numbers, units and calendar dates alone. */
module QuantityMeaning {
  import opened Wrappers
  import opened Numeric

  ghost function Gap(a: real, b: real): real {
    if a < b then b - a else a - b
  }

  ghost function Size(a: real): real {
    if a < 0.0 then -a else a
  }

  // Equal but for the last digits of a floating-point number.
  ghost predicate SameNumber(a: real, b: real) {
    Gap(a, b) <= 0.000000001 || Gap(a, b) <= 0.000000001 * Size(a) || Gap(a, b) <= 0.000000001 * Size(b)
  }

  // Apart by at most that share of either.
  ghost predicate Near(a: real, b: real, share: real) {
    Gap(a, b) <= share * Size(a) || Gap(a, b) <= share * Size(b)
  }

  // The nearest integer; of two equally near, the even one.
  ghost predicate RoundsOff(x: real, n: int) {
    Gap(x, n as real) < 0.5 || (Gap(x, n as real) == 0.5 && n % 2 == 0)
  }

  lemma NearestIff(x: real, n: int)
    ensures Nearest(x) == n <==> RoundsOff(x, n)
  {
  }

  // Confidence and scores are rounded to ten-thousandths.
  lemma FourPlacesMeans(x: real) returns (n: int)
    ensures RoundsOff(x * 10000.0, n) && FourPlaces(x) == n as real / 10000.0
  {
    n := Nearest(x * 10000.0);
    NearestIff(x * 10000.0, n);
  }

  ghost predicate CountedAt(y: real, decimals: nat, n: int) {
    RoundsOff(y * Pow10(decimals) as real, n)
  }

  // `n` counts the number in the last decimal of the other, in its unit.
  ghost predicate CountedIn(x: real, other: Quantity, n: int) {
    CountedAt(x / Unit(other), other.decimals, n)
  }

  // Written with the decimals and the scale of the other, the numbers are the same.
  ghost predicate SameWhenRounded(precise: real, other: Quantity, value: real) {
    exists m: int, n: int :: CountedIn(precise, other, m) && CountedIn(value, other, n) && SameCount(m, n, Pow10(other.decimals))
  }

  ghost predicate SameCount(m: int, n: int, parts: int)
    requires parts >= 1
  {
    SameNumber(m as real / parts as real, n as real / parts as real)
  }

  ghost function Unit(q: Quantity): (unit: real)
    ensures unit != 0.0
  {
    if q.scale == 0.0 then 1.0 else q.scale
  }

  // Two quantities that are not both dates state the same thing.
  ghost predicate Agree(left: Quantity, right: Quantity, t: Tolerance) {
    match (left.kind, right.kind)
    case (Percent, Percent) =>
      exists a, b :: a in left.values && b in right.values && (Gap(a, b) <= t.percentPoints || Gap(a, b) <= 0.000000001)
    case (Year, Number) => exists a, b :: a in left.values && b in right.values && SameNumber(a, b)
    case (Number, Year) => exists a, b :: a in left.values && b in right.values && SameNumber(a, b)
    case (Money, Money) => left.unit == right.unit && SameAmount(left, right, t)
    case (Money, Number) => SameAmount(left, right, t)
    case (Number, Money) => SameAmount(left, right, t)
    case (Number, Number) => SameAmount(left, right, t)
    case _ => false
  }

  // Some readings are the same number; or, with a tolerance, within it or one a rounding of the other.
  ghost predicate SameAmount(left: Quantity, right: Quantity, t: Tolerance) {
    exists a, b :: a in left.values && b in right.values &&
      (SameNumber(a, b) || (t.relative > 0.0 && (Near(a, b, t.relative) || SameWhenRounded(b, left, a) || SameWhenRounded(a, right, b))))
  }

  lemma CloseIff(a: real, b: real)
    ensures IsClose(a, b) <==> SameNumber(a, b)
  {
  }

  lemma NearIff(a: real, b: real, share: real)
    requires share > 0.0
    ensures Close(a, b, share) <==> SameNumber(a, b) || Near(a, b, share)
  {
    CloseIff(a, b);
    ShareOfLarger(Size(a), Size(b), share);
  }

  lemma ShareOfLarger(x: real, y: real, share: real)
    requires share > 0.0 && x >= 0.0 && y >= 0.0
    ensures share * Max(x, y) == Max(share * x, share * y)
  {
    if x < y { assert share * (y - x) > 0.0; } else { assert share * (x - y) >= 0.0; }
  }

  lemma CountedIff(x: real, other: Quantity, n: int)
    ensures CountedIn(x, other, n) <==> n == InLastDecimal(x, other)
  {
    CountedAtIff(x / Unit(other), other.decimals, n);
  }

  lemma CountedAtIff(y: real, decimals: nat, n: int)
    ensures CountedAt(y, decimals, n) <==> n == LastDecimal(y, decimals)
  {
    NearestIff(y * Pow10(decimals) as real, n);
  }

  lemma WrittenAt(y: real, decimals: nat)
    ensures RoundHalfEven(y, decimals) == LastDecimal(y, decimals) as real / Pow10(decimals) as real
  {
  }

  lemma Written(x: real, other: Quantity)
    ensures RoundHalfEven(x / Unit(other), other.decimals) == InLastDecimal(x, other) as real / Pow10(other.decimals) as real
  {
    WrittenAt(x / Unit(other), other.decimals);
  }

  lemma RoundsToCounts(precise: real, other: Quantity, value: real)
    ensures RoundsTo(precise, other, value) <==> SameCount(InLastDecimal(precise, other), InLastDecimal(value, other), Pow10(other.decimals))
  {
    Written(precise, other);
    Written(value, other);
    RoundedClose(RoundHalfEven(precise / Unit(other), other.decimals), RoundHalfEven(value / Unit(other), other.decimals), precise, other, value);
  }

  lemma RoundedClose(a: real, b: real, precise: real, other: Quantity, value: real)
    requires a == RoundHalfEven(precise / Unit(other), other.decimals) && b == RoundHalfEven(value / Unit(other), other.decimals)
    ensures RoundsTo(precise, other, value) <==> SameNumber(a, b)
  {
    CloseIff(a, b);
    assert RoundsTo(precise, other, value) <==> IsClose(a, b);
  }

  lemma RoundedIff(precise: real, other: Quantity, value: real)
    ensures RoundsTo(precise, other, value) <==> SameWhenRounded(precise, other, value)
  {
    RoundsToCounts(precise, other, value);
    forall k: int ensures CountedIn(precise, other, k) <==> k == InLastDecimal(precise, other) { CountedIff(precise, other, k); }
    forall k: int ensures CountedIn(value, other, k) <==> k == InLastDecimal(value, other) { CountedIff(value, other, k); }
    RoundedIffSame(precise, other, value, InLastDecimal(precise, other), InLastDecimal(value, other));
  }

  lemma RoundedIffSame(precise: real, other: Quantity, value: real, m: int, n: int)
    requires (forall k :: CountedIn(precise, other, k) <==> k == m) && (forall k :: CountedIn(value, other, k) <==> k == n)
    ensures SameWhenRounded(precise, other, value) <==> SameCount(m, n, Pow10(other.decimals))
  {
    assert CountedIn(precise, other, m) && CountedIn(value, other, n);
  }

  ghost function LastDecimal(y: real, decimals: nat): int {
    Nearest(y * Pow10(decimals) as real)
  }

  ghost function InLastDecimal(x: real, other: Quantity): int {
    LastDecimal(x / Unit(other), other.decimals)
  }

  lemma PowersOfTen(n: nat)
    ensures Pow10(0) == 1 && Pow10(n + 1) == 10 * Pow10(n)
  {
  }

  lemma AmountsIff(left: Quantity, right: Quantity, t: Tolerance)
    requires left.kind in {Number, Money} && right.kind in {Number, Money}
    ensures QuantitiesMatch(left, right, t) <==> (left.kind == right.kind == Money ==> left.unit == right.unit) && SameAmount(left, right, t)
  {
    forall a, b ensures Close(a, b, t.relative) <==> SameNumber(a, b) || (t.relative > 0.0 && Near(a, b, t.relative)) {
      CloseIff(a, b);
      if t.relative > 0.0 { NearIff(a, b, t.relative); }
    }
    forall a, b ensures RoundsTo(b, left, a) <==> SameWhenRounded(b, left, a) { RoundedIff(b, left, a); }
    forall a, b ensures RoundsTo(a, right, b) <==> SameWhenRounded(a, right, b) { RoundedIff(a, right, b); }
  }

  lemma MatchMeans(left: Quantity, right: Quantity, t: Tolerance)
    requires left.kind !in {Date, Year} || right.kind !in {Date, Year}
    ensures QuantitiesMatch(left, right, t) <==> Agree(left, right, t)
  {
    if left.kind in {Number, Money} && right.kind in {Number, Money} {
      AmountsIff(left, right, t);
    } else if left.kind in {Date, Year} || right.kind in {Date, Year} {
      forall a, b ensures Close(a, b, 0.0) <==> SameNumber(a, b) { CloseIff(a, b); }
      forall a, b ensures SameNumber(a, b) <==> SameNumber(b, a) {}
    }
  }

  // --- dates ---

  // A calendar date as written: the parts finer than its granularity do not count.
  ghost predicate Proper(q: Quantity) {
    && q.kind in {Date, Year} && q.iso.Some? && q.granularity.Some?
    && (q.granularity != Some(ByYear) ==> 1 <= q.iso.value.month <= 12)
    && (q.granularity == Some(ByDay) ==> 1 <= q.iso.value.day <= 31)
  }

  ghost predicate Nested(inner: (int, int), outer: (int, int)) {
    Within(inner, outer) || Within(outer, inner)
  }

  ghost function DayOf(y: int, m: int, d: int): int {
    (y * 100 + m) * 100 + d
  }

  lemma MonthHoldsDay(y: int, m: int, d: int, z: int, n: int)
    requires 1 <= m <= 12 && 1 <= n <= 12 && 1 <= d <= 31
    ensures Nested((DayOf(y, m, d), DayOf(y, m, d)), (DayOf(z, n, 1), DayOf(z, n, 31))) <==> y == z && m == n
  {
  }

  lemma YearHoldsDay(y: int, m: int, d: int, z: int)
    requires 1 <= m <= 12 && 1 <= d <= 31
    ensures Nested((DayOf(y, m, d), DayOf(y, m, d)), (DayOf(z, 1, 1), DayOf(z, 12, 31))) <==> y == z
  {
  }

  lemma YearHoldsMonth(y: int, m: int, z: int)
    requires 1 <= m <= 12
    ensures Nested((DayOf(y, m, 1), DayOf(y, m, 31)), (DayOf(z, 1, 1), DayOf(z, 12, 31))) <==> y == z
  {
  }

  // Equally precise dates must be equal; with any tolerance a date matches the month or year it lies in.
  lemma DatesMatchIff(left: Quantity, right: Quantity, t: Tolerance)
    requires Proper(left) && Proper(right)
    ensures QuantitiesMatch(left, right, t) <==>
      if left.granularity == right.granularity then left.iso == right.iso
      else
        && t.dateDays > 0 && left.iso.value.year == right.iso.value.year
        && (left.granularity != Some(ByYear) && right.granularity != Some(ByYear) ==> left.iso.value.month == right.iso.value.month)
  {
    var l, r := left.iso.value, right.iso.value;
    if left.granularity != right.granularity {
      assert Nested(DateBounds(left).value, DateBounds(right).value) <==> Nested(DateBounds(right).value, DateBounds(left).value);
      match (left.granularity.value, right.granularity.value)
      case (ByDay, ByMonth) => MonthHoldsDay(l.year, l.month, l.day, r.year, r.month);
      case (ByMonth, ByDay) => MonthHoldsDay(r.year, r.month, r.day, l.year, l.month);
      case (ByDay, ByYear) => YearHoldsDay(l.year, l.month, l.day, r.year);
      case (ByYear, ByDay) => YearHoldsDay(r.year, r.month, r.day, l.year);
      case (ByMonth, ByYear) => YearHoldsMonth(l.year, l.month, r.year);
      case (ByYear, ByMonth) => YearHoldsMonth(r.year, r.month, l.year);
    }
  }
}
