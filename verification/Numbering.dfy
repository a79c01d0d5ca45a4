/** Ids made of a letter and a decimal number, such as "k12". */
module Numbering {
  const DIGITS := "0123456789"

  function Decimal(n: nat): string {
    if n < 10 then [DIGITS[n]] else Decimal(n / 10) + [DIGITS[n % 10]]
  }

  function Value(s: string): int {
    if s == "" then 0 else 10 * Value(s[..|s| - 1]) + (s[|s| - 1] as int - '0' as int)
  }

  // Reading a number back gives the number, so different numbers give different ids.
  lemma {:induction false} DecimalRoundTrip(n: nat)
    ensures Value(Decimal(n)) == n
  {
    var last := Decimal(n)[|Decimal(n)| - 1];
    assert last == DIGITS[n % 10] && last as int - '0' as int == n % 10;
    if n >= 10 {
      DecimalRoundTrip(n / 10);
      assert Decimal(n)[..|Decimal(n)| - 1] == Decimal(n / 10);
    } else {
      assert Decimal(n)[..0] == "";
    }
  }

  function Numbered(letter: char, n: nat): string {
    [letter] + Decimal(n)
  }

  lemma NumberedIsInjective(letter: char, m: nat, n: nat)
    requires Numbered(letter, m) == Numbered(letter, n)
    ensures m == n
  {
    DecimalRoundTrip(m);
    DecimalRoundTrip(n);
    assert Numbered(letter, m)[1..] == Decimal(m) && Numbered(letter, n)[1..] == Decimal(n);
  }

  // The first number from `start` on whose id is free.
  method FreshId(letter: char, start: nat, taken: set<string>) returns (id: string, n: nat)
    ensures id == Numbered(letter, n) && start <= n && id !in taken
    ensures forall m | start <= m < n :: Numbered(letter, m) in taken
  {
    n := start;
    id := Numbered(letter, n);
    ghost var unseen := taken;
    while id in taken
      invariant start <= n && id == Numbered(letter, n)
      invariant unseen <= taken && forall m | start <= m < n :: Numbered(letter, m) in taken
      invariant forall m | n <= m && Numbered(letter, m) in taken :: Numbered(letter, m) in unseen
      decreases unseen
    {
      DecimalRoundTrip(n);
      assert id[1..] == Decimal(n);
      forall m | n < m ensures Numbered(letter, m) != id {
        if Numbered(letter, m) == id { NumberedIsInjective(letter, m, n); }
      }
      unseen := unseen - {id};
      n := Value(id[1..]) + 1;
      id := Numbered(letter, n);
    }
  }
}
