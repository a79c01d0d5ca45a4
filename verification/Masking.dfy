/** Replacing identifiers in a text by stable placeholders. */
module Masking {
  import opened Sorting
  import opened Numbering

  datatype Span = Span(kind: string, start: nat, end: nat)

  type Key = (string, string)

  datatype Entity = Entity(kind: string, placeholder: string, occurrences: nat)

  ghost predicate Within(text: string, spans: seq<Span>) {
    forall i | 0 <= i < |spans| :: spans[i].start <= spans[i].end <= |text|
  }

  // --- choosing spans ---

  // Earliest first, then longest.
  predicate Sooner(a: Span, b: Span) {
    a.start < b.start || (a.start == b.start && a.end - a.start >= b.end - b.start)
  }

  ghost predicate Apart(chosen: seq<Span>) {
    forall i, j | 0 <= i < j < |chosen| :: chosen[i].end <= chosen[j].start
  }

  // `s` is chosen, or starts inside a chosen span that is longer if it starts at the same place.
  ghost predicate Covered(chosen: seq<Span>, s: Span) {
    exists c :: c in chosen && (c == s || (c.start <= s.start < c.end && (c.start == s.start ==> s.end <= c.end)))
  }

  // What has been chosen from the first spans of a sorted list.
  ghost predicate Chosen(seen: seq<Span>, chosen: seq<Span>) {
    && Apart(chosen) && (forall c | c in chosen :: c in seen) && (forall s | s in seen :: Covered(chosen, s))
  }

  lemma SkipCovered(chosen: seq<Span>, s: Span)
    requires chosen != [] && Sooner(chosen[|chosen| - 1], s) && s.start < chosen[|chosen| - 1].end && s.start <= s.end
    ensures Covered(chosen, s)
  {
    var c := chosen[|chosen| - 1];
    assert c in chosen && c.start <= s.start < c.end;
  }

  lemma CoveredByMore(chosen: seq<Span>, s: Span, t: Span)
    requires Covered(chosen, t) || t == s
    ensures Covered(chosen + [s], t)
  {
    if t == s {
      assert s in chosen + [s];
    } else {
      var c :| c in chosen && (c == t || (c.start <= t.start < c.end && (c.start == t.start ==> t.end <= c.end)));
      assert c in chosen + [s];
    }
  }

  lemma ApartNext(chosen: seq<Span>, s: Span)
    requires Apart(chosen) && (forall c | c in chosen :: c.start <= c.end) && (chosen != [] ==> chosen[|chosen| - 1].end <= s.start)
    ensures Apart(chosen + [s])
  {
    var more := chosen + [s];
    forall i, j | 0 <= i < j < |more| ensures more[i].end <= more[j].start {
      if j == |chosen| && i < j - 1 {
        assert chosen[|chosen| - 1] in chosen;
        assert chosen[i].end <= chosen[|chosen| - 1].start;
      }
    }
  }

  lemma ChooseNext(seen: seq<Span>, chosen: seq<Span>, s: Span)
    requires Chosen(seen, chosen) && s.start <= s.end && forall c | c in seen :: Sooner(c, s) && c.start <= c.end
    ensures chosen != [] && s.start < chosen[|chosen| - 1].end ==> Chosen(seen + [s], chosen)
    ensures !(chosen != [] && s.start < chosen[|chosen| - 1].end) ==> Chosen(seen + [s], chosen + [s])
  {
    if chosen != [] && s.start < chosen[|chosen| - 1].end {
      assert chosen[|chosen| - 1] in chosen;
      SkipCovered(chosen, s);
    } else {
      ApartNext(chosen, s);
      forall t | t in seen + [s] ensures Covered(chosen + [s], t) {
        CoveredByMore(chosen, s, t);
      }
    }
  }

  method ChooseSpans(text: string, spans: seq<Span>) returns (chosen: seq<Span>)
    requires Within(text, spans)
    ensures Within(text, chosen) && Chosen(spans, chosen) && FirstsChosen(spans, chosen)
  {
    var sorted := Sort(spans, Sooner);
    SortElements(spans, Sooner);
    SortedSooner(spans);
    chosen := [];
    for i := 0 to |sorted|
      invariant Chosen(sorted[..i], chosen) && FirstsChosen(sorted[..i], chosen)
    {
      var s := sorted[i];
      FirstsAt(text, spans, sorted, i, chosen);
      ChooseAt(text, spans, sorted, i, chosen);
      if chosen != [] && s.start < chosen[|chosen| - 1].end {
        continue;
      }
      chosen := chosen + [s];
    }
    assert sorted[..|sorted|] == sorted;
    SomeWithin(text, spans, chosen);
    FirstsInOrder(spans, chosen);
  }

  // --- spans over the same characters ---

  predicate SameRange(a: Span, b: Span) {
    a.start == b.start && a.end == b.end
  }

  // Of all spans over its characters it is the first one listed.
  ghost predicate ListedFirst(spans: seq<Span>, c: Span) {
    exists i :: 0 <= i < |spans| && spans[i] == c && forall j | 0 <= j < i :: !SameRange(spans[j], c)
  }

  ghost predicate FirstsChosen(spans: seq<Span>, chosen: seq<Span>) {
    forall c | c in chosen && c.start < c.end :: ListedFirst(spans, c)
  }

  lemma FirstsNext(seen: seq<Span>, chosen: seq<Span>, s: Span)
    requires Chosen(seen, chosen) && FirstsChosen(seen, chosen) && (forall c | c in chosen :: c.start <= c.end)
    requires chosen != [] ==> chosen[|chosen| - 1].end <= s.start
    ensures FirstsChosen(seen + [s], chosen + [s])
  {
    FirstsStay(seen, chosen, s);
    if s.start < s.end {
      forall j | 0 <= j < |seen| ensures !SameRange(seen[j], s) {
        if SameRange(seen[j], s) {
          assert Covered(chosen, seen[j]);
          var c :| c in chosen && (c == seen[j] || (c.start <= seen[j].start < c.end && (c.start == seen[j].start ==> seen[j].end <= c.end)));
          LastEndsLast(chosen, c);
        }
      }
      assert (seen + [s])[|seen|] == s;
    }
  }

  lemma LastEndsLast(chosen: seq<Span>, c: Span)
    requires Apart(chosen) && c in chosen && forall d | d in chosen :: d.start <= d.end
    ensures c.end <= chosen[|chosen| - 1].end
  {
    var i :| 0 <= i < |chosen| && chosen[i] == c;
    assert chosen[|chosen| - 1] in chosen;
  }

  lemma FirstsStay(seen: seq<Span>, chosen: seq<Span>, s: Span)
    requires FirstsChosen(seen, chosen)
    ensures FirstsChosen(seen + [s], chosen)
  {
    forall c | c in chosen && c.start < c.end ensures ListedFirst(seen + [s], c) {
      var i :| 0 <= i < |seen| && seen[i] == c && forall j | 0 <= j < i :: !SameRange(seen[j], c);
      assert (seen + [s])[i] == c;
    }
  }

  lemma FirstsAt(text: string, spans: seq<Span>, sorted: seq<Span>, i: nat, chosen: seq<Span>)
    requires Within(text, spans) && i < |sorted| && forall s | s in sorted :: s in spans
    requires Chosen(sorted[..i], chosen) && FirstsChosen(sorted[..i], chosen)
    ensures FirstsChosen(sorted[..i + 1], if chosen != [] && sorted[i].start < chosen[|chosen| - 1].end then chosen else chosen + [sorted[i]])
  {
    assert sorted[..i + 1] == sorted[..i] + [sorted[i]];
    forall c | c in chosen ensures c.start <= c.end {
      assert c in sorted;
      var k :| 0 <= k < |spans| && spans[k] == c;
    }
    if chosen != [] && sorted[i].start < chosen[|chosen| - 1].end {
      FirstsStay(sorted[..i], chosen, sorted[i]);
    } else {
      FirstsNext(sorted[..i], chosen, sorted[i]);
    }
  }

  lemma FirstsInOrder(spans: seq<Span>, chosen: seq<Span>)
    requires FirstsChosen(Sort(spans, Sooner), chosen)
    ensures FirstsChosen(spans, chosen)
  {
    var sorted := Sort(spans, Sooner);
    assert TotalPreorder(Sooner);
    SortElements(spans, Sooner);
    forall c | c in chosen && c.start < c.end ensures ListedFirst(spans, c) {
      var i :| 0 <= i < |sorted| && sorted[i] == c && forall j | 0 <= j < i :: !SameRange(sorted[j], c);
      var alike := (s: Span) => SameRange(s, c);
      assert sorted[i] in sorted && alike(c);
      SortStable(spans, Sooner, alike);
      var k := PickFirst(sorted, alike);
      var l := PickFirst(spans, alike);
      assert !(k < i) && !(i < k);
    }
  }

  lemma SomeWithin(text: string, spans: seq<Span>, some: seq<Span>)
    requires Within(text, spans) && forall s | s in some :: s in spans
    ensures Within(text, some)
  {
    forall i | 0 <= i < |some| ensures some[i].start <= some[i].end <= |text| {
      assert some[i] in some;
      var k :| 0 <= k < |spans| && spans[k] == some[i];
    }
  }

  lemma SoonerBefore(text: string, spans: seq<Span>, sorted: seq<Span>, i: nat)
    requires Within(text, spans) && i < |sorted| && Pairwise(sorted, Sooner) && forall s | s in sorted :: s in spans
    ensures sorted[i].start <= sorted[i].end
    ensures forall c | c in sorted[..i] :: Sooner(c, sorted[i]) && c.start <= c.end
  {
    SomeWithin(text, spans, sorted);
    forall c | c in sorted[..i] ensures Sooner(c, sorted[i]) && c.start <= c.end {
      var k :| 0 <= k < i && sorted[..i][k] == c;
      assert sorted[k] in sorted;
    }
  }

  lemma ChooseAt(text: string, spans: seq<Span>, sorted: seq<Span>, i: nat, chosen: seq<Span>)
    requires Within(text, spans) && i < |sorted| && Pairwise(sorted, Sooner) && forall s | s in sorted :: s in spans
    requires Chosen(sorted[..i], chosen)
    ensures Chosen(sorted[..i + 1], if chosen != [] && sorted[i].start < chosen[|chosen| - 1].end then chosen else chosen + [sorted[i]])
  {
    assert sorted[..i + 1] == sorted[..i] + [sorted[i]];
    SoonerBefore(text, spans, sorted, i);
    ChooseNext(sorted[..i], chosen, sorted[i]);
  }

  lemma SortedSooner(spans: seq<Span>)
    ensures Pairwise(Sort(spans, Sooner), Sooner)
  {
    assert TotalPreorder(Sooner);
    SortSorted(spans, Sooner);
  }

  // --- values and placeholders ---

  function Stripped(value: string, space: char -> bool): string {
    if value == "" then ""
    else
      var last := value[|value| - 1];
      Stripped(value[..|value| - 1], space) + if space(last) || last == '-' then "" else [last]
  }

  // One value is one key however it is spaced or hyphenated: every other character stays, in order.
  lemma {:induction false} StrippedJoins(some: string, others: string, space: char -> bool)
    ensures Stripped(some + others, space) == Stripped(some, space) + Stripped(others, space)
  {
    if others == "" {
      assert some + others == some;
    } else {
      StrippedJoins(some, others[..|others| - 1], space);
      assert (some + others)[..|some + others| - 1] == some + others[..|others| - 1];
    }
  }

  lemma StrippedOne(c: char, space: char -> bool)
    ensures Stripped([c], space) == if c == '-' || space(c) then "" else [c]
  {
    assert [c][..0] == "";
  }

  function KeyOf(text: string, span: Span, space: char -> bool): Key
    requires span.start <= span.end <= |text|
  {
    (span.kind, Stripped(text[span.start..span.end], space))
  }

  function Keys(text: string, chosen: seq<Span>, space: char -> bool): (r: seq<Key>)
    requires Within(text, chosen)
    ensures |r| == |chosen|
  {
    seq(|chosen|, i requires 0 <= i < |chosen| => KeyOf(text, chosen[i], space))
  }

  function Distinct(keys: seq<Key>): seq<Key> {
    if keys == [] then []
    else
      var before := Distinct(keys[..|keys| - 1]);
      if keys[|keys| - 1] in before then before else before + [keys[|keys| - 1]]
  }

  function OfKind(keys: seq<Key>, kind: string): nat {
    if keys == [] then 0 else OfKind(keys[..|keys| - 1], kind) + if keys[|keys| - 1].0 == kind then 1 else 0
  }

  function Placeholder(kind: string, n: nat): string {
    Tagged(kind, Decimal(n))
  }

  // As in <EMAIL_12>.
  lemma PlaceholderReads()
    ensures Placeholder("EMAIL", 7) == "<EMAIL_7>" && Placeholder("EMAIL", 12) == "<EMAIL_12>"
  {
    assert Decimal(1) == "1" && Decimal(7) == "7" && Decimal(12) == Decimal(1) + "2";
  }

  lemma {:induction false} DecimalIsDigits(n: nat)
    ensures forall i | 0 <= i < |Decimal(n)| :: '0' <= Decimal(n)[i] <= '9'
    ensures Decimal(n) != ""
  {
    if n >= 10 {
      DecimalIsDigits(n / 10);
      var d := Decimal(n);
      assert d[|d| - 1] == DIGITS[n % 10];
      assert forall i | 0 <= i < |d| - 1 :: d[i] == Decimal(n / 10)[i];
    }
  }

  function Tagged(kind: string, digits: string): string {
    "<" + kind + "_" + digits + ">"
  }

  ghost predicate NoUnderscore(s: string) {
    forall i | 0 <= i < |s| :: s[i] != '_'
  }

  lemma TaggedAt(kind: string, digits: string, i: nat)
    requires i < |digits|
    ensures Tagged(kind, digits)[|kind| + 1] == '_' && Tagged(kind, digits)[|kind| + 2 + i] == digits[i]
  {
  }

  lemma NoneAfter(kind: string, digits: string)
    requires NoUnderscore(digits)
    ensures forall p | |kind| + 1 < p < |Tagged(kind, digits)| :: Tagged(kind, digits)[p] != '_'
  {
    forall p | |kind| + 1 < p < |Tagged(kind, digits)| ensures Tagged(kind, digits)[p] != '_' {
      if p < |kind| + 2 + |digits| { TaggedAt(kind, digits, p - |kind| - 2); }
    }
  }

  // The last underscore separates the kind from the number.
  lemma TaggedLength(k: string, d: string, l: string, e: string)
    requires Tagged(k, d) == Tagged(l, e) && NoUnderscore(d) && d != "" && e != ""
    ensures |k| >= |l|
  {
    NoneAfter(k, d);
    TaggedAt(l, e, 0);
  }

  lemma TaggedIsInjective(k: string, d: string, l: string, e: string)
    requires Tagged(k, d) == Tagged(l, e) && NoUnderscore(d) && NoUnderscore(e) && d != "" && e != ""
    ensures k == l && d == e
  {
    TaggedLength(k, d, l, e);
    TaggedLength(l, e, k, d);
    var p := Tagged(k, d);
    assert p[1..|k| + 1] == k && p[|k| + 2..|p| - 1] == d;
    assert p[1..|l| + 1] == l && p[|l| + 2..|p| - 1] == e;
  }

  lemma PlaceholderIsInjective(k: string, m: nat, l: string, n: nat)
    requires Placeholder(k, m) == Placeholder(l, n)
    ensures k == l && m == n
  {
    DecimalIsDigits(m);
    DecimalIsDigits(n);
    TaggedIsInjective(k, Decimal(m), l, Decimal(n));
    DecimalRoundTrip(m);
    DecimalRoundTrip(n);
  }

  type Tagging = (string, nat) -> string

  // Every key seen so far has the tag of its kind with the number of its first appearance.
  ghost predicate Assigned(tag: Tagging, order: seq<Key>, names: map<Key, string>) {
    && (forall k :: k in names <==> k in order)
    && forall i: nat | i < |order| :: TaggedAs(tag, order, names, i)
  }

  ghost predicate Once(order: seq<Key>) {
    forall i, j | 0 <= i < j < |order| :: order[i] != order[j]
  }

  lemma {:induction false} DistinctKeys(keys: seq<Key>)
    ensures Once(Distinct(keys)) && forall k :: k in Distinct(keys) <==> k in keys
  {
    if keys != [] {
      DistinctKeys(keys[..|keys| - 1]);
      assert keys == keys[..|keys| - 1] + [keys[|keys| - 1]];
    }
  }

  // Keys are listed by first appearance: those of an earlier part come first.
  lemma {:induction false} FirstSeenFirst(keys: seq<Key>, n: nat)
    requires n <= |keys|
    ensures Distinct(keys[..n]) <= Distinct(keys)
  {
    if n == |keys| {
      assert keys[..n] == keys;
    } else {
      FirstSeenFirst(keys[..|keys| - 1], n);
      assert keys[..|keys| - 1][..n] == keys[..n];
    }
  }

  lemma {:induction false} CountGrows(order: seq<Key>, i: nat, j: nat, kind: string)
    requires i <= j <= |order|
    ensures OfKind(order[..i], kind) <= OfKind(order[..j], kind)
    ensures i < j && order[j - 1].0 == kind ==> OfKind(order[..i], kind) < OfKind(order[..j], kind)
  {
    if i < j {
      assert order[..j][..j - 1] == order[..j - 1];
      CountGrows(order, i, j - 1, kind);
    }
  }

  lemma NumbersDiffer(order: seq<Key>, i: nat, j: nat)
    requires i < j < |order| && order[i].0 == order[j].0
    ensures OfKind(order[..i + 1], order[i].0) < OfKind(order[..j + 1], order[j].0)
  {
    CountGrows(order, i + 1, j + 1, order[j].0);
  }

  // Equal placeholders mean the same kind and the same value up to separators.
  lemma SamePlaceholder(order: seq<Key>, names: map<Key, string>, k: Key, l: Key)
    requires Assigned(Placeholder, order, names) && k in names && l in names
    ensures names[k] == names[l] <==> k == l
  {
    var i: nat :| i < |order| && order[i] == k;
    var j: nat :| j < |order| && order[j] == l;
    var m, n := OfKind(order[..i + 1], k.0), OfKind(order[..j + 1], l.0);
    assert TaggedAs(Placeholder, order, names, i) && TaggedAs(Placeholder, order, names, j);
    if names[k] == names[l] {
      PlaceholderIsInjective(k.0, m, l.0, n);
      if i < j { NumbersDiffer(order, i, j); }
      if j < i { NumbersDiffer(order, j, i); }
    }
  }

  // The numbers of a kind are exactly 1..n.
  lemma {:induction false} NumbersHaveNoGap(order: seq<Key>, kind: string, n: nat) returns (i: nat)
    requires 1 <= n <= OfKind(order, kind)
    ensures i < |order| && order[i].0 == kind && OfKind(order[..i + 1], kind) == n
  {
    var m := |order| - 1;
    if n <= OfKind(order[..m], kind) {
      i := NumbersHaveNoGap(order[..m], kind, n);
      assert order[..m][..i + 1] == order[..i + 1];
    } else {
      i := m;
      assert order[..i + 1] == order;
    }
  }

  // --- the text around the spans ---

  // Where the first `n` spans end.
  function Ending(chosen: seq<Span>, n: nat): nat
    requires n <= |chosen|
  {
    if n == 0 then 0 else chosen[n - 1].end
  }

  // The text up to there, with `items` in place of the spans.
  function Replaced(text: string, chosen: seq<Span>, items: seq<string>, n: nat): string
    requires Within(text, chosen) && Apart(chosen) && |items| == |chosen| && n <= |chosen|
  {
    if n == 0 then ""
    else Replaced(text, chosen, items, n - 1) + text[Ending(chosen, n - 1)..chosen[n - 1].start] + items[n - 1]
  }

  // The whole text with `items` in place of the spans.
  function Substituted(text: string, chosen: seq<Span>, items: seq<string>): string
    requires Within(text, chosen) && Apart(chosen) && |items| == |chosen|
  {
    Replaced(text, chosen, items, |chosen|) + text[Ending(chosen, |chosen|)..]
  }

  function Values(text: string, chosen: seq<Span>): (r: seq<string>)
    requires Within(text, chosen)
    ensures |r| == |chosen|
  {
    seq(|chosen|, i requires 0 <= i < |chosen| => text[chosen[i].start..chosen[i].end])
  }

  lemma Glue(text: string, a: nat, b: nat, c: nat)
    requires a <= b <= c <= |text|
    ensures text[..a] + text[a..b] + text[b..c] == text[..c]
  {
  }

  // Putting the values back gives the text, so outside the spans nothing changed.
  lemma {:induction false} OutsideUnchanged(text: string, chosen: seq<Span>, n: nat)
    requires Within(text, chosen) && Apart(chosen) && n <= |chosen|
    ensures Replaced(text, chosen, Values(text, chosen), n) == text[..Ending(chosen, n)]
  {
    if n > 0 {
      OutsideUnchanged(text, chosen, n - 1);
      Glue(text, Ending(chosen, n - 1), chosen[n - 1].start, chosen[n - 1].end);
    }
  }

  // --- the code ---

  function Names(keys: seq<Key>, names: map<Key, string>): (r: seq<string>)
    requires forall k | k in keys :: k in names
    ensures |r| == |keys|
  {
    seq(|keys|, i requires 0 <= i < |keys| => assert keys[i] in keys; names[keys[i]])
  }

  ghost predicate TaggedAs(tag: Tagging, order: seq<Key>, names: map<Key, string>, i: nat)
    requires i < |order|
  {
    order[i] in names && names[order[i]] == tag(order[i].0, OfKind(order[..i + 1], order[i].0))
  }

  lemma OldTagStays(tag: Tagging, order: seq<Key>, names: map<Key, string>, k: Key, name: string, i: nat)
    requires i < |order| && TaggedAs(tag, order, names, i) && k !in order
    ensures TaggedAs(tag, order + [k], names[k := name], i)
  {
    var more := order + [k];
    assert order[i] in order && more[i] == order[i];
    assert more[..i + 1] == order[..i + 1];
  }

  lemma KindNext(order: seq<Key>, k: Key, kind: string)
    ensures OfKind(order + [k], kind) == OfKind(order, kind) + if k.0 == kind then 1 else 0
  {
    assert (order + [k])[..|order|] == order;
  }

  lemma NewTag(tag: Tagging, order: seq<Key>, names: map<Key, string>, k: Key, n: nat)
    requires n == OfKind(order, k.0) + 1 && k in names && names[k] == tag(k.0, n)
    ensures TaggedAs(tag, order + [k], names, |order|)
  {
    var more := order + [k];
    assert more[..|order| + 1] == more;
    KindNext(order, k, k.0);
  }

  lemma AssignNext(tag: Tagging, order: seq<Key>, names: map<Key, string>, k: Key)
    requires Assigned(tag, order, names) && k !in order
    ensures Assigned(tag, order + [k], names[k := tag(k.0, OfKind(order, k.0) + 1)])
  {
    var more, n := order + [k], OfKind(order, k.0) + 1;
    var renamed := names[k := tag(k.0, n)];
    forall i: nat | i < |more| ensures TaggedAs(tag, more, renamed, i) {
      if i < |order| {
        assert TaggedAs(tag, order, names, i);
        OldTagStays(tag, order, names, k, tag(k.0, n), i);
      } else {
        NewTag(tag, order, renamed, k, n);
      }
    }
  }

  ghost predicate Counted(order: seq<Key>, counters: map<string, nat>) {
    forall kind :: OfKind(order, kind) == if kind in counters then counters[kind] else 0
  }

  lemma CountNext(order: seq<Key>, counters: map<string, nat>, k: Key)
    requires Counted(order, counters)
    ensures Counted(order + [k], counters[k.0 := OfKind(order, k.0) + 1])
  {
    forall kind ensures OfKind(order + [k], kind) == OfKind(order, kind) + if k.0 == kind then 1 else 0 { KindNext(order, k, kind); }
  }

  lemma DistinctNext(keys: seq<Key>, k: Key)
    ensures Distinct(keys + [k]) == if k in Distinct(keys) then Distinct(keys) else Distinct(keys) + [k]
  {
    assert (keys + [k])[..|keys|] == keys;
  }

  method NameKey(tag: Tagging, ghost order: seq<Key>, k: Key, names: map<Key, string>, counters: map<string, nat>)
    returns (more: map<Key, string>, counts: map<string, nat>)
    requires Assigned(tag, order, names) && Counted(order, counters) && k !in names
    ensures Assigned(tag, order + [k], more) && Counted(order + [k], counts)
  {
    AssignNext(tag, order, names, k);
    CountNext(order, counters, k);
    var n := (if k.0 in counters then counters[k.0] else 0) + 1;
    counts := counters[k.0 := n];
    more := names[k := tag(k.0, n)];
  }

  // Names every key by its kind and the order of first appearance.
  method AssignPlaceholders(tag: Tagging, keys: seq<Key>) returns (names: map<Key, string>)
    ensures Assigned(tag, Distinct(keys), names)
  {
    names := map[];
    var counters: map<string, nat> := map[];
    ghost var order: seq<Key> := [];
    for i := 0 to |keys|
      invariant order == Distinct(keys[..i])
      invariant Assigned(tag, order, names) && Counted(order, counters)
    {
      assert keys[..i + 1] == keys[..i] + [keys[i]];
      DistinctNext(keys[..i], keys[i]);
      if keys[i] !in names {
        names, counters := NameKey(tag, order, keys[i], names, counters);
        order := order + [keys[i]];
      }
    }
    assert keys[..|keys|] == keys;
  }

  function Occurrences(placeholders: seq<string>, p: string): nat {
    if placeholders == [] then 0
    else Occurrences(placeholders[..|placeholders| - 1], p) + if placeholders[|placeholders| - 1] == p then 1 else 0
  }

  lemma {:induction false} OccurrencesCount(placeholders: seq<string>, p: string)
    ensures Occurrences(placeholders, p) == |set i | 0 <= i < |placeholders| && placeholders[i] == p|
  {
    if placeholders != [] {
      var n := |placeholders| - 1;
      OccurrencesCount(placeholders[..n], p);
      var was := set i | 0 <= i < n && placeholders[..n][i] == p;
      var now := set i | 0 <= i < |placeholders| && placeholders[i] == p;
      assert n !in was && now == was + if placeholders[n] == p then {n} else {};
    }
  }

  method Assemble(text: string, chosen: seq<Span>, placeholders: seq<string>) returns (masked: string)
    requires Within(text, chosen) && Apart(chosen) && |placeholders| == |chosen|
    ensures masked == Substituted(text, chosen, placeholders)
  {
    masked := "";
    var cursor := 0;
    for i := 0 to |chosen|
      invariant cursor == Ending(chosen, i) && masked == Replaced(text, chosen, placeholders, i)
    {
      masked := masked + text[cursor..chosen[i].start] + placeholders[i];
      cursor := chosen[i].end;
    }
    masked := masked + text[cursor..];
  }

  method ListEntities(order: seq<Key>, names: map<Key, string>, placeholders: seq<string>) returns (entities: seq<Entity>)
    requires Assigned(Placeholder, order, names)
    ensures |entities| == |order|
    ensures forall i: nat | i < |order| :: order[i] in names && entities[i] == Entity(order[i].0, names[order[i]], Occurrences(placeholders, names[order[i]]))
  {
    entities := [];
    for i := 0 to |order|
      invariant |entities| == i
      invariant forall k: nat | k < i :: order[k] in names && entities[k] == Entity(order[k].0, names[order[k]], Occurrences(placeholders, names[order[k]]))
    {
      assert order[i] in names;
      entities := entities + [Entity(order[i].0, names[order[i]], Occurrences(placeholders, names[order[i]]))];
    }
  }

  lemma {:induction false} OccurrencesPositive(placeholders: seq<string>, i: nat)
    requires i < |placeholders|
    ensures Occurrences(placeholders, placeholders[i]) > 0
  {
    if i < |placeholders| - 1 { OccurrencesPositive(placeholders[..|placeholders| - 1], i); }
  }

  // Every entity listed occurs in the text.
  lemma NamedOccurs(keys: seq<Key>, names: map<Key, string>, k: Key)
    requires (forall k | k in keys :: k in names) && k in keys
    ensures Occurrences(Names(keys, names), names[k]) > 0
  {
    var i: nat :| i < |keys| && keys[i] == k;
    assert Names(keys, names)[i] == names[k];
    OccurrencesPositive(Names(keys, names), i);
  }

  method ApplySpans(text: string, spans: seq<Span>, space: char -> bool)
    returns (masked: string, entities: seq<Entity>, chosen: seq<Span>, names: map<Key, string>)
    requires Within(text, spans)
    ensures Within(text, chosen) && Chosen(spans, chosen) && FirstsChosen(spans, chosen)
    ensures var keys := Keys(text, chosen, space);
      && Assigned(Placeholder, Distinct(keys), names) && (forall k | k in keys :: k in names)
      && masked == Substituted(text, chosen, Names(keys, names))
      && |entities| == |Distinct(keys)|
      && forall i: nat | i < |entities| :: Distinct(keys)[i] in names
           && entities[i] == Entity(Distinct(keys)[i].0, names[Distinct(keys)[i]], Occurrences(Names(keys, names), names[Distinct(keys)[i]]))
           && Occurrences(Names(keys, names), names[Distinct(keys)[i]]) > 0
  {
    chosen := ChooseSpans(text, spans);
    var keys := Keys(text, chosen, space);
    DistinctKeys(keys);
    names := AssignPlaceholders(Placeholder, keys);
    var placeholders := Names(keys, names);
    masked := Assemble(text, chosen, placeholders);
    entities := ListEntities(Distinct(keys), names, placeholders);
    forall i: nat | i < |entities| ensures Occurrences(placeholders, names[Distinct(keys)[i]]) > 0 {
      assert Distinct(keys)[i] in keys;
      NamedOccurs(keys, names, Distinct(keys)[i]);
    }
  }

  // --- what the result means ---

  // The unmasked text is the masked text with each value in its place.
  lemma MaskingIsLocal(text: string, chosen: seq<Span>)
    requires Within(text, chosen) && Apart(chosen)
    ensures text == Substituted(text, chosen, Values(text, chosen))
  {
    OutsideUnchanged(text, chosen, |chosen|);
  }
}
