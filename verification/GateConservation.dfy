/** What remediation may do to the prose: drop cited sentences, mask, filter citations and label - nothing else. */
module GateConservation {
  import opened Wrappers
  import opened Reports
  import opened GateRules
  import opened GateRemedy
  import opened GateSentences
  import opened GateTheorems
  import opened GateConvergence

  function Masked(redact: string -> string, times: nat, text: string): string {
    if times == 0 then text else redact(Masked(redact, times - 1, text))
  }

  ghost predicate MaskedFrom(redact: string -> string, text: string, shown: string) {
    exists times: nat :: shown == Masked(redact, times, text)
  }

  ghost predicate KeptAs(ctx: Context, s: Sentence, t: Sentence) {
    && t.kind == s.kind && t.findingRefs == s.findingRefs && s.labels <= t.labels
    && (t.clusterIds == s.clusterIds || t.clusterIds == Known(s.clusterIds, ctx.ledger))
    && MaskedFrom(ctx.texts.redact, s.text, t.text)
  }

  // `new` is `old` less `lost` sentences, none of them citation-free gate prose.
  ghost predicate Kept(ctx: Context, before: seq<Sentence>, after: seq<Sentence>, lost: nat) {
    if before == [] then after == [] && lost == 0
    else
      var front, last := before[..|before| - 1], before[|before| - 1];
      || (after != [] && KeptAs(ctx, last, after[|after| - 1]) && Kept(ctx, front, after[..|after| - 1], lost))
      || (!Authored(last) && lost > 0 && Kept(ctx, front, after, lost - 1))
  }

  // The kept sentences come first, in their old order; whatever follows the gate wrote itself.
  ghost predicate Conserved(ctx: Context, before: seq<Sentence>, after: seq<Sentence>, lost: nat) {
    exists n: nat :: n <= |after| && Kept(ctx, before, after[..n], lost) && AllAuthored(after[n..])
  }

  ghost predicate AllAuthored(sentences: seq<Sentence>) {
    forall i | 0 <= i < |sentences| :: Authored(sentences[i])
  }

  // --- one sentence ---

  lemma {:induction false} MaskedTwice(redact: string -> string, m: nat, n: nat, text: string)
    ensures Masked(redact, n, Masked(redact, m, text)) == Masked(redact, m + n, text)
  {
    if n > 0 { MaskedTwice(redact, m, n - 1, text); }
  }

  // With an idempotent mask, a delivered text is the original or its mask.
  lemma {:induction false} MaskedOnce(redact: string -> string, n: nat, text: string)
    requires forall x :: redact(redact(x)) == redact(x)
    ensures Masked(redact, n, text) == if n == 0 then text else redact(text)
  {
    if n > 0 { MaskedOnce(redact, n - 1, text); }
  }

  lemma KeptAsTwice(ctx: Context, s: Sentence, t: Sentence, u: Sentence)
    requires KeptAs(ctx, s, t) && KeptAs(ctx, t, u)
    ensures KeptAs(ctx, s, u)
  {
    KnownTwice(s.clusterIds, ctx.ledger);
    var redact := ctx.texts.redact;
    var m: nat :| t.text == Masked(redact, m, s.text);
    var n: nat :| u.text == Masked(redact, n, t.text);
    MaskedTwice(redact, m, n, s.text);
  }

  lemma Unchanged(ctx: Context, s: Sentence)
    ensures KeptAs(ctx, s, s)
  {
    assert s.text == Masked(ctx.texts.redact, 0, s.text);
  }

  lemma TouchKeeps(ctx: Context, v: Violation, at: Address, s: Sentence)
    ensures KeptAs(ctx, s, Touch(ctx, v, at, s))
  {
    assert s.text == Masked(ctx.texts.redact, 0, s.text);
    assert ctx.texts.redact(s.text) == Masked(ctx.texts.redact, 1, s.text);
  }

  lemma {:induction false} TreatedIsKept(ctx: Context, vs: seq<Violation>, at: Address, s: Sentence)
    ensures KeptAs(ctx, s, Treated(ctx, vs, at, s))
  {
    if vs == [] {
      Unchanged(ctx, s);
    } else {
      var t := Treated(ctx, vs[..|vs| - 1], at, s);
      TreatedIsKept(ctx, vs[..|vs| - 1], at, s);
      TouchKeeps(ctx, vs[|vs| - 1], at, t);
      KeptAsTwice(ctx, s, t, Treated(ctx, vs, at, s));
    }
  }

  lemma AuthoredStays(ctx: Context, s: Sentence, t: Sentence)
    requires KeptAs(ctx, s, t) && Authored(s)
    ensures Authored(t)
  {
  }

  // --- one section, one round ---

  lemma {:induction false} SurvivorsAreKept(ctx: Context, vs: seq<Violation>, key: SectionKey, before: seq<Sentence>)
    requires forall i: nat | i < |before| && Authored(before[i]) :: !Doomed(ctx, vs, Address(key, i), before[i])
    ensures |Survivors(ctx, vs, key, before)| <= |before|
    ensures Kept(ctx, before, Survivors(ctx, vs, key, before), |before| - |Survivors(ctx, vs, key, before)|)
  {
    if before != [] {
      var i := |before| - 1;
      var front := before[..i];
      var was, now := Survivors(ctx, vs, key, front), Survivors(ctx, vs, key, before);
      SurvivorsAreKept(ctx, vs, key, front);
      if !Doomed(ctx, vs, Address(key, i), before[i]) {
        TreatedIsKept(ctx, vs, Address(key, i), before[i]);
        assert now[..|now| - 1] == was;
      } else {
        assert now == was;
      }
    }
  }

  lemma JoinConserves(ctx: Context, before: seq<Sentence>, left: seq<Sentence>, tail: seq<Sentence>, lost: nat)
    requires Kept(ctx, before, left, lost) && AllAuthored(tail)
    ensures Conserved(ctx, before, left + tail, lost)
  {
    assert (left + tail)[..|left|] == left && (left + tail)[|left|..] == tail;
  }

  lemma {:induction false} NothingChanged(ctx: Context, sentences: seq<Sentence>)
    ensures Kept(ctx, sentences, sentences, 0) && Conserved(ctx, sentences, sentences, 0)
  {
    if sentences != [] {
      NothingChanged(ctx, sentences[..|sentences| - 1]);
      Unchanged(ctx, sentences[|sentences| - 1]);
    }
    assert sentences[..|sentences|] == sentences;
  }

  // --- several rounds ---

  lemma {:induction false} KeptTwice(ctx: Context, a: seq<Sentence>, b: seq<Sentence>, c: seq<Sentence>, m: nat, n: nat)
    requires Kept(ctx, a, b, m) && Kept(ctx, b, c, n)
    ensures Kept(ctx, a, c, m + n)
    decreases |a| + |b|
  {
    if a != [] {
      var x := a[|a| - 1];
      if b != [] && KeptAs(ctx, x, b[|b| - 1]) && Kept(ctx, a[..|a| - 1], b[..|b| - 1], m) {
        var y := b[|b| - 1];
        if c != [] && KeptAs(ctx, y, c[|c| - 1]) && Kept(ctx, b[..|b| - 1], c[..|c| - 1], n) {
          KeptTwice(ctx, a[..|a| - 1], b[..|b| - 1], c[..|c| - 1], m, n);
          KeptAsTwice(ctx, x, y, c[|c| - 1]);
        } else {
          KeptTwice(ctx, a[..|a| - 1], b[..|b| - 1], c, m, n - 1);
          if Authored(x) { AuthoredStays(ctx, x, y); }
        }
      } else {
        KeptTwice(ctx, a[..|a| - 1], b, c, m - 1, n);
      }
    }
  }

  // Gate prose is never dropped, so it stays behind the kept sentences of the next round.
  lemma {:induction false} TailStays(ctx: Context, b: seq<Sentence>, tail: seq<Sentence>, c: seq<Sentence>, n: nat)
    requires Kept(ctx, b + tail, c, n) && AllAuthored(tail)
    ensures |tail| <= |c| && Kept(ctx, b, c[..|c| - |tail|], n) && AllAuthored(c[|c| - |tail|..])
  {
    if tail == [] {
      assert b + tail == b && c[..|c|] == c;
    } else {
      var all, front := b + tail, tail[..|tail| - 1];
      assert all[..|all| - 1] == b + front && all[|all| - 1] == tail[|tail| - 1];
      var shorter := c[..|c| - 1];
      TailStays(ctx, b, front, shorter, n);
      AuthoredStays(ctx, tail[|tail| - 1], c[|c| - 1]);
      assert shorter[..|shorter| - |front|] == c[..|c| - |tail|];
      assert c[|c| - |tail|..] == shorter[|shorter| - |front|..] + [c[|c| - 1]];
    }
  }

  lemma CutTwice(c: seq<Sentence>, j: nat, k: nat)
    requires k <= j <= |c| && AllAuthored(c[..j][k..]) && AllAuthored(c[j..])
    ensures c[..j][..k] == c[..k] && AllAuthored(c[k..])
  {
    assert c[k..] == c[..j][k..] + c[j..];
  }

  lemma ConservedTwice(ctx: Context, a: seq<Sentence>, b: seq<Sentence>, c: seq<Sentence>, m: nat, n: nat)
    requires Conserved(ctx, a, b, m) && Conserved(ctx, b, c, n)
    ensures Conserved(ctx, a, c, m + n)
  {
    var i: nat :| i <= |b| && Kept(ctx, a, b[..i], m) && AllAuthored(b[i..]);
    var j: nat :| j <= |c| && Kept(ctx, b, c[..j], n) && AllAuthored(c[j..]);
    ConservedPieces(ctx, a, b, b[..i], b[i..], c, j, m, n);
  }

  lemma ConservedPieces(ctx: Context, a: seq<Sentence>, b: seq<Sentence>, left: seq<Sentence>, tail: seq<Sentence>, c: seq<Sentence>, j: nat, m: nat, n: nat)
    requires b == left + tail && Kept(ctx, a, left, m) && AllAuthored(tail)
    requires j <= |c| && Kept(ctx, b, c[..j], n) && AllAuthored(c[j..])
    ensures Conserved(ctx, a, c, m + n)
  {
    TailStays(ctx, left, tail, c[..j], n);
    var k := j - |tail|;
    CutTwice(c, j, k);
    KeptTwice(ctx, a, left, c[..k], m, n);
  }

  // --- counting ---

  function Content(sentences: seq<Sentence>): nat {
    if sentences == [] then 0
    else Content(sentences[..|sentences| - 1]) + if sentences[|sentences| - 1].kind == Meta then 0 else 1
  }

  lemma {:induction false} AuthoredIsNoContent(b: seq<Sentence>, tail: seq<Sentence>)
    requires AllAuthored(tail)
    ensures Content(b + tail) == Content(b)
  {
    if tail == [] {
      assert b + tail == b;
    } else {
      var all := b + tail;
      assert all[..|all| - 1] == b + tail[..|tail| - 1];
      AuthoredIsNoContent(b, tail[..|tail| - 1]);
    }
  }

  ghost predicate NotesCiteNothing(sentences: seq<Sentence>) {
    forall i | 0 <= i < |sentences| && sentences[i].kind == Meta :: Authored(sentences[i])
  }

  lemma {:induction false} KeptCounts(ctx: Context, a: seq<Sentence>, b: seq<Sentence>, lost: nat)
    requires Kept(ctx, a, b, lost)
    ensures Content(b) <= Content(a) <= Content(b) + lost
    ensures NotesCiteNothing(a) ==> Content(a) == Content(b) + lost
  {
    if a != [] {
      if b != [] && KeptAs(ctx, a[|a| - 1], b[|b| - 1]) && Kept(ctx, a[..|a| - 1], b[..|b| - 1], lost) {
        KeptCounts(ctx, a[..|a| - 1], b[..|b| - 1], lost);
      } else {
        KeptCounts(ctx, a[..|a| - 1], b, lost - 1);
      }
    }
  }

  // The count of dropped sentences is the number of facts and recommendations that went missing,
  // and never less than that.
  lemma ConservedCounts(ctx: Context, a: seq<Sentence>, b: seq<Sentence>, lost: nat)
    requires Conserved(ctx, a, b, lost)
    ensures Content(b) <= Content(a) <= Content(b) + lost
    ensures NotesCiteNothing(a) ==> Content(a) == Content(b) + lost
  {
    var n: nat :| n <= |b| && Kept(ctx, a, b[..n], lost) && AllAuthored(b[n..]);
    KeptCounts(ctx, a, b[..n], lost);
    AuthoredIsNoContent(b[..n], b[n..]);
    assert b == b[..n] + b[n..];
  }

  // --- one round ---

  lemma SectionIsKept(ctx: Context, before: Report, found: seq<Violation>, vs: seq<Violation>, key: SectionKey)
    requires AllFlags(before, ctx, found) && Selected(found, vs)
    ensures var were := Sentences(before.sections, key);
      Lost(ctx, vs, before.sections, key) >= 0
      && Kept(ctx, were, Survivors(ctx, vs, key, were), Lost(ctx, vs, before.sections, key))
  {
    var were := Sentences(before.sections, key);
    forall i: nat | i < |were| && Authored(were[i]) ensures !Doomed(ctx, vs, Address(key, i), were[i]) {
      AuthoredSurvives(before, ctx, found, vs, Address(key, i));
    }
    SurvivorsAreKept(ctx, vs, key, were);
  }

  lemma TailAllAuthored(ctx: Context, words: Wording, vs: seq<Violation>, key: SectionKey, held: nat)
    ensures AllAuthored(Tail(ctx, words, vs, key, held))
  {
    var tail := Tail(ctx, words, vs, key, held);
    TailIsAuthored(ctx, words, vs, key, held);
    assert forall i | 0 <= i < |tail| :: tail[i] in tail;
  }

  lemma RoundConservesSection(ctx: Context, words: Wording, before: Report, found: seq<Violation>, vs: seq<Violation>, after: Report, removed: nat, key: SectionKey)
    requires AllFlags(before, ctx, found) && Selected(found, vs) && Round(ctx, words, before, vs, after, removed)
    ensures Lost(ctx, vs, before.sections, key) >= 0
    ensures Conserved(ctx, Sentences(before.sections, key), Sentences(after.sections, key), Lost(ctx, vs, before.sections, key))
  {
    var were := Sentences(before.sections, key);
    SectionIsKept(ctx, before, found, vs, key);
    TailAllAuthored(ctx, words, vs, key, |were|);
    RoundAt(ctx, words, before, vs, after, key);
    JoinConserves(ctx, were, Survivors(ctx, vs, key, were), Tail(ctx, words, vs, key, |were|), Lost(ctx, vs, before.sections, key));
  }

  ghost predicate AllConserved(ctx: Context, before: Report, after: Report, lost: SectionKey -> nat) {
    forall key :: Conserved(ctx, Sentences(before.sections, key), Sentences(after.sections, key), lost(key))
  }

  // A round changes each section only as `Conserved` allows, and reports how much it dropped.
  lemma RoundConserves(ctx: Context, words: Wording, before: Report, after: Report, removed: nat) returns (lost: SectionKey -> nat)
    requires DistinctKeys(before.sections) && Round(ctx, words, before, ToRemedy(Violations(before, ctx)), after, removed)
    ensures AllConserved(ctx, before, after, lost) && removed == Sum(key => lost(key))
  {
    var found := Violations(before, ctx);
    var vs := ToRemedy(found);
    ViolationsAreFlags(before, ctx);
    lost := LostBy(ctx, words, before, found, vs, after, removed);
  }

  ghost function LossOf(ctx: Context, vs: seq<Violation>, before: Report): SectionKey -> nat {
    key => if Lost(ctx, vs, before.sections, key) >= 0 then Lost(ctx, vs, before.sections, key) else 0
  }

  lemma LossIsLost(ctx: Context, words: Wording, before: Report, found: seq<Violation>, vs: seq<Violation>, after: Report, removed: nat, key: SectionKey)
    requires AllFlags(before, ctx, found) && Selected(found, vs) && Round(ctx, words, before, vs, after, removed)
    ensures LossOf(ctx, vs, before)(key) == Lost(ctx, vs, before.sections, key)
    ensures Conserved(ctx, Sentences(before.sections, key), Sentences(after.sections, key), LossOf(ctx, vs, before)(key))
  {
    RoundConservesSection(ctx, words, before, found, vs, after, removed, key);
  }

  lemma SumOfLosses(ctx: Context, words: Wording, before: Report, vs: seq<Violation>, after: Report, removed: nat)
    requires Round(ctx, words, before, vs, after, removed)
    requires forall key :: LossOf(ctx, vs, before)(key) == Lost(ctx, vs, before.sections, key)
    ensures removed == Sum(key => LossOf(ctx, vs, before)(key))
  {
  }

  lemma LostBy(ctx: Context, words: Wording, before: Report, found: seq<Violation>, vs: seq<Violation>, after: Report, removed: nat)
    returns (lost: SectionKey -> nat)
    requires AllFlags(before, ctx, found) && Selected(found, vs) && Round(ctx, words, before, vs, after, removed)
    ensures AllConserved(ctx, before, after, lost) && removed == Sum(key => lost(key))
  {
    lost := LossOf(ctx, vs, before);
    forall key
      ensures lost(key) == Lost(ctx, vs, before.sections, key)
      ensures Conserved(ctx, Sentences(before.sections, key), Sentences(after.sections, key), lost(key))
    {
      LossIsLost(ctx, words, before, found, vs, after, removed, key);
    }
    SumOfLosses(ctx, words, before, vs, after, removed);
  }
}
