/**
 Counts of the ledger stated in prose ("3 sources"). The number rule compares the whole part of what
 is stated with the ledger, but reads a stated zero as minus one: a true count is accepted exactly
 if it is not zero, and a sentence that truly states a zero is dropped by the next round.
 */
module GateCounts {
  import opened Wrappers
  import opened Numeric
  import opened Reports
  import opened GateRules
  import opened GateRemedy
  import opened GateSentences
  import opened GateTheorems
  import opened GateConvergence

  // The quantity counts something of the ledger, and the question does not mention it.
  ghost predicate Counts(text: string, q: Quantity, ctx: Context, noun: Noun) {
    && q.kind == Number && ctx.texts.ledgerNoun(text, q) == Some(noun)
    && !MatchesAny(q, ctx.texts.quantities(ctx.ledger.question), EXACT)
  }

  // A number without a value states nothing.
  predicate StatesZero(q: Quantity) {
    q.values == [] || q.values[0] == 0.0
  }

  lemma ExpectedAreCounts(noun: Noun, ids: seq<string>, ledger: Ledger, listed: nat)
    ensures forall n | n in LedgerExpected(noun, ids, ledger, listed) :: n >= 0
  {
  }

  // Flagged exactly if zero, whatever the ledger holds, or a whole part that is no expected count.
  lemma CountIsFlaggedIff(at: Address, text: string, q: Quantity, refs: seq<string>, ctx: Context, listed: nat, noun: Noun)
    requires Counts(text, q, ctx, noun)
    ensures CheckQuantity(at, text, q, refs, ctx, listed) == [LedgerMismatch(at)]
      <==> StatesZero(q) || Truncate(q.values[0]) !in LedgerExpected(noun, refs, ctx.ledger, listed)
    ensures CheckQuantity(at, text, q, refs, ctx, listed) in {[], [LedgerMismatch(at)]}
  {
    ExpectedAreCounts(noun, refs, ctx.ledger, listed);
  }

  lemma WholeCount(n: nat)
    ensures Truncate(n as real) == n
  {
  }

  // So a true count passes exactly if it is not zero ...
  lemma TrueCountIsAcceptedIffPositive(at: Address, text: string, q: Quantity, refs: seq<string>, ctx: Context, listed: nat, noun: Noun, n: nat)
    requires Counts(text, q, ctx, noun) && q.values == [n as real] && n in LedgerExpected(noun, refs, ctx.ledger, listed)
    ensures CheckQuantity(at, text, q, refs, ctx, listed) == [] <==> n > 0
  {
    WholeCount(n);
    CountIsFlaggedIff(at, text, q, refs, ctx, listed, noun);
  }

  // ... and a false one never does.
  lemma FalseCountIsFlagged(at: Address, text: string, q: Quantity, refs: seq<string>, ctx: Context, listed: nat, noun: Noun, n: nat)
    requires Counts(text, q, ctx, noun) && q.values == [n as real] && n !in LedgerExpected(noun, refs, ctx.ledger, listed)
    ensures CheckQuantity(at, text, q, refs, ctx, listed) == [LedgerMismatch(at)]
  {
    WholeCount(n);
    CountIsFlaggedIff(at, text, q, refs, ctx, listed, noun);
  }

  // --- what that does to a report ---

  // A round drops every fact or recommendation that states a zero count, true or not.
  lemma ZeroCountIsDropped(report: Report, ctx: Context, at: Address, q: Quantity, noun: Noun)
    requires DistinctKeys(report.sections) && InReport(report.sections, at) && At(report, at).kind != Meta
    requires q in ctx.texts.quantities(At(report, at).text) && Counts(At(report, at).text, q, ctx, noun) && StatesZero(q)
    ensures LedgerMismatch(at) in Violations(report, ctx)
    ensures !Stays(ctx, ToRemedy(Violations(report, ctx)), report, at)
  {
    var s, found := At(report, at), Violations(report, ctx);
    var qs := ctx.texts.quantities(s.text);
    QuantityMembers(at, s.text, qs, Refs(s), ctx, |report.sources|);
    CountIsFlaggedIff(at, s.text, q, Refs(s), ctx, |report.sources|, noun);
    assert LedgerMismatch(at) in CheckQuantity(at, s.text, q, Refs(s), ctx, |report.sources|);
    assert LedgerMismatch(at) in AtSentence(G4, ctx, |report.sources|, at, s);
    ViolationsAreFlags(report, ctx);
    assert Shows(report, ctx, G4, LedgerMismatch(at));
    ShownIsFlagged(report, ctx, G4, LedgerMismatch(at));
    DropDooms(ctx, ToRemedy(found), LedgerMismatch(at), at, s);
  }
}
