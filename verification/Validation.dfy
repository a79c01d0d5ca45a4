/** A claim becomes evidence only after one complete, affirmative verdict of the model about it. */
module Validation {
  import opened Wrappers
  import opened Numbering
  import opened Evidence
  import opened Verdicts

  // What the code reads off a document and a claim: restrictions on the same provision, wording that
  // dates quickly, whether the evidence is current, whether legal authority is missing.
  datatype Scrutiny = Scrutiny(restricted: Claim -> bool, mutable: Claim -> bool, current: Claim -> bool, gap: Claim -> bool)

  datatype Opinion = Opinion(supported: bool, complete: bool, timeSensitive: bool)

  function CandidateKey(i: nat): string {
    "candidate-" + Decimal(i)
  }

  lemma CandidateKeysDiffer(i: nat, j: nat)
    requires CandidateKey(i) == CandidateKey(j)
    ensures i == j
  {
    assert CandidateKey(i)[10..] == Decimal(i) && CandidateKey(j)[10..] == Decimal(j);
    DecimalRoundTrip(i);
    DecimalRoundTrip(j);
  }

  predicate OutOfScope(check: Scrutiny, claim: Claim) {
    check.restricted(claim) && claim.conditions == []
  }

  function WithFreshness(check: Scrutiny, claim: Claim, timeSensitive: bool): Claim {
    var dated := claim.(timeSensitive := claim.timeSensitive || timeSensitive || check.mutable(claim));
    dated.(requiresFresh := dated.timeSensitive && !check.current(dated))
  }

  function Judged(check: Scrutiny, claim: Claim, opinion: Option<Opinion>): Claim {
    if opinion.None? then claim.(validation := Unavailable)
    else
      var status := if opinion.value.supported && opinion.value.complete && !OutOfScope(check, claim) then Affirmed else Unsupported;
      var dated := WithFreshness(check, claim.(validation := status), opinion.value.timeSensitive);
      if check.gap(dated) then dated.(validation := Unsupported) else dated
  }

  method ApplyVerdicts(claims: array<Claim>, judge: (Claim, Option<Opinion>) -> Claim, verdicts: map<string, Opinion>)
    modifies claims
    ensures forall i | 0 <= i < claims.Length :: claims[i] == judge(old(claims[i]), Answer(verdicts, CandidateKey(i)))
  {
    for i := 0 to claims.Length
      invariant forall k | 0 <= k < i :: claims[k] == judge(old(claims[k]), Answer(verdicts, CandidateKey(k)))
      invariant forall k | i <= k < claims.Length :: claims[k] == old(claims[k])
    {
      claims[i] := judge(claims[i], Answer(verdicts, CandidateKey(i)));
    }
  }

  function Answer(verdicts: map<string, Opinion>, key: string): Option<Opinion> {
    if key in verdicts then Some(verdicts[key]) else None
  }

  method ValidateClaims(claims: array<Claim>, check: Scrutiny, replies: seq<Reply<string, Opinion>>)
    requires |replies| == 2
    modifies claims
    ensures forall i | 0 <= i < claims.Length :: claims[i] == Judged(check, old(claims[i]), Settled(replies, CandidateKey(i)))
    // No verdict stands behind two claims.
    ensures forall i: nat, j: nat, t: nat, k: nat | i < j < claims.Length && AffirmedAt(replies, CandidateKey(i), t, k) :: !AffirmedAt(replies, CandidateKey(j), t, k)
  {
    forall i: nat, j: nat, t: nat, k: nat | i < j < claims.Length && AffirmedAt(replies, CandidateKey(i), t, k)
      ensures !AffirmedAt(replies, CandidateKey(j), t, k)
    {
      if AffirmedAt(replies, CandidateKey(j), t, k) { OneVerdictOneClaim(replies, i, j, t, k); }
    }
    var pending := set i | 0 <= i < claims.Length :: CandidateKey(i);
    var verdicts, open := Poll(pending, replies);
    forall i | 0 <= i < claims.Length ensures Answer(verdicts, CandidateKey(i)) == Settled(replies, CandidateKey(i)) {
      assert CandidateKey(i) in pending;
    }
    ApplyVerdicts(claims, (claim, opinion) => Judged(check, claim, opinion), verdicts);
  }

  // Whether the source, in the opinion's light, dates the claim, and whether that makes it stale.
  ghost predicate Dates(check: Scrutiny, claim: Claim, opinion: Opinion, judged: Claim) {
    && judged.timeSensitive == (claim.timeSensitive || opinion.timeSensitive || check.mutable(claim.(validation := Verdict(check, claim, opinion))))
    && judged.requiresFresh ==
         (judged.timeSensitive
          && !check.current(claim.(validation := Verdict(check, claim, opinion), timeSensitive := judged.timeSensitive)))
  }

  // Supported in full, and not restricted by the source in ways the claim leaves out.
  ghost function Verdict(check: Scrutiny, claim: Claim, opinion: Opinion): Validation {
    if opinion.supported && opinion.complete && (check.restricted(claim) ==> claim.conditions != []) then Affirmed else Unsupported
  }

  // A claim is affirmed exactly on a supporting and complete opinion that is in scope, with no authority
  // missing for the claim as it is then dated; without an opinion nothing but its status changes.
  lemma JudgedIff(check: Scrutiny, claim: Claim, opinion: Option<Opinion>)
    ensures var judged := Judged(check, claim, opinion);
      && (opinion.None? ==> judged == claim.(validation := Unavailable))
      && (opinion.Some? ==>
            && Dates(check, claim, opinion.value, judged)
            && judged == claim.(validation := judged.validation, timeSensitive := judged.timeSensitive, requiresFresh := judged.requiresFresh)
            && judged.validation in {Affirmed, Unsupported}
            && (judged.validation == Affirmed <==>
                  && opinion.value.supported && opinion.value.complete && (check.restricted(claim) ==> claim.conditions != [])
                  && !check.gap(claim.(validation := Affirmed, timeSensitive := judged.timeSensitive, requiresFresh := judged.requiresFresh))))
  {
  }

  // The replies name the claim exactly once, in one reply and not in an earlier one, and find it supported and complete.
  ghost predicate AffirmedOnce(replies: seq<Reply<string, Opinion>>, key: string) {
    exists t: nat, i: nat :: AffirmedAt(replies, key, t, i)
  }

  ghost predicate AffirmedAt(replies: seq<Reply<string, Opinion>>, key: string, t: nat, i: nat) {
    && t < |replies| && replies[t].Some? && Sole(replies[t].value, key, i)
    && replies[t].value[i].value.supported && replies[t].value[i].value.complete
    && forall u: nat, j: nat | u < t && replies[u].Some? :: !Sole(replies[u].value, key, j)
  }

  lemma OneVerdictOneClaim(replies: seq<Reply<string, Opinion>>, i: nat, j: nat, t: nat, k: nat)
    requires AffirmedAt(replies, CandidateKey(i), t, k) && AffirmedAt(replies, CandidateKey(j), t, k)
    ensures i == j
  {
    CandidateKeysDiffer(i, j);
  }

  // Whatever the model answers, nothing less than one affirmative verdict makes a claim evidence.
  lemma FailClosed(check: Scrutiny, claim: Claim, replies: seq<Reply<string, Opinion>>, key: string)
    requires Judged(check, claim, Settled(replies, key)).validation == Affirmed
    ensures AffirmedOnce(replies, key) && !OutOfScope(check, claim)
    ensures !check.gap(Judged(check, claim, Settled(replies, key)))
    ensures Settled(replies, key).Some?
  {
    var t, i := SettledBy(replies, key);
    forall u: nat, j: nat | u < t && replies[u].Some? ensures !Sole(replies[u].value, key, j) {
      if Sole(replies[u].value, key, j) { SoleSettles(replies[..t], key, u, j); }
    }
    assert AffirmedAt(replies, key, t, i);
  }

  lemma {:induction false} SoleSettles<K, V>(replies: seq<Reply<K, V>>, key: K, t: nat, i: nat)
    requires t < |replies| && replies[t].Some? && Sole(replies[t].value, key, i)
    ensures Settled(replies, key).Some?
  {
    if t < |replies| - 1 { SoleSettles(replies[..|replies| - 1], key, t, i); }
  }

  // A claim the replies never name exactly once is unavailable as evidence.
  lemma {:induction false} NeverNamedNeverSettled<K, V>(replies: seq<Reply<K, V>>, key: K)
    requires forall t: nat, i: nat | t < |replies| && replies[t].Some? :: !Sole(replies[t].value, key, i)
    ensures Settled(replies, key).None?
  {
    if Settled(replies, key).Some? {
      var t, i := SettledBy(replies, key);
    }
  }
}
