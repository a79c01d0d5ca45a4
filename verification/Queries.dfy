/** Planning the queries of a research round: which gaps to chase, with how many queries each. */
module Queries {
  import opened Wrappers
  import opened Evidence

  // `settled`: resolved, or already followed up.
  datatype Contradiction = Contradiction(id: string, subqId: string, settled: bool)

  datatype Budget = Budget(maxIterations: nat, maxSearches: nat, perSubqFirst: nat, perGap: nat, maxFollowup: nat, stagnation: nat)

  // Empty when absent.
  datatype Key = Key(subqId: string, facetId: string, contradictionId: string)

  datatype Purpose = Initial | Gap | Conflict

  datatype Target = Target(subq: nat, key: Key, quota: nat, purpose: Purpose)

  predicate Open(subq: SubQuestion) {
    subq.status == Pending || subq.status == Searching
  }

  function Min(a: int, b: int): int {
    if a <= b then a else b
  }

  function Find(plan: seq<SubQuestion>, id: string): Option<nat> {
    if plan == [] then None
    else if plan[0].id == id then Some(0)
    else
      var later := Find(plan[1..], id);
      if later.None? then None else Some(later.value + 1)
  }

  lemma {:induction false} FindFinds(plan: seq<SubQuestion>, id: string)
    ensures Find(plan, id).Some? ==> Find(plan, id).value < |plan| && plan[Find(plan, id).value].id == id
    ensures forall i | 0 <= i < |plan| && plan[i].id == id :: Find(plan, id).Some? && Find(plan, id).value <= i
  {
    if plan != [] && plan[0].id != id {
      FindFinds(plan[1..], id);
      forall i | 0 <= i < |plan| && plan[i].id == id ensures Find(plan, id).Some? && Find(plan, id).value <= i {
        assert plan[1..][i - 1].id == id;
      }
    }
  }

  function Quotas(targets: seq<Target>): nat {
    if targets == [] then 0 else Quotas(targets[..|targets| - 1]) + targets[|targets| - 1].quota
  }

  ghost predicate AtOpen(plan: seq<SubQuestion>, targets: seq<Target>) {
    forall t | t in targets :: t.subq < |plan| && Open(plan[t.subq]) && t.key.subqId == plan[t.subq].id
  }

  // --- the first round: every open sub-question ---

  function OpenOnes(plan: seq<SubQuestion>): seq<nat> {
    if plan == [] then []
    else OpenOnes(plan[..|plan| - 1]) + if Open(plan[|plan| - 1]) then [|plan| - 1] else []
  }

  lemma {:induction false} OpenOnesAre(plan: seq<SubQuestion>)
    ensures forall i :: i in OpenOnes(plan) <==> 0 <= i < |plan| && plan[i].status in {Pending, Searching}
    ensures forall k, l | 0 <= k < l < |OpenOnes(plan)| :: OpenOnes(plan)[k] < OpenOnes(plan)[l]
  {
    if plan != [] {
      OpenOnesAre(plan[..|plan| - 1]);
      var before := OpenOnes(plan[..|plan| - 1]);
      forall k | 0 <= k < |before| ensures before[k] < |plan| - 1 { assert before[k] in before; }
    }
  }

  function Width(budget: Budget, left: nat, open: nat): nat
    requires open > 0
  {
    var per := Min(budget.perSubqFirst, left / open);
    if per < 1 then 1 else per
  }

  // The widest equal share of the searches left, no wider than allowed, but at least one query each.
  lemma WidthMeans(budget: Budget, left: nat, open: nat)
    requires open > 0
    ensures var per := Width(budget, left, open);
      && per >= 1 && (per == 1 || (per <= budget.perSubqFirst && per * open <= left))
      && forall w: nat | w <= budget.perSubqFirst && w * open <= left :: w <= per
  {
    var per := Width(budget, left, open);
    if per > 1 { TimesQuotient(left, open, per); }
    forall w: nat | w <= budget.perSubqFirst && w * open <= left ensures w <= per {
      if w > left / open { TooWide(left, open, w); }
    }
  }

  lemma TooWide(left: nat, open: nat, w: nat)
    requires open > 0 && w > left / open
    ensures w * open > left
  {
    assert w * open >= (left / open + 1) * open;
  }

  function FirstTarget(plan: seq<SubQuestion>, i: nat, per: nat): Target
    requires i < |plan|
  {
    Target(i, Key(plan[i].id, "", ""), per, Initial)
  }

  method FirstTargets(plan: seq<SubQuestion>, open: seq<nat>, per: nat) returns (targets: seq<Target>)
    requires forall k | 0 <= k < |open| :: open[k] < |plan| && Open(plan[open[k]])
    ensures AtOpen(plan, targets) && |targets| == |open| && Quotas(targets) == |open| * per
    ensures forall k | 0 <= k < |open| :: targets[k] == FirstTarget(plan, open[k], per)
  {
    targets := [];
    for k := 0 to |open|
      invariant AtOpen(plan, targets) && |targets| == k
      invariant forall l | 0 <= l < k :: targets[l] == FirstTarget(plan, open[l], per)
    {
      targets := targets + [FirstTarget(plan, open[k], per)];
    }
    EqualQuotas(targets, per);
  }

  lemma {:induction false} EqualQuotas(targets: seq<Target>, per: nat)
    requires forall k | 0 <= k < |targets| :: targets[k].quota == per
    ensures Quotas(targets) == |targets| * per
  {
    if targets != [] {
      var n := |targets| - 1;
      EqualQuotas(targets[..n], per);
      assert (n + 1) * per == n * per + per;
    }
  }

  // The targets of a first round: one for each open sub-question, equally wide, while there is a search left.
  ghost predicate FirstPlan(plan: seq<SubQuestion>, budget: Budget, left: nat, targets: seq<Target>) {
    if OpenOnes(plan) == [] || left == 0 then targets == []
    else
      && |targets| == |OpenOnes(plan)| && Quotas(targets) == |targets| * Width(budget, left, |targets|)
      && forall k | 0 <= k < |targets| :: OpenOnes(plan)[k] < |plan|
           && targets[k] == Target(OpenOnes(plan)[k], Key(plan[OpenOnes(plan)[k]].id, "", ""), Width(budget, left, |targets|), Initial)
  }

  // They ask for no more queries than there are searches left exactly if none is left or there is one for
  // every open sub-question: each gets at least one query regardless.
  lemma FirstRoundFits(plan: seq<SubQuestion>, budget: Budget, left: nat, targets: seq<Target>)
    requires FirstPlan(plan, budget, left, targets)
    ensures Quotas(targets) <= left <==> left == 0 || |OpenOnes(plan)| <= left
  {
    if OpenOnes(plan) != [] && left > 0 { WidthFits(budget, left, |targets|); }
  }

  lemma WidthFits(budget: Budget, left: nat, open: nat)
    requires open > 0
    ensures open * Width(budget, left, open) <= left <==> open <= left
  {
    var per := Width(budget, left, open);
    if open <= left {
      AtLeastOne(left, open);
      TimesQuotient(left, open, per);
    } else {
      NoneEach(left, open);
      assert per == 1 && open * per == open;
    }
  }

  lemma NoneEach(left: nat, open: nat)
    requires left < open
    ensures left / open == 0
  {
  }

  lemma AtLeastOne(left: nat, open: nat)
    requires 0 < open <= left
    ensures left / open >= 1
  {
  }

  lemma TimesQuotient(left: nat, open: nat, per: nat)
    requires open > 0 && per <= left / open
    ensures open * per <= left
  {
    assert open * per <= open * (left / open);
  }

  // --- later rounds: conflicts first, then missing facets ---

  function Conflicts(plan: seq<SubQuestion>, contradictions: seq<Contradiction>): seq<Target> {
    if contradictions == [] then []
    else
      var last := contradictions[|contradictions| - 1];
      var subq := Find(plan, last.subqId);
      FindFinds(plan, last.subqId);
      Conflicts(plan, contradictions[..|contradictions| - 1])
      + if !last.settled && subq.Some? && Open(plan[subq.value])
        then [Target(subq.value, Key(last.subqId, "", last.id), 1, Conflict)] else []
  }

  function GapsOf(plan: seq<SubQuestion>, subq: nat, facets: seq<Facet>, per: nat): seq<Target>
    requires subq < |plan|
  {
    if facets == [] then []
    else
      var last := facets[|facets| - 1];
      GapsOf(plan, subq, facets[..|facets| - 1], per)
      + if last.sufficient then [] else [Target(subq, Key(plan[subq].id, last.id, ""), per, Gap)]
  }

  function Gaps(plan: seq<SubQuestion>, n: nat, per: nat): seq<Target>
    requires n <= |plan|
  {
    if n == 0 then []
    else Gaps(plan, n - 1, per) + if Open(plan[n - 1]) then GapsOf(plan, n - 1, plan[n - 1].facets, per) else []
  }

  function Wanted(plan: seq<SubQuestion>, contradictions: seq<Contradiction>, per: nat): seq<Target> {
    Conflicts(plan, contradictions) + Gaps(plan, |plan|, per)
  }

  // Every conflict to follow up is a target: one for each contradiction that is neither resolved nor followed up
  // and whose sub-question, the first of its id, is open; in their order.
  lemma {:induction false} ConflictsAre(plan: seq<SubQuestion>, contradictions: seq<Contradiction>, t: Target)
    ensures t in Conflicts(plan, contradictions) <==>
      exists c :: c in contradictions && !c.settled && t == Target(t.subq, Key(c.subqId, "", c.id), 1, Conflict)
        && t.subq < |plan| && plan[t.subq].id == c.subqId && plan[t.subq].status in {Pending, Searching}
        && forall i | 0 <= i < t.subq :: plan[i].id != c.subqId
  {
    if contradictions != [] {
      var front, last := contradictions[..|contradictions| - 1], contradictions[|contradictions| - 1];
      assert contradictions == front + [last];
      ConflictsAre(plan, front, t);
      FindFinds(plan, last.subqId);
    }
  }

  lemma {:induction false} ConflictsInOrder(plan: seq<SubQuestion>, some: seq<Contradiction>, others: seq<Contradiction>)
    ensures Conflicts(plan, some + others) == Conflicts(plan, some) + Conflicts(plan, others)
  {
    if others == [] {
      assert some + others == some;
    } else {
      ConflictsInOrder(plan, some, others[..|others| - 1]);
      assert (some + others)[..|some + others| - 1] == some + others[..|others| - 1];
    }
  }

  // Every missing facet of an open sub-question is a target, in the order of the plan and of its facets.
  lemma {:induction false} GapsOfAre(plan: seq<SubQuestion>, subq: nat, facets: seq<Facet>, per: nat, t: Target)
    requires subq < |plan|
    ensures t in GapsOf(plan, subq, facets, per) <==>
      exists f :: f in facets && !f.sufficient && t == Target(subq, Key(plan[subq].id, f.id, ""), per, Gap)
  {
    if facets != [] {
      var front, last := facets[..|facets| - 1], facets[|facets| - 1];
      assert facets == front + [last];
      GapsOfAre(plan, subq, front, per, t);
    }
  }

  lemma {:induction false} GapsOfInOrder(plan: seq<SubQuestion>, subq: nat, some: seq<Facet>, others: seq<Facet>, per: nat)
    requires subq < |plan|
    ensures GapsOf(plan, subq, some + others, per) == GapsOf(plan, subq, some, per) + GapsOf(plan, subq, others, per)
  {
    if others == [] {
      assert some + others == some;
    } else {
      GapsOfInOrder(plan, subq, some, others[..|others| - 1], per);
      assert (some + others)[..|some + others| - 1] == some + others[..|others| - 1];
    }
  }

  lemma {:induction false} GapsAre(plan: seq<SubQuestion>, n: nat, per: nat, t: Target)
    requires n <= |plan|
    ensures t in Gaps(plan, n, per) <==>
      && t.subq < n && plan[t.subq].status in {Pending, Searching}
      && exists f :: f in plan[t.subq].facets && !f.sufficient && t == Target(t.subq, Key(plan[t.subq].id, f.id, ""), per, Gap)
  {
    if n > 0 {
      GapsAre(plan, n - 1, per, t);
      GapsOfAre(plan, n - 1, plan[n - 1].facets, per, t);
    }
  }

  lemma {:induction false} GapsInOrder(plan: seq<SubQuestion>, n: nat, per: nat)
    requires n <= |plan|
    ensures forall i, j | 0 <= i < j < |Gaps(plan, n, per)| :: Gaps(plan, n, per)[i].subq <= Gaps(plan, n, per)[j].subq
  {
    if n > 0 {
      GapsInOrder(plan, n - 1, per);
      forall i | 0 <= i < |Gaps(plan, n, per)| ensures if i < |Gaps(plan, n - 1, per)| then Gaps(plan, n, per)[i].subq < n - 1 else Gaps(plan, n, per)[i].subq == n - 1 {
        var t := Gaps(plan, n, per)[i];
        if i < |Gaps(plan, n - 1, per)| {
          assert t == Gaps(plan, n - 1, per)[i];
          GapsAre(plan, n - 1, per, t);
        } else {
          assert t in GapsOf(plan, n - 1, plan[n - 1].facets, per);
          GapsOfAre(plan, n - 1, plan[n - 1].facets, per, t);
        }
      }
    }
  }

  lemma {:induction false} ConflictsAtOpen(plan: seq<SubQuestion>, contradictions: seq<Contradiction>)
    ensures AtOpen(plan, Conflicts(plan, contradictions)) && forall t | t in Conflicts(plan, contradictions) :: t.purpose == Conflict && t.quota >= 1
  {
    if contradictions != [] {
      ConflictsAtOpen(plan, contradictions[..|contradictions| - 1]);
      FindFinds(plan, contradictions[|contradictions| - 1].subqId);
    }
  }

  lemma {:induction false} GapsOfAtOpen(plan: seq<SubQuestion>, subq: nat, facets: seq<Facet>, per: nat)
    requires subq < |plan| && Open(plan[subq])
    ensures AtOpen(plan, GapsOf(plan, subq, facets, per)) && forall t | t in GapsOf(plan, subq, facets, per) :: t.purpose == Gap && t.quota == per
  {
    if facets != [] { GapsOfAtOpen(plan, subq, facets[..|facets| - 1], per); }
  }

  lemma {:induction false} GapsAtOpen(plan: seq<SubQuestion>, n: nat, per: nat)
    requires n <= |plan|
    ensures AtOpen(plan, Gaps(plan, n, per)) && forall t | t in Gaps(plan, n, per) :: t.purpose == Gap && t.quota == per
  {
    if n > 0 {
      GapsAtOpen(plan, n - 1, per);
      if Open(plan[n - 1]) { GapsOfAtOpen(plan, n - 1, plan[n - 1].facets, per); }
    }
  }

  // Its full quota if that still fits under the cap, else what is left of the cap.
  ghost predicate GrantedAt(wanted: seq<Target>, cap: nat, trimmed: seq<Target>, k: nat)
    requires k < |trimmed| <= |wanted|
  {
    && trimmed[k] == wanted[k].(quota := trimmed[k].quota) && Quotas(trimmed[..k]) < cap
    && trimmed[k].quota == if Quotas(trimmed[..k]) + wanted[k].quota <= cap then wanted[k].quota else cap - Quotas(trimmed[..k])
  }

  // The wanted targets in order, each with its full quota while the cap lasts.
  ghost predicate Trimmed(wanted: seq<Target>, cap: nat, trimmed: seq<Target>) {
    && |trimmed| <= |wanted| && Quotas(trimmed) <= cap
    && (forall k | 0 <= k < |trimmed| :: GrantedAt(wanted, cap, trimmed, k))
    && (|trimmed| == |wanted| || Quotas(trimmed) == cap)
  }

  lemma GrantsStay(wanted: seq<Target>, cap: nat, trimmed: seq<Target>, next: Target)
    requires |trimmed| < |wanted| && forall l | 0 <= l < |trimmed| :: GrantedAt(wanted, cap, trimmed, l)
    requires Quotas(trimmed) < cap && next == wanted[|trimmed|].(quota := Min(wanted[|trimmed|].quota, cap - Quotas(trimmed)))
    ensures forall l | 0 <= l <= |trimmed| :: GrantedAt(wanted, cap, trimmed + [next], l)
    ensures Quotas(trimmed + [next]) == Quotas(trimmed) + next.quota
  {
    var more := trimmed + [next];
    assert more[..|trimmed|] == trimmed;
    forall l | 0 <= l < |trimmed| ensures GrantedAt(wanted, cap, more, l) {
      assert GrantedAt(wanted, cap, trimmed, l) && more[l] == trimmed[l] && more[..l] == trimmed[..l];
    }
  }

  method Trim(wanted: seq<Target>, cap: nat) returns (trimmed: seq<Target>)
    ensures Trimmed(wanted, cap, trimmed)
  {
    trimmed := [];
    var total := 0;
    var k := 0;
    while k < |wanted| && total < cap
      invariant k == |trimmed| <= |wanted| && total == Quotas(trimmed) <= cap
      invariant forall l | 0 <= l < k :: GrantedAt(wanted, cap, trimmed, l)
    {
      var next := wanted[k].(quota := Min(wanted[k].quota, cap - total));
      GrantsStay(wanted, cap, trimmed, next);
      trimmed := trimmed + [next];
      total := total + next.quota;
      k := k + 1;
    }
  }

  lemma {:induction false} TrimmedLooksBack(wanted: seq<Target>, cap: nat, trimmed: seq<Target>, plan: seq<SubQuestion>)
    requires Trimmed(wanted, cap, trimmed) && AtOpen(plan, wanted)
    ensures AtOpen(plan, trimmed)
  {
    forall t | t in trimmed ensures t.subq < |plan| && Open(plan[t.subq]) && t.key.subqId == plan[t.subq].id {
      var k :| 0 <= k < |trimmed| && trimmed[k] == t;
      assert wanted[k] in wanted && GrantedAt(wanted, cap, trimmed, k);
    }
  }

  // Conflicts precede gaps; a first round has neither.
  ghost predicate Ordered(targets: seq<Target>) {
    forall i, j | 0 <= i < j < |targets| :: targets[i].purpose == Gap ==> targets[j].purpose == Gap
  }

  lemma WantedIsOrdered(plan: seq<SubQuestion>, contradictions: seq<Contradiction>, per: nat)
    ensures Ordered(Wanted(plan, contradictions, per)) && AtOpen(plan, Wanted(plan, contradictions, per))
  {
    var conflicts, gaps := Conflicts(plan, contradictions), Gaps(plan, |plan|, per);
    ConflictsAtOpen(plan, contradictions);
    GapsAtOpen(plan, |plan|, per);
    var all: seq<Target> := conflicts + gaps;
    forall i | 0 <= i < |all| ensures all[i].purpose == if i < |conflicts| then Conflict else Gap {
      assert all[i] in if i < |conflicts| then conflicts else gaps;
    }
  }

  ghost predicate Planned(plan: seq<SubQuestion>, contradictions: seq<Contradiction>, budget: Budget, iteration: nat, left: nat, targets: seq<Target>) {
    if OpenOnes(plan) == [] || left == 0 then targets == []
    else if iteration == 1 then FirstPlan(plan, budget, left, targets)
    else Trimmed(Wanted(plan, contradictions, budget.perGap), Min(budget.maxFollowup, left), targets)
  }

  method PlanTargets(plan: seq<SubQuestion>, contradictions: seq<Contradiction>, budget: Budget, iteration: nat, left: nat)
    returns (targets: seq<Target>)
    ensures AtOpen(plan, targets) && Ordered(targets) && GapsNameFacets(plan, targets)
    ensures Planned(plan, contradictions, budget, iteration, left, targets)
    ensures iteration == 1 ==> (Quotas(targets) <= left <==> left == 0 || |OpenOnes(plan)| <= left)
    ensures iteration != 1 ==> Quotas(targets) <= Min(budget.maxFollowup, left)
  {
    if OpenOnes(plan) == [] || left == 0 {
      targets := [];
    } else if iteration == 1 {
      targets := FirstRound(plan, budget, left);
    } else {
      targets := FollowUp(plan, contradictions, budget, left);
    }
    if iteration == 1 { FirstRoundFits(plan, budget, left, targets); }
  }

  method FirstRound(plan: seq<SubQuestion>, budget: Budget, left: nat) returns (targets: seq<Target>)
    requires OpenOnes(plan) != [] && left > 0
    ensures AtOpen(plan, targets) && Ordered(targets) && GapsNameFacets(plan, targets)
    ensures FirstPlan(plan, budget, left, targets)
  {
    var open := OpenOnes(plan);
    OpenOnesAre(plan);
    assert forall k | 0 <= k < |open| :: open[k] in open;
    targets := FirstTargets(plan, open, Width(budget, left, |open|));
  }

  method FollowUp(plan: seq<SubQuestion>, contradictions: seq<Contradiction>, budget: Budget, left: nat) returns (targets: seq<Target>)
    ensures AtOpen(plan, targets) && Ordered(targets) && GapsNameFacets(plan, targets)
    ensures Trimmed(Wanted(plan, contradictions, budget.perGap), Min(budget.maxFollowup, left), targets)
  {
    var wanted, cap := Wanted(plan, contradictions, budget.perGap), Min(budget.maxFollowup, left);
    WantedIsOrdered(plan, contradictions, budget.perGap);
    targets := Trim(wanted, cap);
    TrimmedLooksBack(wanted, cap, targets, plan);
    WantedNamesFacets(plan, contradictions, budget.perGap, cap, targets);
    forall k | 0 <= k < |targets| ensures targets[k].purpose == wanted[k].purpose { assert GrantedAt(wanted, cap, targets, k); }
  }

  // --- admitting queries ---

  // `clean` tidies a text, `novel` compares it with everything asked before, `templates` are the fallbacks.
  datatype Asking = Asking(clean: string -> string, novel: (seq<string>, string) -> bool, templates: Target -> seq<string>)

  datatype Suggestion = Suggestion(subqId: string, facetId: string, text: string)

  datatype Query = Query(key: Key, text: string)

  function Taken(log: seq<Query>, key: Key): nat {
    if log == [] then 0 else Taken(log[..|log| - 1], key) + if log[|log| - 1].key == key then 1 else 0
  }

  function Texts(log: seq<Query>): seq<string> {
    seq(|log|, i requires 0 <= i < |log| => log[i].text)
  }

  ghost predicate WithinQuota(targets: seq<Target>, log: seq<Query>, key: Key) {
    Taken(log, key) == 0 || exists t :: t in targets && t.key == key && Taken(log, key) <= t.quota
  }

  ghost predicate Admitted(asking: Asking, targets: seq<Target>, seen: seq<string>, limit: nat, log: seq<Query>) {
    && |log| <= limit
    && (forall key :: WithinQuota(targets, log, key))
    && (forall i | 0 <= i < |log| :: |log[i].text| >= 3 && asking.novel(seen + Texts(log[..i]), log[i].text))
  }

  lemma {:induction false} TakenCounts(log: seq<Query>, key: Key)
    ensures Taken(log, key) == |set i | 0 <= i < |log| && log[i].key == key|
  {
    if log != [] {
      TakenCounts(log[..|log| - 1], key);
      LastCounts(log, key);
    }
  }

  lemma LastCounts(log: seq<Query>, key: Key)
    requires log != []
    ensures var n := |log| - 1;
      |set i | 0 <= i < |log| && log[i].key == key| == |set i | 0 <= i < n && log[..n][i].key == key| + if log[n].key == key then 1 else 0
  {
    var n := |log| - 1;
    var was := set i | 0 <= i < n && log[..n][i].key == key;
    var now := set i | 0 <= i < |log| && log[i].key == key;
    assert n !in was && now == was + if log[n].key == key then {n} else {};
  }

  // Why a text was not asked for a target when the log held its first `p` queries: the target's quota or the
  // limit was used up, or the tidied text was too short or nothing new.
  ghost predicate Refused(asking: Asking, seen: seq<string>, limit: nat, log: seq<Query>, p: nat, target: Target, text: string)
    requires p <= |log|
  {
    || |set i | 0 <= i < p && log[i].key == target.key| >= target.quota
    || p >= limit
    || |asking.clean(text)| < 3
    || !asking.novel(seen + seq(p, i requires 0 <= i < p => log[i].text), asking.clean(text))
  }

  ghost predicate Logged(asking: Asking, log: seq<Query>, target: Target, text: string) {
    exists i :: 0 <= i < |log| && log[i] == Query(target.key, asking.clean(text))
  }

  ghost predicate RefusedOnce(asking: Asking, seen: seq<string>, limit: nat, log: seq<Query>, target: Target, text: string) {
    exists p: nat :: p <= |log| && Refused(asking, seen, limit, log, p, target, text)
  }

  // Asked, or refused for a reason that held at the time.
  ghost predicate Tried(asking: Asking, seen: seq<string>, limit: nat, log: seq<Query>, target: Target, text: string) {
    Logged(asking, log, target, text) || RefusedOnce(asking, seen, limit, log, target, text)
  }

  lemma StaysTried(asking: Asking, seen: seq<string>, limit: nat, log: seq<Query>, more: seq<Query>, target: Target, text: string)
    requires log <= more && Tried(asking, seen, limit, log, target, text)
    ensures Tried(asking, seen, limit, more, target, text)
  {
    if i :| 0 <= i < |log| && log[i] == Query(target.key, asking.clean(text)) {
      assert more[i] == log[i];
    } else {
      var p: nat :| p <= |log| && Refused(asking, seen, limit, log, p, target, text);
      SamePrefix(log, more, p, target.key);
      assert Refused(asking, seen, limit, more, p, target, text);
    }
  }

  lemma SamePrefix(log: seq<Query>, more: seq<Query>, p: nat, key: Key)
    requires log <= more && p <= |log|
    ensures (set i | 0 <= i < p && log[i].key == key) == (set i | 0 <= i < p && more[i].key == key)
    ensures seq(p, i requires 0 <= i < p => log[i].text) == seq(p, i requires 0 <= i < p => more[i].text)
  {
    assert forall i | 0 <= i < p :: log[i] == more[i];
  }

  lemma RefusedNow(asking: Asking, seen: seq<string>, limit: nat, log: seq<Query>, target: Target, text: string)
    ensures Refused(asking, seen, limit, log, |log|, target, text) <==>
      || Taken(log, target.key) >= target.quota || |log| >= limit
      || |asking.clean(text)| < 3 || !asking.novel(seen + Texts(log), asking.clean(text))
  {
    TakenCounts(log, target.key);
    assert Texts(log) == seq(|log|, i requires 0 <= i < |log| => log[i].text);
  }

  method Admit(asking: Asking, ghost targets: seq<Target>, seen: seq<string>, limit: nat, log: seq<Query>, target: Target, text: string) returns (more: seq<Query>)
    requires target in targets && Admitted(asking, targets, seen, limit, log)
    ensures Admitted(asking, targets, seen, limit, more)
    ensures Refused(asking, seen, limit, log, |log|, target, text) ==> more == log
    ensures !Refused(asking, seen, limit, log, |log|, target, text) ==> more == log + [Query(target.key, asking.clean(text))]
    ensures log <= more && Tried(asking, seen, limit, more, target, text)
  {
    more := log;
    RefusedNow(asking, seen, limit, log, target, text);
    if Taken(log, target.key) >= target.quota || |log| >= limit {
      return;
    }
    var cleaned := asking.clean(text);
    if |cleaned| < 3 || !asking.novel(seen + Texts(log), cleaned) {
      return;
    }
    more := log + [Query(target.key, cleaned)];
    assert more[|log|] == Query(target.key, cleaned);
    AdmittedGrows(asking, targets, seen, limit, log, target, cleaned);
  }

  lemma AdmittedGrows(asking: Asking, targets: seq<Target>, seen: seq<string>, limit: nat, log: seq<Query>, target: Target, cleaned: string)
    requires target in targets && Admitted(asking, targets, seen, limit, log)
    requires Taken(log, target.key) < target.quota && |log| < limit && |cleaned| >= 3 && asking.novel(seen + Texts(log), cleaned)
    ensures Admitted(asking, targets, seen, limit, log + [Query(target.key, cleaned)])
  {
    var more := log + [Query(target.key, cleaned)];
    assert more[..|log|] == log && more[..|more| - 1] == log;
    forall key ensures WithinQuota(targets, more, key) {
      assert WithinQuota(targets, log, key);
      if key == target.key { assert Taken(more, key) <= target.quota; } else { assert Taken(more, key) == Taken(log, key); }
    }
    forall i | 0 <= i < |more| ensures |more[i].text| >= 3 && asking.novel(seen + Texts(more[..i]), more[i].text) {
      assert more[..i] == if i < |log| then log[..i] else log;
    }
  }

  // A model may omit the facet or mislabel a conflict, so any target of the sub-question will do.
  function Match(targets: seq<Target>, s: Suggestion): Option<Target> {
    var exact := LastWith(targets, Key(s.subqId, s.facetId, ""));
    if exact.Some? then exact else FirstOf(targets, s.subqId)
  }

  function LastWith(targets: seq<Target>, key: Key): Option<Target> {
    if targets == [] then None
    else if targets[|targets| - 1].key == key then Some(targets[|targets| - 1])
    else LastWith(targets[..|targets| - 1], key)
  }

  function FirstOf(targets: seq<Target>, subqId: string): Option<Target> {
    if targets == [] then None else if targets[0].key.subqId == subqId then Some(targets[0]) else FirstOf(targets[1..], subqId)
  }

  lemma {:induction false} LastWithIsTarget(targets: seq<Target>, key: Key)
    ensures LastWith(targets, key).Some? ==> LastWith(targets, key).value in targets
  {
    if targets != [] && targets[|targets| - 1].key != key { LastWithIsTarget(targets[..|targets| - 1], key); }
  }

  lemma {:induction false} FirstOfIsTarget(targets: seq<Target>, subqId: string)
    ensures FirstOf(targets, subqId).Some? ==> FirstOf(targets, subqId).value in targets
  {
    if targets != [] && targets[0].key.subqId != subqId { FirstOfIsTarget(targets[1..], subqId); }
  }

  // A suggestion is for the last target of exactly its sub-question and facet ...
  lemma MatchExact(targets: seq<Target>, s: Suggestion, k: nat)
    requires k < |targets| && targets[k].key == Key(s.subqId, s.facetId, "") && forall l | k < l < |targets| :: targets[l].key != Key(s.subqId, s.facetId, "")
    ensures Match(targets, s) == Some(targets[k])
  {
    LastWithAt(targets, Key(s.subqId, s.facetId, ""), k);
  }

  lemma {:induction false} LastWithAt(targets: seq<Target>, key: Key, k: nat)
    requires k < |targets| && targets[k].key == key && forall l | k < l < |targets| :: targets[l].key != key
    ensures LastWith(targets, key) == Some(targets[k])
  {
    if k < |targets| - 1 { LastWithAt(targets[..|targets| - 1], key, k); }
  }

  // ... failing that, for the first of its sub-question ...
  lemma MatchLoose(targets: seq<Target>, s: Suggestion, k: nat)
    requires forall l | 0 <= l < |targets| :: targets[l].key != Key(s.subqId, s.facetId, "")
    requires k < |targets| && targets[k].key.subqId == s.subqId && forall l | 0 <= l < k :: targets[l].key.subqId != s.subqId
    ensures Match(targets, s) == Some(targets[k])
  {
    LastWithNone(targets, Key(s.subqId, s.facetId, ""));
    FirstOfAt(targets, s.subqId, k);
  }

  lemma {:induction false} LastWithNone(targets: seq<Target>, key: Key)
    requires forall l | 0 <= l < |targets| :: targets[l].key != key
    ensures LastWith(targets, key) == None
  {
    if targets != [] { LastWithNone(targets[..|targets| - 1], key); }
  }

  lemma {:induction false} FirstOfAt(targets: seq<Target>, subqId: string, k: nat)
    requires k < |targets| && targets[k].key.subqId == subqId && forall l | 0 <= l < k :: targets[l].key.subqId != subqId
    ensures FirstOf(targets, subqId) == Some(targets[k])
  {
    if k > 0 { FirstOfAt(targets[1..], subqId, k - 1); }
  }

  // ... and for none exactly if no target is about it.
  lemma MatchNone(targets: seq<Target>, s: Suggestion)
    ensures Match(targets, s) == None <==> forall l | 0 <= l < |targets| :: targets[l].key.subqId != s.subqId
  {
    if forall l | 0 <= l < |targets| :: targets[l].key.subqId != s.subqId {
      LastWithNone(targets, Key(s.subqId, s.facetId, ""));
      FirstOfNone(targets, s.subqId);
    } else {
      FirstOfSome(targets, s.subqId);
    }
  }

  lemma {:induction false} FirstOfNone(targets: seq<Target>, subqId: string)
    requires forall l | 0 <= l < |targets| :: targets[l].key.subqId != subqId
    ensures FirstOf(targets, subqId) == None
  {
    if targets != [] { FirstOfNone(targets[1..], subqId); }
  }

  lemma {:induction false} FirstOfSome(targets: seq<Target>, subqId: string)
    requires exists l :: 0 <= l < |targets| && targets[l].key.subqId == subqId
    ensures FirstOf(targets, subqId).Some?
  {
    if targets[0].key.subqId != subqId {
      var l :| 0 <= l < |targets| && targets[l].key.subqId == subqId;
      assert targets[1..][l - 1] == targets[l];
      FirstOfSome(targets[1..], subqId);
    }
  }

  ghost predicate Suggested(asking: Asking, targets: seq<Target>, output: seq<Suggestion>, q: Query) {
    exists i :: 0 <= i < |output| && q.text == asking.clean(output[i].text) && Match(targets, output[i]).Some? && Match(targets, output[i]).value.key == q.key
  }

  // A template of a target that no suggestion was asked for.
  ghost predicate FromTemplate(asking: Asking, targets: seq<Target>, suggested: seq<Query>, q: Query) {
    exists t, o :: t in targets && o in asking.templates(t) && q == Query(t.key, asking.clean(o)) && forall p | p in suggested :: p.key != t.key
  }

  // First what the model suggested for a target, then templates where it left nothing.
  ghost predicate WellFounded(asking: Asking, targets: seq<Target>, output: seq<Suggestion>, cut: nat, log: seq<Query>) {
    && cut <= |log|
    && (forall q | q in log[..cut] :: Suggested(asking, targets, output, q))
    && (forall q | q in log[cut..] :: FromTemplate(asking, targets, log[..cut], q))
  }

  lemma TemplateAdded(asking: Asking, targets: seq<Target>, output: seq<Suggestion>, cut: nat, log: seq<Query>, q: Query)
    requires WellFounded(asking, targets, output, cut, log) && FromTemplate(asking, targets, log[..cut], q)
    ensures WellFounded(asking, targets, output, cut, log + [q])
  {
    assert (log + [q])[..cut] == log[..cut] && (log + [q])[cut..] == log[cut..] + [q];
  }

  // Every suggestion that matches a target was tried for it.
  ghost predicate AllTried(asking: Asking, targets: seq<Target>, seen: seq<string>, output: seq<Suggestion>, n: nat, log: seq<Query>)
    requires n <= |output|
  {
    forall i | 0 <= i < n && Match(targets, output[i]).Some? :: Tried(asking, seen, Quotas(targets), log, Match(targets, output[i]).value, output[i].text)
  }

  // A target with something to spend that got no query had every template refused.
  ghost predicate Exhaustive(asking: Asking, targets: seq<Target>, seen: seq<string>, n: nat, log: seq<Query>)
    requires n <= |targets|
  {
    forall k | 0 <= k < n && targets[k].quota > 0 && (forall q | q in log :: q.key != targets[k].key) ::
      forall o | o in asking.templates(targets[k]) :: RefusedOnce(asking, seen, Quotas(targets), log, targets[k], o)
  }

  lemma AllStayTried(asking: Asking, targets: seq<Target>, seen: seq<string>, output: seq<Suggestion>, n: nat, log: seq<Query>, more: seq<Query>)
    requires n <= |output| && AllTried(asking, targets, seen, output, n, log) && log <= more
    ensures AllTried(asking, targets, seen, output, n, more)
  {
    forall i | 0 <= i < n && Match(targets, output[i]).Some?
      ensures Tried(asking, seen, Quotas(targets), more, Match(targets, output[i]).value, output[i].text)
    {
      StaysTried(asking, seen, Quotas(targets), log, more, Match(targets, output[i]).value, output[i].text);
    }
  }

  lemma StaysExhaustive(asking: Asking, targets: seq<Target>, seen: seq<string>, n: nat, log: seq<Query>, more: seq<Query>)
    requires n <= |targets| && Exhaustive(asking, targets, seen, n, log) && log <= more
    ensures Exhaustive(asking, targets, seen, n, more)
  {
    forall k, o | 0 <= k < n && targets[k].quota > 0 && (forall q | q in more :: q.key != targets[k].key) && o in asking.templates(targets[k])
      ensures RefusedOnce(asking, seen, Quotas(targets), more, targets[k], o)
    {
      forall q | q in log ensures q in more { var i :| 0 <= i < |log| && log[i] == q; assert more[i] == q; }
      var p: nat :| p <= |log| && Refused(asking, seen, Quotas(targets), log, p, targets[k], o);
      SamePrefix(log, more, p, targets[k].key);
      assert Refused(asking, seen, Quotas(targets), more, p, targets[k], o);
    }
  }

  // The suggestions of the model, in order.
  method AdmitSuggestions(asking: Asking, targets: seq<Target>, seen: seq<string>, output: seq<Suggestion>) returns (log: seq<Query>)
    ensures Admitted(asking, targets, seen, Quotas(targets), log)
    ensures AllTried(asking, targets, seen, output, |output|, log) && WellFounded(asking, targets, output, |log|, log)
  {
    log := [];
    for i := 0 to |output|
      invariant Admitted(asking, targets, seen, Quotas(targets), log)
      invariant AllTried(asking, targets, seen, output, i, log) && forall q | q in log :: Suggested(asking, targets, output, q)
    {
      var target := Match(targets, output[i]);
      LastWithIsTarget(targets, Key(output[i].subqId, output[i].facetId, ""));
      FirstOfIsTarget(targets, output[i].subqId);
      if target.Some? {
        ghost var was := log;
        log := Admit(asking, targets, seen, Quotas(targets), log, target.value, output[i].text);
        AllStayTried(asking, targets, seen, output, i, was, log);
        assert Suggested(asking, targets, output, Query(target.value.key, asking.clean(output[i].text)));
      }
    }
  }

  // The templates of one target the model left without a query.
  method AdmitTemplates(asking: Asking, targets: seq<Target>, seen: seq<string>, ghost output: seq<Suggestion>, ghost cut: nat, was: seq<Query>, target: Target)
    returns (log: seq<Query>)
    requires target in targets && Admitted(asking, targets, seen, Quotas(targets), was) && WellFounded(asking, targets, output, cut, was)
    requires forall p | p in was[..cut] :: p.key != target.key
    ensures Admitted(asking, targets, seen, Quotas(targets), log) && WellFounded(asking, targets, output, cut, log) && was <= log
    ensures forall o | o in asking.templates(target) :: Tried(asking, seen, Quotas(targets), log, target, o)
  {
    log := was;
    var options := asking.templates(target);
    for i := 0 to |options|
      invariant Admitted(asking, targets, seen, Quotas(targets), log) && WellFounded(asking, targets, output, cut, log) && was <= log
      invariant forall l | 0 <= l < i :: Tried(asking, seen, Quotas(targets), log, target, options[l])
    {
      ghost var before := log;
      assert options[i] in asking.templates(target) && before[..cut] == was[..cut];
      assert FromTemplate(asking, targets, before[..cut], Query(target.key, asking.clean(options[i])));
      TemplateAdded(asking, targets, output, cut, before, Query(target.key, asking.clean(options[i])));
      log := Admit(asking, targets, seen, Quotas(targets), log, target, options[i]);
      forall l | 0 <= l < i ensures Tried(asking, seen, Quotas(targets), log, target, options[l]) {
        StaysTried(asking, seen, Quotas(targets), before, log, target, options[l]);
      }
    }
  }

  lemma NotLogged(asking: Asking, log: seq<Query>, target: Target, text: string)
    requires forall q | q in log :: q.key != target.key
    ensures !Logged(asking, log, target, text)
  {
    assert forall i | 0 <= i < |log| :: log[i] in log;
  }

  lemma TargetDone(asking: Asking, targets: seq<Target>, seen: seq<string>, n: nat, log: seq<Query>)
    requires n < |targets| && Exhaustive(asking, targets, seen, n, log)
    requires targets[n].quota > 0 && Taken(log, targets[n].key) == 0 ==> forall o | o in asking.templates(targets[n]) :: Tried(asking, seen, Quotas(targets), log, targets[n], o)
    ensures Exhaustive(asking, targets, seen, n + 1, log)
  {
    forall k, o | 0 <= k < n + 1 && targets[k].quota > 0 && (forall q | q in log :: q.key != targets[k].key) && o in asking.templates(targets[k])
      ensures RefusedOnce(asking, seen, Quotas(targets), log, targets[k], o)
    {
      if k == n {
        TakenCounts(log, targets[n].key);
        assert (set i | 0 <= i < |log| && log[i].key == targets[n].key) == {} by {
          forall i | 0 <= i < |log| ensures log[i].key != targets[n].key { assert log[i] in log; }
        }
        NotLogged(asking, log, targets[n], o);
      }
    }
  }

  ghost predicate Generated(asking: Asking, targets: seq<Target>, seen: seq<string>, output: Option<seq<Suggestion>>, log: seq<Query>) {
    && Admitted(asking, targets, seen, Quotas(targets), log)
    && (output.Some? ==> AllTried(asking, targets, seen, output.value, |output.value|, log))
    && (exists cut: nat :: WellFounded(asking, targets, output.GetOr([]), cut, log))
    && Exhaustive(asking, targets, seen, |targets|, log)
  }

  // What the model suggests, then templates for targets it left empty. None: the model call failed.
  method GenerateQueries(asking: Asking, targets: seq<Target>, seen: seq<string>, output: Option<seq<Suggestion>>) returns (log: seq<Query>)
    ensures Generated(asking, targets, seen, output, log)
  {
    var suggestions := output.GetOr([]);
    log := AdmitSuggestions(asking, targets, seen, suggestions);
    ghost var cut := |log|;
    for k := 0 to |targets|
      invariant Admitted(asking, targets, seen, Quotas(targets), log)
      invariant AllTried(asking, targets, seen, suggestions, |suggestions|, log) && WellFounded(asking, targets, suggestions, cut, log)
      invariant Exhaustive(asking, targets, seen, k, log)
    {
      assert targets[k] in targets;
      if Taken(log, targets[k].key) < Min(1, targets[k].quota) {
        ghost var was := log;
        NoneAsked(was, cut, targets[k].key);
        log := AdmitTemplates(asking, targets, seen, suggestions, cut, log, targets[k]);
        AllStayTried(asking, targets, seen, suggestions, |suggestions|, was, log);
        StaysExhaustive(asking, targets, seen, k, was, log);
      }
      TargetDone(asking, targets, seen, k, log);
    }
  }

  lemma NoneAsked(log: seq<Query>, n: nat, key: Key)
    requires n <= |log| && Taken(log, key) == 0
    ensures forall q | q in log[..n] :: q.key != key
  {
    AskedIff(log, key);
    forall q | q in log[..n] ensures q.key != key { assert q in log; }
  }

  // --- what the round does to the sub-questions ---

  predicate AskedAbout(subq: SubQuestion, log: seq<Query>) {
    exists i | 0 <= i < |subq.facets| :: Taken(log, Key(subq.id, subq.facets[i].id, "")) > 0
  }

  ghost predicate HasTarget(targets: seq<Target>, n: nat, subq: nat)
    requires n <= |targets|
  {
    exists k :: 0 <= k < n && targets[k].subq == subq
  }

  ghost predicate HasIdleGap(targets: seq<Target>, n: nat, subq: nat, log: seq<Query>)
    requires n <= |targets|
  {
    exists k :: 0 <= k < n && targets[k].subq == subq && targets[k].purpose == Gap && forall q | q in log :: q.key != targets[k].key
  }

  // Some target of it got a query.
  ghost predicate HasAsked(targets: seq<Target>, n: nat, subq: nat, log: seq<Query>)
    requires n <= |targets|
  {
    exists k :: 0 <= k < n && targets[k].subq == subq && exists q :: q in log && q.key == targets[k].key
  }

  // Nothing new left to ask about its missing facets.
  ghost predicate RanDry(plan: seq<SubQuestion>, targets: seq<Target>, n: nat, log: seq<Query>, iteration: nat, subq: nat)
    requires n <= |targets| && subq < |plan|
  {
    && iteration > 1 && HasIdleGap(targets, n, subq, log)
    && forall i, q | 0 <= i < |plan[subq].facets| && q in log :: q.key != Key(plan[subq].id, plan[subq].facets[i].id, "")
  }

  // Only targeted, hence open, sub-questions change, and only their status.
  ghost predicate MarkedAt(plan: seq<SubQuestion>, targets: seq<Target>, n: nat, log: seq<Query>, iteration: nat, i: nat, now: SubQuestion)
    requires n <= |targets| && i < |plan|
  {
    && now == plan[i].(status := now.status)
    && (!HasTarget(targets, n, i) ==> now == plan[i])
    && (now.status == Sufficient ==> plan[i].status == Sufficient)
    && (Open(plan[i]) ==> (now.status == Exhausted <==> RanDry(plan, targets, n, log, iteration, i)))
    && (Open(plan[i]) && !RanDry(plan, targets, n, log, iteration, i) ==>
          now.status == if HasAsked(targets, n, i, log) then Searching else plan[i].status)
  }

  ghost predicate Marked(plan: seq<SubQuestion>, targets: seq<Target>, n: nat, log: seq<Query>, iteration: nat, after: seq<SubQuestion>)
    requires n <= |targets|
  {
    |after| == |plan| && forall i: nat | i < |plan| :: MarkedAt(plan, targets, n, log, iteration, i, after[i])
  }

  // A gap with a query makes its sub-question asked about.
  ghost predicate GapsNameFacets(plan: seq<SubQuestion>, targets: seq<Target>) {
    forall t | t in targets && t.purpose == Gap ::
      t.subq < |plan| && exists i :: 0 <= i < |plan[t.subq].facets| && t.key == Key(plan[t.subq].id, plan[t.subq].facets[i].id, "")
  }

  method MarkSubQuestions(plan: seq<SubQuestion>, targets: seq<Target>, log: seq<Query>, iteration: nat) returns (after: seq<SubQuestion>)
    requires AtOpen(plan, targets) && Ordered(targets) && GapsNameFacets(plan, targets)
    ensures Marked(plan, targets, |targets|, log, iteration, after)
  {
    after := plan;
    StartsMarked(plan, targets, log, iteration);
    for n := 0 to |targets|
      invariant Marked(plan, targets, n, log, iteration, after)
    {
      after := MarkTarget(plan, targets, n, log, iteration, after);
    }
  }

  method MarkTarget(plan: seq<SubQuestion>, targets: seq<Target>, n: nat, log: seq<Query>, iteration: nat, was: seq<SubQuestion>) returns (after: seq<SubQuestion>)
    requires n < |targets| && Marked(plan, targets, n, log, iteration, was) && AtOpen(plan, targets) && Ordered(targets) && GapsNameFacets(plan, targets)
    ensures Marked(plan, targets, n + 1, log, iteration, after)
  {
    var t := targets[n];
    assert t in targets;
    after := was;
    if Taken(log, t.key) > 0 {
      after := after[t.subq := after[t.subq].(status := Searching)];
    } else if iteration > 1 && t.purpose == Gap && !AskedAbout(plan[t.subq], log) {
      after := after[t.subq := after[t.subq].(status := Exhausted)];
    }
    MarkedNext(plan, targets, n, log, iteration, was, after);
  }

  lemma StartsMarked(plan: seq<SubQuestion>, targets: seq<Target>, log: seq<Query>, iteration: nat)
    ensures Marked(plan, targets, 0, log, iteration, plan)
  {
  }

  lemma MarkedNext(plan: seq<SubQuestion>, targets: seq<Target>, n: nat, log: seq<Query>, iteration: nat, was: seq<SubQuestion>, after: seq<SubQuestion>)
    requires n < |targets| && Marked(plan, targets, n, log, iteration, was) && AtOpen(plan, targets) && Ordered(targets) && GapsNameFacets(plan, targets)
    requires targets[n].subq < |was|
    requires var t := targets[n];
      after == if Taken(log, t.key) > 0 then was[t.subq := was[t.subq].(status := Searching)]
               else if iteration > 1 && t.purpose == Gap && !AskedAbout(plan[t.subq], log) then was[t.subq := was[t.subq].(status := Exhausted)]
               else was
    ensures Marked(plan, targets, n + 1, log, iteration, after)
  {
    forall i: nat | i < |plan| ensures MarkedAt(plan, targets, n + 1, log, iteration, i, after[i]) {
      MarkStep(plan, targets, n, log, iteration, i, was[i], after[i]);
    }
  }

  lemma AskedAboutIff(subq: SubQuestion, log: seq<Query>)
    ensures AskedAbout(subq, log) <==> exists i, q :: 0 <= i < |subq.facets| && q in log && q.key == Key(subq.id, subq.facets[i].id, "")
  {
    forall i | 0 <= i < |subq.facets| { AskedIff(log, Key(subq.id, subq.facets[i].id, "")); }
  }

  lemma AskedIff(log: seq<Query>, key: Key)
    ensures Taken(log, key) > 0 <==> exists q :: q in log && q.key == key
  {
    TakenCounts(log, key);
    var places := set i | 0 <= i < |log| && log[i].key == key;
    if i :| 0 <= i < |log| && log[i].key == key {
      assert i in places && log[i] in log;
    } else {
      assert places == {};
    }
  }

  lemma MarkStep(plan: seq<SubQuestion>, targets: seq<Target>, n: nat, log: seq<Query>, iteration: nat, i: nat, was: SubQuestion, now: SubQuestion)
    requires n < |targets| && i < |plan| && MarkedAt(plan, targets, n, log, iteration, i, was)
    requires AtOpen(plan, targets) && Ordered(targets) && GapsNameFacets(plan, targets)
    requires var t := targets[n];
      now == if t.subq != i then was
             else if Taken(log, t.key) > 0 then was.(status := Searching)
             else if iteration > 1 && t.purpose == Gap && !AskedAbout(plan[i], log) then was.(status := Exhausted)
             else was
    ensures MarkedAt(plan, targets, n + 1, log, iteration, i, now)
  {
    MarkFacts(plan, targets, n, log, iteration, i);
    if Taken(log, targets[n].key) > 0 && targets[n].subq == i && targets[n].purpose != Gap { NoGapBefore(targets, n); }
  }

  lemma NoGapBefore(targets: seq<Target>, n: nat)
    requires n < |targets| && Ordered(targets) && targets[n].purpose != Gap
    ensures forall k | 0 <= k < n :: targets[k].purpose != Gap
  {
  }

  // What one more target adds to what the marks are told by.
  lemma MarkFacts(plan: seq<SubQuestion>, targets: seq<Target>, n: nat, log: seq<Query>, iteration: nat, i: nat)
    requires n < |targets| && i < |plan| && AtOpen(plan, targets) && GapsNameFacets(plan, targets)
    ensures var t := targets[n];
      && (t.subq == i ==> Open(plan[i]))
      && (HasTarget(targets, n + 1, i) <==> HasTarget(targets, n, i) || t.subq == i)
      && (HasIdleGap(targets, n + 1, i, log) <==> HasIdleGap(targets, n, i, log) || (t.subq == i && t.purpose == Gap && Taken(log, t.key) == 0))
      && (HasAsked(targets, n + 1, i, log) <==> HasAsked(targets, n, i, log) || (t.subq == i && Taken(log, t.key) > 0))
      && (t.subq == i && t.purpose == Gap && Taken(log, t.key) > 0 ==> AskedAbout(plan[i], log))
    ensures forall m | n <= m <= n + 1 :: RanDry(plan, targets, m, log, iteration, i) <==>
      iteration > 1 && HasIdleGap(targets, m, i, log) && !AskedAbout(plan[i], log)
  {
    assert targets[n] in targets;
    AskedAboutIff(plan[i], log);
    AskedIff(log, targets[n].key);
  }

  // The targets a round plans name the facets they are about.
  lemma {:induction false} GapsOfNameFacets(plan: seq<SubQuestion>, subq: nat, facets: seq<Facet>, per: nat)
    requires subq < |plan| && forall f | f in facets :: f in plan[subq].facets
    ensures GapsNameFacets(plan, GapsOf(plan, subq, facets, per))
  {
    if facets != [] {
      GapsOfNameFacets(plan, subq, facets[..|facets| - 1], per);
      var last := facets[|facets| - 1];
      assert last in facets;
      var i :| 0 <= i < |plan[subq].facets| && plan[subq].facets[i] == last;
    }
  }

  lemma {:induction false} AllGapsNameFacets(plan: seq<SubQuestion>, n: nat, per: nat)
    requires n <= |plan|
    ensures GapsNameFacets(plan, Gaps(plan, n, per))
  {
    if n > 0 {
      AllGapsNameFacets(plan, n - 1, per);
      GapsOfNameFacets(plan, n - 1, plan[n - 1].facets, per);
    }
  }

  lemma WantedNamesFacets(plan: seq<SubQuestion>, contradictions: seq<Contradiction>, per: nat, cap: nat, trimmed: seq<Target>)
    requires Trimmed(Wanted(plan, contradictions, per), cap, trimmed)
    ensures GapsNameFacets(plan, trimmed)
  {
    var wanted := Wanted(plan, contradictions, per);
    ConflictsAtOpen(plan, contradictions);
    AllGapsNameFacets(plan, |plan|, per);
    forall t | t in trimmed && t.purpose == Gap
      ensures t.subq < |plan| && exists i :: 0 <= i < |plan[t.subq].facets| && t.key == Key(plan[t.subq].id, plan[t.subq].facets[i].id, "")
    {
      var k :| 0 <= k < |trimmed| && trimmed[k] == t;
      assert GrantedAt(wanted, cap, trimmed, k);
      assert wanted[k] in Conflicts(plan, contradictions) || wanted[k] in Gaps(plan, |plan|, per);
    }
  }
}
