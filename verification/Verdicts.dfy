/**
 Asking a model about many items at once. A reply counts for an item only if it names the item exactly
 once; what is still open is asked again; what no reply settles stays without a verdict.
 */
module Verdicts {
  import opened Wrappers

  datatype Verdict<K, V> = Verdict(key: K, value: V)

  // None when the call failed.
  type Reply<K, V> = Option<seq<Verdict<K, V>>>

  function Mentions<K(==), V>(items: seq<Verdict<K, V>>, key: K): nat {
    if items == [] then 0 else Mentions(items[..|items| - 1], key) + if items[|items| - 1].key == key then 1 else 0
  }

  // The one verdict on `key`, if there is exactly one.
  ghost predicate Sole<K, V>(items: seq<Verdict<K, V>>, key: K, i: nat) {
    i < |items| && items[i].key == key && forall j | 0 <= j < |items| && items[j].key == key :: j == i
  }

  ghost function Only<K, V>(items: seq<Verdict<K, V>>, key: K): Option<V> {
    if i: nat :| Sole(items, key, i) then Some(items[i].value) else None
  }

  // The first reply that settles `key` decides.
  ghost function Settled<K, V>(replies: seq<Reply<K, V>>, key: K): Option<V> {
    if replies == [] then None
    else
      var earlier := Settled(replies[..|replies| - 1], key);
      var last := replies[|replies| - 1];
      if earlier.Some? || last.None? then earlier else Only(last.value, key)
  }

  lemma {:induction false} NotMentioned<K, V>(items: seq<Verdict<K, V>>, key: K)
    ensures Mentions(items, key) == 0 <==> forall i | 0 <= i < |items| :: items[i].key != key
  {
    if items != [] {
      NotMentioned(items[..|items| - 1], key);
      assert forall i | 0 <= i < |items| - 1 :: items[..|items| - 1][i] == items[i];
    }
  }

  lemma {:induction false} MentionedOnce<K, V>(items: seq<Verdict<K, V>>, key: K)
    ensures Mentions(items, key) == 1 <==> exists i: nat :: Sole(items, key, i)
  {
    if items != [] {
      var front, n := items[..|items| - 1], |items| - 1;
      MentionedOnce(front, key);
      NotMentioned(front, key);
      assert forall i | 0 <= i < n :: front[i] == items[i];
      if items[n].key == key {
        if Mentions(front, key) == 0 { assert Sole(items, key, n); }
        if i: nat :| Sole(items, key, i) { assert i == n; }
      } else {
        if i: nat :| Sole(front, key, i) { assert Sole(items, key, i); }
        if i: nat :| Sole(items, key, i) { assert Sole(front, key, i); }
      }
    }
  }

  lemma OnlyIsSole<K, V>(items: seq<Verdict<K, V>>, key: K, i: nat)
    requires i < |items| && items[i].key == key && Mentions(items, key) == 1
    ensures Sole(items, key, i) && Only(items, key) == Some(items[i].value)
  {
    MentionedOnce(items, key);
  }

  // An item settled in favour of something was named exactly once by one of the replies, and no earlier reply settled it.
  lemma {:induction false} SettledBy<K, V>(replies: seq<Reply<K, V>>, key: K) returns (t: nat, i: nat)
    requires Settled(replies, key).Some?
    ensures t < |replies| && replies[t].Some? && Sole(replies[t].value, key, i) && Settled(replies, key) == Some(replies[t].value[i].value)
    ensures Settled(replies[..t], key).None?
  {
    var front, last := replies[..|replies| - 1], replies[|replies| - 1];
    if Settled(front, key).Some? {
      t, i := SettledBy(front, key);
      assert replies[..t] == front[..t];
    } else {
      t := |replies| - 1;
      i :| Sole(last.value, key, i);
    }
  }

  ghost predicate Naming<K, V>(replies: seq<Reply<K, V>>, key: K, t: int, i: int) {
    && 0 <= t < |replies| && 0 <= i && replies[t].Some? && Sole(replies[t].value, key, i)
  }

  // Some reply names it exactly once, with that verdict, and no earlier reply names it exactly once.
  lemma {:induction false} SettledIff<K, V>(replies: seq<Reply<K, V>>, key: K, verdict: V)
    ensures Settled(replies, key) == Some(verdict) <==>
      exists t: int, i: int :: Naming(replies, key, t, i) && replies[t].value[i].value == verdict && forall u, j | u < t :: !Naming(replies, key, u, j)
  {
    if replies != [] {
      var n := |replies| - 1;
      var front := replies[..n];
      forall u, j ensures Naming(front, key, u, j) <==> u < n && Naming(replies, key, u, j) {}
      SettledIff(front, key, verdict);
      FirstNaming(front, key);
      if t, i :| Naming(front, key, t, i) && front[t].value[i].value == verdict && forall u, j | u < t :: !Naming(front, key, u, j) {
        assert Naming(replies, key, t, i);
      }
      if t, i :| Naming(replies, key, t, i) && replies[t].value[i].value == verdict && forall u, j | u < t :: !Naming(replies, key, u, j) {
        if t < n { assert Naming(front, key, t, i); }
      }
    }
  }

  lemma {:induction false} FirstNaming<K, V>(replies: seq<Reply<K, V>>, key: K)
    ensures Settled(replies, key).None? <==> forall t, i :: !Naming(replies, key, t, i)
  {
    if replies != [] {
      var n := |replies| - 1;
      FirstNaming(replies[..n], key);
      forall u: int, j: int ensures Naming(replies[..n], key, u, j) <==> u < n && Naming(replies, key, u, j) {}
      if i: nat :| replies[n].Some? && Sole(replies[n].value, key, i) { assert Naming(replies, key, n, i); }
    }
  }

  // --- the code ---

  // What is still open after the replies in `seen`.
  ghost predicate Polled<K, V>(asked: set<K>, seen: seq<Reply<K, V>>, verdicts: map<K, V>, open: set<K>) {
    && open <= asked && verdicts.Keys == asked - open
    && (forall k | k in asked :: k in open <==> Settled(seen, k).None?)
    && (forall k | k in verdicts :: Settled(seen, k) == Some(verdicts[k]))
  }

  ghost predicate Scanned<K, V>(asked: set<K>, seen: seq<Reply<K, V>>, items: seq<Verdict<K, V>>, n: nat, verdicts: map<K, V>, open: set<K>)
    requires n <= |items|
  {
    && open <= asked && verdicts.Keys == asked - open
    && (forall k | k in asked :: k in open <==> Settled(seen, k).None? && !NamedOnce(items, n, k))
    && (forall k | k in verdicts :: Settled(seen + [Some(items)], k) == Some(verdicts[k]))
  }

  ghost predicate NamedOnce<K, V>(items: seq<Verdict<K, V>>, n: nat, k: K)
    requires n <= |items|
  {
    exists i: nat :: i < n && Sole(items, k, i)
  }

  method ReadReply<K(==), V>(asked: set<K>, ghost seen: seq<Reply<K, V>>, items: seq<Verdict<K, V>>, settled: map<K, V>, pending: set<K>)
    returns (verdicts: map<K, V>, open: set<K>)
    requires Polled(asked, seen, settled, pending)
    ensures Polled(asked, seen + [Some(items)], verdicts, open)
  {
    verdicts, open := settled, pending;
    assert (seen + [Some(items)])[..|seen|] == seen;
    for i := 0 to |items|
      invariant Scanned(asked, seen, items, i, verdicts, open)
    {
      var k := items[i].key;
      ghost var was := open;
      if k in open && Mentions(items, k) == 1 {
        OnlyIsSole(items, k, i);
        open := open - {k};
        verdicts := verdicts[k := items[i].value];
      } else if Sole(items, k, i) {
        MentionedOnce(items, k);
      }
      forall x | x in asked ensures NamedOnce(items, i + 1, x) <==> NamedOnce(items, i, x) || (x == k && Sole(items, k, i)) {
        if j: nat :| j < i + 1 && Sole(items, x, j) { assert j < i || j == i; }
      }
    }
  }

  method Poll<K(==), V>(asked: set<K>, replies: seq<Reply<K, V>>) returns (verdicts: map<K, V>, open: set<K>)
    ensures Polled(asked, replies, verdicts, open)
  {
    verdicts, open := map[], asked;
    for t := 0 to |replies|
      invariant Polled(asked, replies[..t], verdicts, open)
    {
      assert replies[..t + 1] == replies[..t] + [replies[t]] && replies[..t + 1][..t] == replies[..t];
      if open == {} {
        NothingOpen(asked, replies[..t], replies[t..], verdicts);
        assert replies[..t] + replies[t..] == replies;
        return;
      }
      if replies[t].None? {
        continue;
      }
      verdicts, open := ReadReply(asked, replies[..t], replies[t].value, verdicts, open);
      assert replies[t] == Some(replies[t].value);
    }
    assert replies[..|replies|] == replies;
  }

  lemma {:induction false} NothingOpen<K, V>(asked: set<K>, seen: seq<Reply<K, V>>, more: seq<Reply<K, V>>, verdicts: map<K, V>)
    requires Polled(asked, seen, verdicts, {})
    ensures Polled(asked, seen + more, verdicts, {})
  {
    if more == [] {
      assert seen + more == seen;
    } else {
      NothingOpen(asked, seen, more[..|more| - 1], verdicts);
      assert (seen + more)[..|seen + more| - 1] == seen + more[..|more| - 1];
    }
  }
}
