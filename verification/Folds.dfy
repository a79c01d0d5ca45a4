/** Combining the values of a finite set of keys with an operation whose order does not matter. */
module Folds {
  ghost predicate Law<V>(op: (V, V) -> V, unit: V, a: V, b: V, c: V) {
    op(a, op(b, c)) == op(b, op(a, c)) == op(op(a, b), c) && op(a, unit) == a && op(unit, a) == a
  }

  ghost predicate OrderFree<V(!new)>(op: (V, V) -> V, unit: V) {
    forall a, b, c :: Law(op, unit, a, b, c)
  }

  ghost function Fold<K(!new), V>(keys: set<K>, f: K -> V, op: (V, V) -> V, unit: V): V {
    if keys == {} then unit else var k :| k in keys; op(f(k), Fold(keys - {k}, f, op, unit))
  }

  lemma {:induction false} FoldPick<K(!new), V(!new)>(keys: set<K>, f: K -> V, op: (V, V) -> V, unit: V, k: K)
    requires OrderFree(op, unit) && k in keys
    ensures Fold(keys, f, op, unit) == op(f(k), Fold(keys - {k}, f, op, unit))
    decreases keys
  {
    var first :| first in keys && Fold(keys, f, op, unit) == op(f(first), Fold(keys - {first}, f, op, unit));
    if first != k {
      FoldPick(keys - {first}, f, op, unit, k);
      FoldPick(keys - {k}, f, op, unit, first);
      assert keys - {first} - {k} == keys - {k} - {first};
      assert Law(op, unit, f(first), f(k), Fold(keys - {first} - {k}, f, op, unit));
    }
  }

  lemma {:induction false} SameFold<K(!new), V(!new)>(keys: set<K>, f: K -> V, g: K -> V, op: (V, V) -> V, unit: V)
    requires OrderFree(op, unit) && forall k | k in keys :: f(k) == g(k)
    ensures Fold(keys, f, op, unit) == Fold(keys, g, op, unit)
    decreases keys
  {
    if keys != {} {
      var k :| k in keys;
      FoldPick(keys, f, op, unit, k);
      FoldPick(keys, g, op, unit, k);
      SameFold(keys - {k}, f, g, op, unit);
    }
  }

  // Changing the value at one key, or adding it, changes one factor.
  lemma ChangeOne<K(!new), V(!new)>(keys: set<K>, rest: set<K>, key: K, f: K -> V, g: K -> V, op: (V, V) -> V, unit: V)
    requires OrderFree(op, unit) && (forall k | k != key :: f(k) == g(k)) && key in keys && rest == keys - {key}
    ensures Fold(keys, g, op, unit) == op(g(key), Fold(rest, f, op, unit))
  {
    FoldPick(keys, g, op, unit, key);
    SameFold(rest, f, g, op, unit);
  }

  lemma {:induction false} FoldStays<K(!new), V(!new)>(keys: set<K>, f: K -> V, op: (V, V) -> V, unit: V, within: V -> bool)
    requires within(unit) && forall a, b | within(a) && within(b) :: within(op(a, b))
    requires forall k | k in keys :: within(f(k))
    ensures within(Fold(keys, f, op, unit))
    decreases keys
  {
    if keys != {} {
      var k :| k in keys && Fold(keys, f, op, unit) == op(f(k), Fold(keys - {k}, f, op, unit));
      FoldStays(keys - {k}, f, op, unit, within);
    }
  }

  ghost function ValueAt<K(!new), V>(scores: map<K, V>, unit: V): K -> V {
    k => if k in scores then scores[k] else unit
  }

  method FoldAll<K(!new, ==), V(!new)>(scores: map<K, V>, op: (V, V) -> V, unit: V) returns (total: V)
    requires OrderFree(op, unit)
    ensures total == Fold(scores.Keys, ValueAt(scores, unit), op, unit)
  {
    total := unit;
    ghost var f := ValueAt(scores, unit);
    var todo := scores.Keys;
    assert Law(op, unit, Fold(todo, f, op, unit), unit, unit);
    while todo != {}
      invariant todo <= scores.Keys && op(total, Fold(todo, f, op, unit)) == Fold(scores.Keys, f, op, unit)
    {
      var k :| k in todo;
      FoldPick(todo, f, op, unit, k);
      assert Law(op, unit, total, f(k), Fold(todo - {k}, f, op, unit));
      total := op(total, scores[k]);
      todo := todo - {k};
    }
    assert Law(op, unit, total, unit, unit);
  }
}
