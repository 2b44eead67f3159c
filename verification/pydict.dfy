/**
 * The two ways the featuriser builds Python dicts. A dict built from a list of
 * items, `dict(items)` or a dict literal, holds for each key the value of the
 * last item with that key. `d.update(e)` is the right-biased union `d + e`, and a
 * dict updated in turn with several dicts keeps, for each key, the value of the
 * last update that has it.
 */
module PyDict {

  /** `dict(items)`: the items inserted in order, a later one overwriting an earlier one. */
  function FromItems<K, V>(items: seq<(K, V)>): map<K, V>
  {
    if items == [] then map[]
    else FromItems(items[..|items| - 1])[items[|items| - 1].0 := items[|items| - 1].1]
  }

  /** No two items share a key. */
  predicate DistinctKeys<K(==), V>(items: seq<(K, V)>)
  {
    forall i, j :: 0 <= i < j < |items| ==> items[i].0 != items[j].0
  }

  /** A key is present exactly when some item has it. */
  lemma {:induction false} FromItemsHas<K, V>(items: seq<(K, V)>, key: K)
    ensures key in FromItems(items) <==> exists i :: 0 <= i < |items| && items[i].0 == key
  {
    if items != [] {
      var front := items[..|items| - 1];
      FromItemsHas(front, key);
      if exists i :: 0 <= i < |front| && front[i].0 == key {
        var i :| 0 <= i < |front| && front[i].0 == key;
        assert items[i].0 == key;
      }
      if exists i :: 0 <= i < |items| && items[i].0 == key {
        var i :| 0 <= i < |items| && items[i].0 == key;
        if i < |front| {
          assert front[i].0 == key;
        }
      }
    }
  }

  /** With distinct keys nothing is overwritten: one entry per item. */
  lemma {:induction false} FromItemsSize<K, V>(items: seq<(K, V)>)
    requires DistinctKeys(items)
    ensures |FromItems(items)| == |items|
  {
    if items != [] {
      var front, last := items[..|items| - 1], items[|items| - 1];
      assert DistinctKeys(front);
      FromItemsSize(front);
      forall i | 0 <= i < |front| ensures front[i].0 != last.0 {
        assert front[i] == items[i];
      }
      FromItemsHas(front, last.0);
    }
  }

  /** The value stored under a key is the one of the last item that has it. */
  lemma {:induction false} FromItemsLast<K, V>(items: seq<(K, V)>, i: nat)
    requires i < |items|
    requires forall j :: i < j < |items| ==> items[j].0 != items[i].0
    ensures items[i].0 in FromItems(items) && FromItems(items)[items[i].0] == items[i].1
  {
    if i < |items| - 1 {
      var front := items[..|items| - 1];
      assert front[i] == items[i];
      forall j | i < j < |front| ensures front[j].0 != front[i].0 {
        assert front[j] == items[j];
      }
      FromItemsLast(front, i);
    }
  }

  /**
   * `d = dict(seed)` followed by `d.update(part(k))` for `k` in `0 .. n - 1`:
   * a fold with the right-biased union.
   */
  function UpdateAll<K, V>(seed: map<K, V>, part: nat -> map<K, V>, n: nat): map<K, V>
  {
    if n == 0 then seed else UpdateAll(seed, part, n - 1) + part(n - 1)
  }

  /** The number of keys over the first `n` updates, counted with repetition. */
  function TotalSize<K, V>(part: nat -> map<K, V>, n: nat): nat
  {
    if n == 0 then 0 else TotalSize(part, n - 1) + |part(n - 1)|
  }

  /** No key occurs in two of the first `n` updates, nor in one of them and the seed. */
  ghost predicate KeysDisjoint<K, V>(seed: map<K, V>, part: nat -> map<K, V>, n: nat)
  {
    && (forall k: nat, key :: k < n && key in part(k) ==> key !in seed)
    && (forall k: nat, l: nat, key :: k < l < n && key in part(k) ==> key !in part(l))
  }

  /** A key that neither the seed nor any update has is absent. */
  lemma {:induction false} UpdateAllLacks<K, V>(seed: map<K, V>, part: nat -> map<K, V>, n: nat, key: K)
    requires key !in seed
    requires forall k: nat :: k < n ==> key !in part(k)
    ensures key !in UpdateAll(seed, part, n)
  {
    if n > 0 {
      UpdateAllLacks(seed, part, n - 1, key);
    }
  }

  /** The union of two mappings with disjoint keys has the sizes added. */
  lemma UnionSize<K, V>(a: map<K, V>, b: map<K, V>)
    requires a.Keys !! b.Keys
    ensures |a + b| == |a| + |b|
  {
    assert (a + b).Keys == a.Keys + b.Keys;
  }

  /** With disjoint keys, update `n` adds only keys that are not yet present. */
  lemma UpdateAllNextIsNew<K, V>(seed: map<K, V>, part: nat -> map<K, V>, n: nat, m: nat)
    requires n < m && KeysDisjoint(seed, part, m)
    ensures UpdateAll(seed, part, n).Keys !! part(n).Keys
  {
    forall key | key in part(n) ensures key !in UpdateAll(seed, part, n) {
      UpdateAllLacks(seed, part, n, key);
    }
  }

  /** With disjoint keys nothing is overwritten, so the sizes add up. */
  lemma UpdateAllSize<K, V>(seed: map<K, V>, part: nat -> map<K, V>, n: nat)
    requires KeysDisjoint(seed, part, n)
    ensures |UpdateAll(seed, part, n)| == |seed| + TotalSize(part, n)
  {
    var i := 0;
    while i < n
      invariant i <= n
      invariant |UpdateAll(seed, part, i)| == |seed| + TotalSize(part, i)
    {
      UpdateAllNextIsNew(seed, part, i, n);
      UnionSize(UpdateAll(seed, part, i), part(i));
      i := i + 1;
    }
  }

  /** A key of update `k` that no later update has keeps the value update `k` gave it. */
  lemma {:induction false} UpdateAllValue<K, V>(seed: map<K, V>, part: nat -> map<K, V>, n: nat, k: nat, key: K)
    requires k < n && key in part(k)
    requires forall l: nat :: k < l < n ==> key !in part(l)
    ensures key in UpdateAll(seed, part, n) && UpdateAll(seed, part, n)[key] == part(k)[key]
  {
    if k < n - 1 {
      UpdateAllValue(seed, part, n - 1, k, key);
    }
  }

  /** A key of the seed that no update has keeps the seed's value. */
  lemma {:induction false} UpdateAllKeepsSeed<K, V>(seed: map<K, V>, part: nat -> map<K, V>, n: nat, key: K)
    requires key in seed
    requires forall l: nat :: l < n ==> key !in part(l)
    ensures key in UpdateAll(seed, part, n) && UpdateAll(seed, part, n)[key] == seed[key]
  {
    if n > 0 {
      UpdateAllKeepsSeed(seed, part, n - 1, key);
    }
  }
}
