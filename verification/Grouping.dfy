/** Grouping a list of keyed items in a hash map, as
    `map.entry(key).or_default().push(item)` in a loop does. */
module Grouping {
  import opened Machine

  /** The items under one key, in order. */
  function Under<K(==), V>(es: seq<(K, V)>, k: K): (r: seq<V>) {
    if es == [] then []
    else Under(es[..|es| - 1], k) + (if es[|es| - 1].0 == k then [es[|es| - 1].1] else [])
  }

  function Push<K, V>(m: map<K, seq<V>>, k: K, v: V): (r: map<K, seq<V>>) {
    m[k := (if k in m then m[k] else []) + [v]]
  }

  function Grouped<K, V>(es: seq<(K, V)>): (r: map<K, seq<V>>) {
    if es == [] then map[] else Push(Grouped(es[..|es| - 1]), es[|es| - 1].0, es[|es| - 1].1)
  }

  lemma GroupedPush<K, V>(es: seq<(K, V)>, e: (K, V))
    ensures Grouped(es + [e]) == Push(Grouped(es), e.0, e.1)
  {
    InitOfSnoc(es, e);
  }

  /** Each key's list holds exactly the items of that key, in order. */
  lemma {:induction false} GroupedSpec<K, V>(es: seq<(K, V)>, k: K)
    ensures k in Grouped(es) <==> Under(es, k) != []
    ensures k in Grouped(es) ==> Grouped(es)[k] == Under(es, k)
  {
    if es != [] {
      GroupedSpec(es[..|es| - 1], k);
    }
  }

  /** The number of items over all keys. */
  ghost function Total<K, V>(m: map<K, seq<V>>): (n: nat) {
    if m == map[] then 0 else var k :| k in m; |m[k]| + Total(m - {k})
  }

  lemma {:induction false} TotalWithout<K, V>(m: map<K, seq<V>>, k: K)
    requires k in m
    ensures Total(m) == |m[k]| + Total(m - {k})
    decreases |m|
  {
    var c :| c in m && Total(m) == |m[c]| + Total(m - {c});
    if c != k {
      TotalWithout(m - {c}, k);
      TotalWithout(m - {k}, c);
      assert m - {c} - {k} == m - {k} - {c};
    }
  }

  lemma TotalPush<K, V>(m: map<K, seq<V>>, k: K, v: V)
    ensures Total(Push(m, k, v)) == Total(m) + 1
  {
    var r := Push(m, k, v);
    TotalWithout(r, k);
    if k in m {
      TotalWithout(m, k);
      assert r - {k} == m - {k};
    } else {
      assert r - {k} == m;
    }
  }

  /** Grouping neither loses nor repeats an item. */
  lemma {:induction false} GroupedTotal<K, V>(es: seq<(K, V)>)
    ensures Total(Grouped(es)) == |es|
  {
    if es != [] {
      GroupedTotal(es[..|es| - 1]);
      TotalPush(Grouped(es[..|es| - 1]), es[|es| - 1].0, es[|es| - 1].1);
    }
  }
}
