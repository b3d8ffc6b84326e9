/** Sums of an integer measure over the entries of a map keyed by strings,
    used to state ledger-wide energy totals and per-seller reservations. */
module Sums {

  /** The sum of `f(m[k])` over the keys `keys` of `m`. */
  ghost function SumOver<V>(m: map<string, V>, keys: set<string>, f: V -> int): int
    requires keys <= m.Keys
    decreases keys
  {
    if keys == {} then 0
    else
      var k :| k in keys;
      f(m[k]) + SumOver(m, keys - {k}, f)
  }

  /** The sum of `f` over every entry of `m`. */
  ghost function Total<V>(m: map<string, V>, f: V -> int): int
  {
    SumOver(m, m.Keys, f)
  }

  /** Any key can be taken out first, whichever key the definition picks. */
  lemma {:induction false} SumOverSplit<V>(m: map<string, V>, keys: set<string>, k: string, f: V -> int)
    requires keys <= m.Keys && k in keys
    ensures SumOver(m, keys, f) == f(m[k]) + SumOver(m, keys - {k}, f)
    decreases keys
  {
    var j :| j in keys && SumOver(m, keys, f) == f(m[j]) + SumOver(m, keys - {j}, f);
    if j != k {
      SumOverSplit(m, keys - {j}, k, f);
      SumOverSplit(m, keys - {k}, j, f);
      assert keys - {j} - {k} == keys - {k} - {j};
    }
  }

  /** Two maps whose entries have the same measure on `keys` have the same sum there. */
  lemma {:induction false} SumOverAgree<V>(m1: map<string, V>, m2: map<string, V>, keys: set<string>, f: V -> int)
    requires keys <= m1.Keys && keys <= m2.Keys
    requires forall k :: k in keys ==> f(m1[k]) == f(m2[k])
    ensures SumOver(m1, keys, f) == SumOver(m2, keys, f)
    decreases keys
  {
    if keys != {} {
      var k :| k in keys;
      SumOverSplit(m1, keys, k, f);
      SumOverSplit(m2, keys, k, f);
      SumOverAgree(m1, m2, keys - {k}, f);
    }
  }

  /** A sum of non-negative measures is non-negative. */
  lemma {:induction false} SumOverNonNegative<V>(m: map<string, V>, keys: set<string>, f: V -> int)
    requires keys <= m.Keys
    requires forall k :: k in keys ==> f(m[k]) >= 0
    ensures SumOver(m, keys, f) >= 0
    decreases keys
  {
    if keys != {} {
      var k :| k in keys;
      SumOverSplit(m, keys, k, f);
      SumOverNonNegative(m, keys - {k}, f);
    }
  }

  /** Writing one entry changes the total by the difference of that entry's measure
      (a new key adds its measure). */
  lemma TotalUpdate<V>(m: map<string, V>, k: string, v: V, f: V -> int)
    ensures Total(m[k := v], f) == Total(m, f) - (if k in m then f(m[k]) else 0) + f(v)
  {
    var m' := m[k := v];
    var rest := m.Keys - {k};
    assert m'.Keys - {k} == rest;
    SumOverSplit(m', m'.Keys, k, f);
    SumOverAgree(m, m', rest, f);
    if k in m {
      SumOverSplit(m, m.Keys, k, f);
    } else {
      assert m.Keys == rest;
    }
  }

  /** Every entry with a non-negative measure bounds the total from below when all are non-negative. */
  lemma TotalAtLeastEntry<V>(m: map<string, V>, k: string, f: V -> int)
    requires k in m
    requires forall j :: j in m ==> f(m[j]) >= 0
    ensures Total(m, f) >= f(m[k])
  {
    SumOverSplit(m, m.Keys, k, f);
    SumOverNonNegative(m, m.Keys - {k}, f);
  }
}
