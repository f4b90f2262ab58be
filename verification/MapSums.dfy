/** Sums over the values of a map, and how they change with one entry. */
module MapSums {
  ghost function Sum<K>(m: map<K, nat>): nat
    decreases |m|
  {
    if |m| == 0 then 0
    else var k := AnyKey(m); m[k] + Sum(m - {k})
  }

  ghost function AnyKey<K>(m: map<K, nat>): (k: K)
    requires |m| != 0
    ensures k in m
  {
    assert m.Keys != {};
    var k :| k in m;
    k
  }

  lemma RemoveTwo<K>(m: map<K, nat>, j: K, k: K)
    ensures (m - {j}) - {k} == (m - {k}) - {j}
  {
  }

  lemma {:induction false} SumSplit<K>(m: map<K, nat>, k: K)
    requires k in m
    ensures Sum(m) == m[k] + Sum(m - {k})
    decreases |m|
  {
    var j := AnyKey(m);
    if j != k {
      SumSplit(m - {j}, k);
      SumSplit(m - {k}, j);
      RemoveTwo(m, j, k);
    }
  }

  lemma SumUpdate<K>(m: map<K, nat>, k: K, v: nat)
    ensures Sum(m[k := v]) == v + Sum(m - {k})
    ensures Sum(m) == (if k in m then m[k] else 0) + Sum(m - {k})
  {
    hide Sum;
    SumSplit(m[k := v], k);
    assert m[k := v] - {k} == m - {k};
    if k in m { SumSplit(m, k); } else { assert m - {k} == m; }
  }
}
