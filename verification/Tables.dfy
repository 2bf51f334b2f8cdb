/**
 Tables as maps from a primary key to a row, and the one aggregate every query needs: the sum of a
 weight over the rows. A count is the sum of a weight that is 0 or 1.
 */
module Tables {

  ghost function AnyKey<K, V>(m: map<K, V>): (k: K)
    requires m != map[]
    ensures k in m
  {
    var k :| k in m; k
  }

  ghost function Total<K, V>(m: map<K, V>, w: (K, V) -> int): int
    decreases |m|
  {
    if m == map[] then 0
    else
      var k := AnyKey(m);
      w(k, m[k]) + Total(m - {k}, w)
  }

  lemma {:induction false} TotalRemove<K, V>(m: map<K, V>, k: K, w: (K, V) -> int)
    requires k in m
    ensures Total(m, w) == w(k, m[k]) + Total(m - {k}, w)
    decreases |m|
  {
    var j := AnyKey(m);
    if j != k {
      TotalRemove(m - {j}, k, w);
      TotalRemove(m - {k}, j, w);
      assert m - {j} - {k} == m - {k} - {j};
    }
  }

  lemma TotalInsert<K, V>(m: map<K, V>, k: K, v: V, w: (K, V) -> int)
    requires k !in m
    ensures Total(m[k := v], w) == Total(m, w) + w(k, v)
  {
    TotalRemove(m[k := v], k, w);
    assert m[k := v] - {k} == m;
  }

  lemma {:induction false} TotalBounds<K, V>(m: map<K, V>, k: K, w: (K, V) -> int)
    requires k in m
    requires forall j :: j in m ==> w(j, m[j]) >= 0
    ensures 0 <= w(k, m[k]) <= Total(m, w)
  {
    TotalRemove(m, k, w);
    TotalNonNegative(m - {k}, w);
  }

  lemma {:induction false} TotalNonNegative<K, V>(m: map<K, V>, w: (K, V) -> int)
    requires forall j :: j in m ==> w(j, m[j]) >= 0
    ensures Total(m, w) >= 0
    decreases |m|
  {
    if m == map[] {
    } else {
      TotalNonNegative(m - {AnyKey(m)}, w);
    }
  }

  /** A total that is not zero has a row that weighs something. */
  lemma {:induction false} TotalWitness<K, V>(m: map<K, V>, w: (K, V) -> int) returns (k: K)
    requires Total(m, w) != 0
    ensures k in m && w(k, m[k]) != 0
    decreases |m|
  {
    k := AnyKey(m);
    if w(k, m[k]) == 0 {
      k := TotalWitness(m - {k}, w);
    }
  }

  lemma {:induction false} TotalAdds<K, V>(m: map<K, V>, w: (K, V) -> int, u: (K, V) -> int, sum: (K, V) -> int)
    requires forall k :: k in m ==> sum(k, m[k]) == w(k, m[k]) + u(k, m[k])
    ensures Total(m, sum) == Total(m, w) + Total(m, u)
    decreases |m|
  {
    if m == map[] {
    } else {
      TotalAdds(m - {AnyKey(m)}, w, u, sum);
    }
  }

  lemma {:induction false} TotalSame<K, V>(m: map<K, V>, w: (K, V) -> int, u: (K, V) -> int)
    requires forall k :: k in m ==> w(k, m[k]) == u(k, m[k])
    ensures Total(m, w) == Total(m, u)
    decreases |m|
  {
    if m == map[] {
    } else {
      TotalSame(m - {AnyKey(m)}, w, u);
    }
  }
}
