/** Frame conditions on finite maps: what an operation that writes one key
    promises about the others. */
module Maps {

  /** `a` and `b` agree on every key but `k`. */
  predicate AgreeExcept<K, V(==)>(a: map<K, V>, b: map<K, V>, k: K) {
    a - {k} == b - {k}
  }

  /** Agreeing off `k` means every other key is present in both or in
      neither, with the same value. */
  lemma AgreeExceptPointwise<K, V>(a: map<K, V>, b: map<K, V>, k: K, j: K)
    requires AgreeExcept(a, b, k)
    requires j != k
    ensures j in a <==> j in b
    ensures j in a ==> a[j] == b[j]
  {
    assert j in a <==> j in a - {k};
    assert j in b <==> j in b - {k};
    if j in a {
      assert (a - {k})[j] == a[j];
      assert (b - {k})[j] == b[j];
    }
  }

  /** Writing key `k` keeps every other key. */
  lemma AgreeExceptWrite<K, V>(m: map<K, V>, k: K, v: V)
    ensures AgreeExcept(m, m[k := v], k)
  {
    assert m - {k} == m[k := v] - {k};
  }
}
