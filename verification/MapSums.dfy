/** Sums over the values of a ledger map, and how one update moves them. */
module MapSums {
  ghost function Sum<K(!new)>(m: map<K, int>): int {
    if m == map[] then 0
    else
      var k :| k in m;
      m[k] + Sum(m - {k})
  }

  /** A missing entry reads as zero, as `unwrap_or(0)` does. */
  function Get<K>(m: map<K, int>, k: K): int {
    if k in m then m[k] else 0
  }

  /** The entry of k has grown by the gain, and no other entry has changed. */
  ghost predicate Grows<K(!new)>(before: map<K, int>, after: map<K, int>, k: K, gain: int) {
    forall x :: Get(after, x) == Get(before, x) + if x == k then gain else 0
  }

  lemma {:induction false} SumRemove<K(!new)>(m: map<K, int>, k: K)
    requires k in m
    ensures Sum(m) == m[k] + Sum(m - {k})
  {
    var c :| c in m && Sum(m) == m[c] + Sum(m - {c});
    if c != k {
      SumRemove(m - {c}, k);
      SumRemove(m - {k}, c);
      assert m - {c} - {k} == m - {k} - {c};
    }
  }

  lemma SumUpdate<K(!new)>(m: map<K, int>, k: K, v: int)
    ensures Sum(m[k := v]) == Sum(m) - Get(m, k) + v
  {
    var n := m[k := v];
    SumRemove(n, k);
    if k in m {
      SumRemove(m, k);
      assert n - {k} == m - {k};
    } else {
      assert n - {k} == m;
    }
  }

  lemma {:induction false} SumNonNegative<K(!new)>(m: map<K, int>)
    requires forall k :: k in m ==> m[k] >= 0
    ensures Sum(m) >= 0
    ensures forall k :: k in m ==> m[k] <= Sum(m)
  {
    if m != map[] {
      forall k | k in m
        ensures Sum(m) >= 0 && m[k] <= Sum(m)
      {
        SumRemove(m, k);
        SumNonNegative(m - {k});
      }
      var k :| k in m;
    }
  }
}
