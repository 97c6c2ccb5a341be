/**
 Sparse balance tables: a missing key reads as zero, exactly as an unwritten
 storage slot does, and the total of a table is the sum over its keys.
 */
module Balances {

  /** An account id read as a number; 0 is the all-zero id. */
  type Id = int

  function Get<K>(m: map<K, int>, k: K): int {
    if k in m then m[k] else 0
  }

  ghost function Sum<K>(m: map<K, int>): int
    decreases |m|
  {
    if m == map[] then 0 else
      var k :| k in m;
      m[k] + Sum(m - {k})
  }

  ghost predicate Nonneg<K>(m: map<K, int>) {
    forall k :: k in m ==> 0 <= m[k]
  }

  lemma {:induction false} SumRemove<K>(m: map<K, int>, k: K)
    requires k in m
    ensures Sum(m) == m[k] + Sum(m - {k})
    decreases |m|
  {
    var j :| j in m && Sum(m) == m[j] + Sum(m - {j});
    if j != k {
      SumRemove(m - {j}, k);
      SumRemove(m - {k}, j);
      assert m - {j} - {k} == m - {k} - {j};
    }
  }

  /** Overwriting one entry changes the total by the difference. */
  lemma SumUpdate<K>(m: map<K, int>, k: K, v: int)
    ensures Sum(m[k := v]) == Sum(m) - Get(m, k) + v
  {
    SumRemove(m[k := v], k);
    assert m[k := v] - {k} == m - {k};
    if k in m {
      SumRemove(m, k);
    } else {
      assert m - {k} == m;
    }
  }

  lemma {:induction false} SumNonneg<K>(m: map<K, int>)
    requires Nonneg(m)
    ensures 0 <= Sum(m)
    decreases |m|
  {
    if m != map[] {
      var k :| k in m && Sum(m) == m[k] + Sum(m - {k});
      SumNonneg(m - {k});
    }
  }

  lemma {:induction false} ZeroSum<K>(m: map<K, int>)
    requires forall k :: k in m ==> m[k] == 0
    ensures Sum(m) == 0
    decreases |m|
  {
    if m != map[] {
      var k :| k in m && Sum(m) == m[k] + Sum(m - {k});
      ZeroSum(m - {k});
    }
  }

  /** No entry exceeds the total. */
  lemma EntryAtMostSum<K>(m: map<K, int>, k: K)
    requires Nonneg(m)
    ensures 0 <= Get(m, k) <= Sum(m)
  {
    if k in m {
      SumRemove(m, k);
      SumNonneg(m - {k});
    } else {
      SumNonneg(m);
    }
  }

  /** Two different entries together do not exceed the total. */
  lemma TwoEntriesAtMostSum<K>(m: map<K, int>, j: K, k: K)
    requires Nonneg(m) && j != k
    ensures 0 <= Get(m, j) && 0 <= Get(m, k)
    ensures Get(m, j) + Get(m, k) <= Sum(m)
  {
    if j in m {
      SumRemove(m, j);
      EntryAtMostSum(m - {j}, k);
      assert Get(m - {j}, k) == Get(m, k);
    } else {
      EntryAtMostSum(m, k);
    }
  }
}
