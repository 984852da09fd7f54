/**
 * Sums of transaction amounts. Every sum is a left fold over the sequence,
 * the order in which `Array.prototype.reduce` and MongoDB's `$sum` visit it.
 */
module Sums {
  import opened Domain
  import opened Sequences

  /** The sum of all amounts; 0 for no transactions. */
  function Total(ts: seq<Transaction>): real
  {
    if ts == [] then 0.0 else Total(ts[..|ts| - 1]) + ts[|ts| - 1].amount
  }

  /** The sum of the amounts whose grouping key is `k`. */
  function SumWhere<K(==)>(ts: seq<Transaction>, key: Transaction -> K, k: K): real
  {
    if ts == [] then 0.0
    else
      var t := ts[|ts| - 1];
      SumWhere(ts[..|ts| - 1], key, k) + (if key(t) == k then t.amount else 0.0)
  }

  /** The group sums of the keys `ks`, added up. */
  function SumOver<K(==)>(ks: seq<K>, ts: seq<Transaction>, key: Transaction -> K): real
  {
    if ks == [] then 0.0 else SumWhere(ts, key, ks[0]) + SumOver(ks[1..], ts, key)
  }

  lemma {:induction false} TotalAppend(ts: seq<Transaction>, t: Transaction)
    ensures Total(ts + [t]) == Total(ts) + t.amount
  {
    assert (ts + [t])[..|ts|] == ts;
  }

  lemma {:induction false} SumWhereAppend<K>(ts: seq<Transaction>, t: Transaction, key: Transaction -> K, k: K)
    ensures SumWhere(ts + [t], key, k) == SumWhere(ts, key, k) + (if key(t) == k then t.amount else 0.0)
  {
    assert (ts + [t])[..|ts|] == ts;
  }

  /** With no transactions every group is empty. */
  lemma {:induction false} SumOverEmpty<K>(ks: seq<K>, key: Transaction -> K)
    ensures SumOver(ks, [], key) == 0.0
  {
    if ks != [] {
      SumOverEmpty(ks[1..], key);
    }
  }

  /** One more transaction adds its amount to exactly one group of a duplicate-free key list, or to none. */
  lemma {:induction false} SumOverAppend<K>(ks: seq<K>, ts: seq<Transaction>, t: Transaction, key: Transaction -> K)
    requires Distinct(ks)
    ensures SumOver(ks, ts + [t], key) == SumOver(ks, ts, key) + (if key(t) in ks then t.amount else 0.0)
  {
    if ks != [] {
      SumWhereAppend(ts, t, key, ks[0]);
      SumOverAppend(ks[1..], ts, t, key);
      assert key(t) in ks <==> key(t) == ks[0] || key(t) in ks[1..];
      assert key(t) == ks[0] ==> key(t) !in ks[1..];
    }
  }

  /**
   * Grouping conserves the total: over any duplicate-free list of keys that
   * contains every transaction's key, the group sums add up to the total.
   */
  lemma {:induction false} SumOverCovering<K>(ks: seq<K>, ts: seq<Transaction>, key: Transaction -> K)
    requires Distinct(ks)
    requires forall t :: t in ts ==> key(t) in ks
    ensures SumOver(ks, ts, key) == Total(ts)
  {
    if ts == [] {
      SumOverEmpty(ks, key);
    } else {
      var init, t := ts[..|ts| - 1], ts[|ts| - 1];
      assert ts == init + [t];
      SumOverCovering(ks, init, key);
      SumOverAppend(ks, init, t, key);
    }
  }

  /** With non-negative amounts a group sum lies between 0 and the total. */
  lemma {:induction false} SumWhereNonNegative<K>(ts: seq<Transaction>, key: Transaction -> K, k: K)
    requires forall t :: t in ts ==> t.amount >= 0.0
    ensures 0.0 <= SumWhere(ts, key, k) <= Total(ts)
  {
    if ts != [] {
      SumWhereNonNegative(ts[..|ts| - 1], key, k);
    }
  }
}
