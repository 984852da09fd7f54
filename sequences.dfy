/** Order and uniqueness predicates on sequences. */
module Sequences {

  /** No value occurs twice. */
  predicate Distinct<T(==)>(s: seq<T>)
  {
    forall i, j :: 0 <= i < j < |s| ==> s[i] != s[j]
  }

  /** `sub` is `s` with some elements dropped and the rest kept in order. */
  predicate Subsequence<T(==)>(sub: seq<T>, s: seq<T>)
    decreases |s|
  {
    if sub == [] then true
    else if s == [] then false
    else if sub[0] == s[0] then Subsequence(sub[1..], s[1..])
    else Subsequence(sub, s[1..])
  }

  lemma {:induction false} SubsequenceMembers<T>(sub: seq<T>, s: seq<T>)
    requires Subsequence(sub, s)
    ensures |sub| <= |s|
    ensures forall x :: x in sub ==> x in s
    decreases |s|
  {
    if sub != [] {
      if sub[0] == s[0] {
        SubsequenceMembers(sub[1..], s[1..]);
        assert forall x :: x in sub ==> x == sub[0] || x in sub[1..];
      } else {
        SubsequenceMembers(sub, s[1..]);
      }
    }
  }

  /** A single value is a subsequence of any sequence that ends with it. */
  lemma {:induction false} SubsequenceLast<T>(s: seq<T>, x: T)
    ensures Subsequence([x], s + [x])
    decreases |s|
  {
    if s != [] && s[0] != x {
      SubsequenceLast(s[1..], x);
      assert (s + [x])[1..] == s[1..] + [x];
    }
  }

  /** Appending a value to a sequence keeps its subsequences, with or without that value. */
  lemma {:induction false} SubsequenceSnoc<T>(sub: seq<T>, s: seq<T>, x: T)
    requires Subsequence(sub, s)
    ensures Subsequence(sub + [x], s + [x])
    ensures Subsequence(sub, s + [x])
    decreases |s|
  {
    if sub == [] {
      SubsequenceLast(s, x);
      assert sub + [x] == [x];
    } else {
      assert (s + [x])[1..] == s[1..] + [x];
      if sub[0] == s[0] {
        SubsequenceSnoc(sub[1..], s[1..], x);
        assert (sub + [x])[1..] == sub[1..] + [x];
      } else {
        SubsequenceSnoc(sub, s[1..], x);
      }
    }
  }

  /** The head of a duplicate-free sequence does not recur, and its tail is duplicate-free. */
  lemma DistinctTail<T>(s: seq<T>)
    requires Distinct(s) && s != []
    ensures s[0] !in s[1..] && Distinct(s[1..])
  {
    forall j | 0 <= j < |s[1..]| ensures s[1..][j] != s[0] {
      assert s[1..][j] == s[j + 1];
    }
  }

  /** A new value in front of a duplicate-free sequence keeps it duplicate-free. */
  lemma DistinctCons<T>(x: T, s: seq<T>)
    requires Distinct(s) && x !in s
    ensures Distinct([x] + s)
  {
    forall j | 0 < j < |[x] + s| ensures ([x] + s)[j] != x {
      assert ([x] + s)[j] == s[j - 1];
    }
  }

  /** A duplicate-free sequence has as many elements as its set of values. */
  lemma {:induction false} DistinctCardinality<T>(s: seq<T>)
    requires Distinct(s)
    ensures |set x | x in s| == |s|
  {
    if s != [] {
      DistinctCardinality(s[1..]);
      assert (set x | x in s) == {s[0]} + (set x | x in s[1..]);
      assert s[0] !in s[1..];
    }
  }
}
