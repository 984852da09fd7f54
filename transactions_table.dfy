/**
 * The transactions table: its rows sorted newest first from a copy of the
 * list it is given, and the two-click delete confirmation of its rows.
 */
module TransactionsTable {
  import opened Wrappers
  import opened Domain
  import opened DeleteConfirm

  /** The first `n` rows of `a` are newest first. */
  ghost predicate NewestFirstUpTo(a: array<Transaction>, n: nat)
    reads a
    requires n <= a.Length
  {
    forall p, q :: 0 <= p < q < n ==> a[p].date.time >= a[q].date.time
  }

  /** The transactions dated at timestamp `time`, in list order. */
  function AtTime(ts: seq<Transaction>, time: int): (r: seq<Transaction>)
    ensures |r| <= |ts|
    ensures forall t :: t in r <==> t in ts && t.date.time == time
  {
    if ts == [] then []
    else (if ts[0].date.time == time then [ts[0]] else []) + AtTime(ts[1..], time)
  }

  /** Selecting by date distributes over concatenation. */
  lemma {:induction false} AtTimeAppend(s: seq<Transaction>, u: seq<Transaction>, time: int)
    ensures AtTime(s + u, time) == AtTime(s, time) + AtTime(u, time)
  {
    if s != [] {
      assert (s + u)[1..] == s[1..] + u;
      AtTimeAppend(s[1..], u, time);
    } else {
      assert s + u == u;
    }
  }

  /** `s` and `u` list the rows of every single date in the same order. */
  ghost predicate SameOrderPerDate(s: seq<Transaction>, u: seq<Transaction>)
  {
    forall time :: AtTime(s, time) == AtTime(u, time)
  }

  /** Two rows with different dates select the same way in either order. */
  lemma PairAtTime(x: Transaction, y: Transaction, time: int)
    requires x.date.time != y.date.time
    ensures AtTime([x, y], time) == AtTime([y, x], time)
  {
    assert [x, y][1..] == [y];
    assert [y, x][1..] == [x];
  }

  /** Replacing a middle part by one that selects the same keeps the selection of the whole. */
  lemma AtTimeFrame(p: seq<Transaction>, m: seq<Transaction>, m2: seq<Transaction>, q: seq<Transaction>, time: int)
    requires AtTime(m, time) == AtTime(m2, time)
    ensures AtTime(p + m + q, time) == AtTime(p + m2 + q, time)
  {
    AtTimeAppend(p + m, q, time);
    AtTimeAppend(p, m, time);
    AtTimeAppend(p + m2, q, time);
    AtTimeAppend(p, m2, time);
  }

  /**
   * Exchanging two neighbouring rows with different dates leaves the rows
   * of every single date in the same order.
   */
  lemma SwapKeepsAtTime(s: seq<Transaction>, j: nat)
    requires 0 < j < |s| && s[j - 1].date.time != s[j].date.time
    ensures SameOrderPerDate(s[j - 1 := s[j]][j := s[j - 1]], s)
  {
    var before, after := s[..j - 1], s[j + 1..];
    var swapped := s[j - 1 := s[j]][j := s[j - 1]];
    assert s == before + [s[j - 1], s[j]] + after;
    assert swapped == before + [s[j], s[j - 1]] + after;
    forall time ensures AtTime(swapped, time) == AtTime(s, time) {
      PairAtTime(s[j], s[j - 1], time);
      AtTimeFrame(before, [s[j], s[j - 1]], [s[j - 1], s[j]], after, time);
    }
  }

  /** Exchange rows `j - 1` and `j`. */
  method Swap(a: array<Transaction>, j: nat)
    modifies a
    requires 0 < j < a.Length
    ensures a[..] == old(a[..])[j - 1 := old(a[j])][j := old(a[j - 1])]
    ensures multiset(a[..]) == old(multiset(a[..]))
  {
    a[j - 1], a[j] := a[j], a[j - 1];
  }

  /**
   * Midway through moving row `i` left: the moving row sits at `j`, the
   * other rows up to `i` are newest first, and it is at least as new as
   * every row after it.
   */
  ghost predicate Sinking(s: seq<Transaction>, i: nat, j: nat)
  {
    && j <= i < |s|
    && (forall p, q :: 0 <= p < q <= i && p != j && q != j ==> s[p].date.time >= s[q].date.time)
    && (forall q :: j < q <= i ==> s[j].date.time >= s[q].date.time)
  }

  /** Exchanging the moving row with an older left neighbour moves it one place left. */
  lemma SinkingStep(s: seq<Transaction>, i: nat, j: nat)
    requires Sinking(s, i, j) && 0 < j && s[j - 1].date.time < s[j].date.time
    ensures Sinking(s[j - 1 := s[j]][j := s[j - 1]], i, j - 1)
  {
  }

  /** Once its left neighbour is no older, the moving row is in place. */
  lemma SinkingDone(s: seq<Transaction>, i: nat, j: nat)
    requires Sinking(s, i, j) && (j == 0 || s[j - 1].date.time >= s[j].date.time)
    ensures forall p, q :: 0 <= p < q <= i ==> s[p].date.time >= s[q].date.time
  {
    forall p | 0 <= p < j
      ensures s[p].date.time >= s[j].date.time
    {
      if p < j - 1 {
        assert s[p].date.time >= s[j - 1].date.time;
      }
    }
  }

  /**
   * Move row `i` left past every older row, so that the first `i + 1` rows
   * are newest first given that the first `i` were. Rows with the same
   * date are never exchanged.
   */
  method SinkNewer(a: array<Transaction>, i: nat)
    modifies a
    requires i < a.Length && NewestFirstUpTo(a, i)
    ensures NewestFirstUpTo(a, i + 1)
    ensures multiset(a[..]) == old(multiset(a[..]))
    ensures forall time :: AtTime(a[..], time) == AtTime(old(a[..]), time)
  {
    var j: nat := i;
    while j > 0 && a[j - 1].date.time < a[j].date.time
      invariant Sinking(a[..], i, j)
      invariant multiset(a[..]) == old(multiset(a[..]))
      invariant SameOrderPerDate(a[..], old(a[..]))
    {
      ghost var before := a[..];
      SinkingStep(before, i, j);
      SwapKeepsAtTime(before, j);
      Swap(a, j);
      assert SameOrderPerDate(a[..], before);
      j := j - 1;
    }
    SinkingDone(a[..], i, j);
  }

  /**
   * The rows in newest-first order: a copy of `ts` sorted in place by date,
   * latest first. The sort is stable, as JavaScript's is: rows with the same
   * date keep their order in `ts`. The caller's list is a value and is left
   * as it was.
   */
  method SortedTransactions(ts: seq<Transaction>) returns (sorted: seq<Transaction>)
    ensures |sorted| == |ts|
    ensures multiset(sorted) == multiset(ts)
    ensures NewestFirst(sorted)
    ensures forall time :: AtTime(sorted, time) == AtTime(ts, time)
  {
    var a := new Transaction[|ts|](k requires 0 <= k < |ts| => ts[k]);
    assert a[..] == ts;
    for i := 0 to a.Length
      invariant multiset(a[..]) == multiset(ts)
      invariant forall time :: AtTime(a[..], time) == AtTime(ts, time)
      invariant NewestFirstUpTo(a, i)
    {
      SinkNewer(a, i);
    }
    sorted := a[..];
  }

  /** The table's delete confirmation: the row armed for deletion, if any. */
  class TransactionsTable {
    var deleteConfirm: Option<string>

    constructor ()
      ensures deleteConfirm == None
    {
      deleteConfirm := None;
    }

    /** A click on row `id`'s delete button; `deleted` is the id handed to the page's delete handler, if any. */
    method HandleDelete(id: string) returns (deleted: Option<string>)
      modifies this
      ensures Click(deleteConfirm, deleted) == OnDeleteClick(old(deleteConfirm), id)
    {
      if deleteConfirm == Some(id) {
        deleted := Some(id);
        deleteConfirm := None;
      } else {
        deleted := None;
        deleteConfirm := Some(id);
      }
    }
  }
}
