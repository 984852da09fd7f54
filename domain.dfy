/**
 * The records of the expense tracker: transactions, budgets and the calendar
 * values they are bucketed by.
 */
module Domain {
  import opened Wrappers
  import opened Sequences

  /** A calendar month number, 1 (January) to 12 (December). */
  type Month = m: int | 1 <= m <= 12 witness 1

  /** A (year, month) bucket: the key of the monthly pipeline and "the current month". */
  datatype YearMonth = YearMonth(year: int, month: Month)

  /**
   * A point in time: the calendar year and month it falls in, and a totally
   * ordered timestamp (milliseconds since the epoch) used for recency order.
   */
  datatype Date = Date(year: int, month: Month, time: int)

  /** A recorded expense. `id` is absent until the store assigns one. */
  datatype Transaction = Transaction(
    id: Option<string>,
    amount: real,
    date: Date,
    description: string,
    category: string)

  /** A monthly spending limit for one category. */
  datatype Budget = Budget(id: Option<string>, category: string, monthlyLimit: real)

  /** The (year, month) bucket a date falls in. */
  function MonthOf(d: Date): YearMonth
  {
    YearMonth(d.year, d.month)
  }

  /** Strict chronological order on month buckets: by year, then by month. */
  predicate Before(a: YearMonth, b: YearMonth)
  {
    a.year < b.year || (a.year == b.year && a.month < b.month)
  }

  /** The month a transaction is bucketed by. */
  function TransactionMonth(t: Transaction): YearMonth
  {
    MonthOf(t.date)
  }

  /** The category a transaction is grouped by. */
  function TransactionCategory(t: Transaction): string
  {
    t.category
  }

  /** Whether a transaction's date lies in the given calendar month. */
  predicate InMonth(t: Transaction, now: YearMonth)
  {
    t.date.month == now.month && t.date.year == now.year
  }

  /**
   * The transactions of the given calendar month: every occurrence of each
   * one in the month, and none outside it, in their original order.
   */
  function CurrentMonth(ts: seq<Transaction>, now: YearMonth): (r: seq<Transaction>)
    ensures |r| <= |ts|
    ensures forall t :: t in r <==> t in ts && InMonth(t, now)
    ensures forall t :: multiset(r)[t] == if InMonth(t, now) then multiset(ts)[t] else 0
    ensures Subsequence(r, ts)
  {
    if ts == [] then []
    else
      var init := ts[..|ts| - 1];
      var last := ts[|ts| - 1];
      assert ts == init + [last];
      var rest := CurrentMonth(init, now);
      SubsequenceSnoc(rest, init, last);
      if InMonth(last, now) then rest + [last] else rest
  }

  /** The timestamp of a transaction's date, as the key of a "newest first" order. */
  function Recency(t: Transaction): real
  {
    t.date.time as real
  }

  /** Dates never increase from left to right: newest first. */
  predicate NewestFirst(ts: seq<Transaction>)
  {
    forall i, j :: 0 <= i < j < |ts| ==> ts[i].date.time >= ts[j].date.time
  }
}
