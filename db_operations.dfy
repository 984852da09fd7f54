/**
 * The data-access layer: what the store hands back for reads and writes, and
 * the two analytics pipelines (monthly totals and category totals). The store
 * itself is abstracted: a stored document is a value, a freshly assigned id a
 * parameter.
 */
module DbOperations {
  import opened Wrappers
  import opened Domain
  import opened Sequences
  import opened Sums
  import opened Sorting

  /** The number of months the monthly pipeline keeps (`$limit`). */
  const MonthLimit: nat := 12

  // ---------------------------------------------------------------------
  // Reads and writes
  // ---------------------------------------------------------------------

  /** A transaction as the store holds it, under its object id. */
  datatype Document = Document(
    objectId: string,
    amount: real,
    date: Date,
    description: string,
    category: string)

  /** The record handed to callers: the stored fields and the object id as `id`. */
  function ToTransaction(d: Document): (t: Transaction)
    ensures t.id == Some(d.objectId)
    ensures t.amount == d.amount && t.date == d.date
    ensures t.description == d.description && t.category == d.category
  {
    Transaction(Some(d.objectId), d.amount, d.date, d.description, d.category)
  }

  function ToTransactions(docs: seq<Document>): (ts: seq<Transaction>)
    ensures |ts| == |docs|
    ensures forall i :: 0 <= i < |docs| ==> ts[i] == ToTransaction(docs[i])
    ensures forall i :: 0 <= i < |ts| ==> ts[i].id.Some?
  {
    if docs == [] then [] else [ToTransaction(docs[0])] + ToTransactions(docs[1..])
  }

  /** Every stored transaction, newest first, each carrying its stored fields and id. */
  function AllTransactions(docs: seq<Document>): (r: seq<Transaction>)
    ensures |r| == |docs|
    ensures multiset(r) == multiset(ToTransactions(docs))
    ensures NewestFirst(r)
    ensures forall i :: 0 <= i < |r| ==> r[i].id.Some?
  {
    var all := ToTransactions(docs);
    var r := SortDescending(all, Recency);
    forall i | 0 <= i < |r| ensures r[i].id.Some? {
      assert r[i] in multiset(all);
    }
    assert NewestFirst(r) by {
      forall i, j | 0 <= i < j < |r| ensures r[i].date.time >= r[j].date.time {
        assert Recency(r[i]) >= Recency(r[j]);
      }
    }
    r
  }

  /** The inserted transaction as returned: the caller's fields with the new id. */
  function CreateTransaction(data: Transaction, insertedId: string): (t: Transaction)
    ensures t.id == Some(insertedId)
    ensures t.(id := data.id) == data
  {
    data.(id := Some(insertedId))
  }

  /** The replaced transaction as returned: the supplied fields under the same id. */
  function UpdateTransaction(id: string, data: Transaction): (t: Transaction)
    ensures t.id == Some(id)
    ensures t.(id := data.id) == data
  {
    data.(id := Some(id))
  }

  /** The inserted budget as returned: the caller's fields with the new id. */
  function CreateBudget(data: Budget, insertedId: string): (b: Budget)
    ensures b.id == Some(insertedId)
    ensures b.(id := data.id) == data
  {
    data.(id := Some(insertedId))
  }

  /** The replaced budget as returned: the supplied fields under the same id. */
  function UpdateBudget(id: string, data: Budget): (b: Budget)
    ensures b.id == Some(id)
    ensures b.(id := data.id) == data
  {
    data.(id := Some(id))
  }

  // ---------------------------------------------------------------------
  // Monthly totals: $group by (year, month), $sum amount, $sort ascending, $limit 12
  // ---------------------------------------------------------------------

  /** One output row of the monthly pipeline. */
  datatype MonthTotal = MonthTotal(month: YearMonth, amount: real)

  /** The distinct months the transactions fall in. */
  ghost function MonthsOf(ts: seq<Transaction>): set<YearMonth>
  {
    set t | t in ts :: TransactionMonth(t)
  }

  /** Strictly ascending chronological order (hence no month twice). */
  predicate Ascending(ks: seq<YearMonth>)
  {
    forall i, j :: 0 <= i < j < |ks| ==> Before(ks[i], ks[j])
  }

  lemma AscendingIsDistinct(ks: seq<YearMonth>)
    requires Ascending(ks)
    ensures Distinct(ks)
  {
  }

  /** Add a month to an ascending list of distinct months, keeping it ascending. */
  function InsertMonth(k: YearMonth, ks: seq<YearMonth>): (r: seq<YearMonth>)
    requires Ascending(ks)
    ensures Ascending(r)
    ensures forall m :: m in r <==> m == k || m in ks
    decreases |ks|, 0
  {
    if ks == [] then [k]
    else if k == ks[0] then ks
    else if Before(k, ks[0]) then [k] + ks
    else
      assert ks == [ks[0]] + ks[1..];
      InsertMonthAfter(k, ks[1..], ks[0]);
      [ks[0]] + InsertMonth(k, ks[1..])
  }

  /** Inserting keeps every month after a bound that already holds for `k` and for `ks`. */
  lemma {:induction false} InsertMonthAfter(k: YearMonth, ks: seq<YearMonth>, b: YearMonth)
    requires Ascending(ks)
    requires Before(b, k)
    requires forall i :: 0 <= i < |ks| ==> Before(b, ks[i])
    ensures forall i :: 0 <= i < |InsertMonth(k, ks)| ==> Before(b, InsertMonth(k, ks)[i])
    decreases |ks|, 1
  {
    if ks != [] && k != ks[0] && !Before(k, ks[0]) {
      InsertMonthAfter(k, ks[1..], b);
    }
  }

  /** The $group keys in $sort order: every distinct month once, ascending. */
  function SortedMonths(ts: seq<Transaction>): (r: seq<YearMonth>)
    ensures Ascending(r)
    ensures forall m :: m in r <==> m in MonthsOf(ts)
  {
    if ts == [] then []
    else
      var init := ts[..|ts| - 1];
      assert ts == init + [ts[|ts| - 1]];
      InsertMonth(TransactionMonth(ts[|ts| - 1]), SortedMonths(init))
  }

  /** One row per month key, carrying that month's summed amount. */
  function MonthRows(ks: seq<YearMonth>, ts: seq<Transaction>): (r: seq<MonthTotal>)
    ensures |r| == |ks|
    ensures forall i :: 0 <= i < |ks| ==> r[i] == MonthTotal(ks[i], SumWhere(ts, TransactionMonth, ks[i]))
  {
    if ks == [] then []
    else [MonthTotal(ks[0], SumWhere(ts, TransactionMonth, ks[0]))] + MonthRows(ks[1..], ts)
  }

  function MonthAmount(row: MonthTotal): real
  {
    row.amount
  }

  lemma {:induction false} MonthRowsSum(ks: seq<YearMonth>, ts: seq<Transaction>)
    ensures SumBy(MonthRows(ks, ts), MonthAmount) == SumOver(ks, ts, TransactionMonth)
  {
    if ks != [] {
      MonthRowsSum(ks[1..], ts);
      assert MonthRows(ks, ts)[1..] == MonthRows(ks[1..], ts);
    }
  }

  /** The months a result covers. */
  function RowMonths(rows: seq<MonthTotal>): (r: seq<YearMonth>)
    ensures |r| == |rows|
    ensures forall i :: 0 <= i < |rows| ==> r[i] == rows[i].month
  {
    if rows == [] then [] else [rows[0].month] + RowMonths(rows[1..])
  }

  /** The $group stage as ordered by the $sort stage: one row per distinct month, ascending. */
  function GroupedMonths(ts: seq<Transaction>): (r: seq<MonthTotal>)
    ensures |r| == |MonthsOf(ts)|
    ensures RowMonths(r) == SortedMonths(ts)
    ensures forall i :: 0 <= i < |r| ==> r[i].amount == SumWhere(ts, TransactionMonth, r[i].month)
  {
    var ks := SortedMonths(ts);
    AscendingIsDistinct(ks);
    DistinctCardinality(ks);
    assert (set x | x in ks) == MonthsOf(ts);
    MonthRows(ks, ts)
  }

  /** A prefix of ascending months keeps a month or lies wholly before it. */
  lemma KeptOrLater(ks: seq<YearMonth>, n: nat, m: YearMonth)
    requires Ascending(ks) && n <= |ks| && m in ks
    ensures m in ks[..n] || forall i :: 0 <= i < n ==> Before(ks[i], m)
  {
  }

  /** A suffix of ascending months keeps a month or lies wholly after it. */
  lemma KeptOrEarlier(ks: seq<YearMonth>, n: nat, m: YearMonth)
    requires Ascending(ks) && n <= |ks| && m in ks
    ensures m in ks[|ks| - n..] || forall i :: |ks| - n <= i < |ks| ==> Before(m, ks[i])
  {
  }

  lemma RowMonthsPrefix(rows: seq<MonthTotal>, n: nat)
    requires n <= |rows|
    ensures RowMonths(rows[..n]) == RowMonths(rows)[..n]
  {
  }

  lemma RowMonthsSuffix(rows: seq<MonthTotal>, n: nat)
    requires n <= |rows|
    ensures RowMonths(rows[n..]) == RowMonths(rows)[n..]
  {
  }

  /**
   * The monthly pipeline as written: group, sum, sort ascending, keep the
   * first 12 rows. With more than 12 distinct months the EARLIEST 12 are kept.
   */
  function MonthlyExpenses(ts: seq<Transaction>): (r: seq<MonthTotal>)
    ensures |r| == if |MonthsOf(ts)| <= MonthLimit then |MonthsOf(ts)| else MonthLimit
    ensures Ascending(RowMonths(r))
    ensures forall i :: 0 <= i < |r| ==>
      r[i].month in MonthsOf(ts) && r[i].amount == SumWhere(ts, TransactionMonth, r[i].month)
    ensures forall t :: t in ts ==>
      TransactionMonth(t) in RowMonths(r) ||
      (|r| == MonthLimit && forall i :: 0 <= i < |r| ==> Before(r[i].month, TransactionMonth(t)))
  {
    var rows := GroupedMonths(ts);
    var n := if |rows| <= MonthLimit then |rows| else MonthLimit;
    EarliestKept(ts, rows, n);
    rows[..n]
  }

  /**
   * Cutting the grouped rows after `n` keeps the earliest months: the kept
   * rows are ascending occurring months with their sums, every other month
   * is later than all of them, and keeping all rows covers every month.
   */
  lemma EarliestKept(ts: seq<Transaction>, rows: seq<MonthTotal>, n: nat)
    requires rows == GroupedMonths(ts) && n <= |rows|
    ensures Ascending(RowMonths(rows[..n]))
    ensures forall i :: 0 <= i < n ==>
      rows[..n][i].month in MonthsOf(ts) && rows[..n][i].amount == SumWhere(ts, TransactionMonth, rows[..n][i].month)
    ensures forall t :: t in ts ==>
      TransactionMonth(t) in RowMonths(rows[..n]) ||
      forall i :: 0 <= i < n ==> Before(rows[..n][i].month, TransactionMonth(t))
    ensures n == |rows| ==> forall t :: t in ts ==> TransactionMonth(t) in RowMonths(rows[..n])
  {
    KeptMonthsArePrefix(ts, rows, n);
    KeptRowsOccur(ts, rows, n);
    KeptOrAllEarlier(ts, rows, n);
  }

  /** The kept rows' months are the first `n` group keys. */
  lemma KeptMonthsArePrefix(ts: seq<Transaction>, rows: seq<MonthTotal>, n: nat)
    requires rows == GroupedMonths(ts) && n <= |rows|
    ensures RowMonths(rows[..n]) == SortedMonths(ts)[..n]
    ensures Ascending(RowMonths(rows[..n]))
  {
    RowMonthsPrefix(rows, n);
  }

  /** Each kept row is an occurring month with that month's sum. */
  lemma KeptRowsOccur(ts: seq<Transaction>, rows: seq<MonthTotal>, n: nat)
    requires rows == GroupedMonths(ts) && n <= |rows|
    ensures forall i :: 0 <= i < n ==>
      rows[..n][i].month in MonthsOf(ts) && rows[..n][i].amount == SumWhere(ts, TransactionMonth, rows[..n][i].month)
  {
    var ks := SortedMonths(ts);
    forall i | 0 <= i < n ensures rows[i].month in MonthsOf(ts) {
      assert RowMonths(rows)[i] == rows[i].month;
      assert ks[i] in ks;
    }
  }

  /** A transaction's month is kept, or lies after every kept month; with every row kept, it is kept. */
  lemma KeptOrAllEarlier(ts: seq<Transaction>, rows: seq<MonthTotal>, n: nat)
    requires rows == GroupedMonths(ts) && n <= |rows|
    ensures forall t :: t in ts ==>
      TransactionMonth(t) in RowMonths(rows[..n]) ||
      forall i :: 0 <= i < n ==> Before(rows[..n][i].month, TransactionMonth(t))
    ensures n == |rows| ==> forall t :: t in ts ==> TransactionMonth(t) in RowMonths(rows[..n])
  {
    var ks := SortedMonths(ts);
    KeptMonthsArePrefix(ts, rows, n);
    assert ks[..|ks|] == ks;
    forall t | t in ts
      ensures TransactionMonth(t) in ks[..n] || forall i :: 0 <= i < n ==> Before(ks[i], TransactionMonth(t))
    {
      assert TransactionMonth(t) in MonthsOf(ts);
      KeptOrLater(ks, n, TransactionMonth(t));
    }
    forall t, i | t in ts && 0 <= i < n && TransactionMonth(t) !in ks[..n]
      ensures Before(rows[..n][i].month, TransactionMonth(t))
    {
      assert rows[..n][i].month == RowMonths(rows[..n])[i];
    }
  }

  /** With at most 12 distinct months nothing is cut off: the rows sum to the total of all amounts. */
  lemma MonthlyExpensesConserveTotal(ts: seq<Transaction>)
    requires |MonthsOf(ts)| <= MonthLimit
    ensures SumBy(MonthlyExpenses(ts), MonthAmount) == Total(ts)
  {
    var ks := SortedMonths(ts);
    AscendingIsDistinct(ks);
    var rows := GroupedMonths(ts);
    assert rows[..|rows|] == rows;
    assert rows == MonthRows(ks, ts);
    MonthRowsSum(ks, ts);
    assert forall t :: t in ts ==> TransactionMonth(t) in ks;
    SumOverCovering(ks, ts, TransactionMonth);
  }

  /** No transactions, no rows. */
  lemma MonthlyExpensesEmpty()
    ensures MonthlyExpenses([]) == []
  {
  }

  /**
   * As written, the most recent month is the one dropped first: whenever
   * there are more than 12 distinct months, no row covers the latest one.
   */
  lemma LatestMonthDropped(ts: seq<Transaction>, latest: Transaction)
    requires |MonthsOf(ts)| > MonthLimit
    requires latest in ts
    requires forall t :: t in ts ==> !Before(TransactionMonth(latest), TransactionMonth(t))
    ensures TransactionMonth(latest) !in RowMonths(MonthlyExpenses(ts))
  {
    var ks := SortedMonths(ts);
    var m := TransactionMonth(latest);
    var rows := GroupedMonths(ts);
    RowMonthsPrefix(rows, MonthLimit);
    var last := ks[|ks| - 1];
    assert last in MonthsOf(ts);
    var u :| u in ts && TransactionMonth(u) == last;
    forall q | 0 <= q < MonthLimit ensures ks[q] != m {
      assert Before(ks[q], last);
    }
  }

  /**
   * The monthly pipeline as intended (the most recent 12 months, ascending):
   * group, sum, sort ascending and keep the LAST 12 rows.
   */
  function RecentMonthlyExpenses(ts: seq<Transaction>): (r: seq<MonthTotal>)
    ensures |r| == if |MonthsOf(ts)| <= MonthLimit then |MonthsOf(ts)| else MonthLimit
    ensures Ascending(RowMonths(r))
    ensures forall i :: 0 <= i < |r| ==>
      r[i].month in MonthsOf(ts) && r[i].amount == SumWhere(ts, TransactionMonth, r[i].month)
    ensures forall t :: t in ts ==>
      TransactionMonth(t) in RowMonths(r) ||
      (|r| == MonthLimit && forall i :: 0 <= i < |r| ==> Before(TransactionMonth(t), r[i].month))
  {
    var rows := GroupedMonths(ts);
    var d := if |rows| <= MonthLimit then 0 else |rows| - MonthLimit;
    LatestKept(ts, rows, d);
    rows[d..]
  }

  /**
   * Dropping the first `d` grouped rows keeps the latest months: the kept
   * rows are ascending occurring months with their sums, every other month
   * is earlier than all of them, and dropping none covers every month.
   */
  lemma LatestKept(ts: seq<Transaction>, rows: seq<MonthTotal>, d: nat)
    requires rows == GroupedMonths(ts) && d <= |rows|
    ensures Ascending(RowMonths(rows[d..]))
    ensures forall i :: 0 <= i < |rows| - d ==>
      rows[d..][i].month in MonthsOf(ts) && rows[d..][i].amount == SumWhere(ts, TransactionMonth, rows[d..][i].month)
    ensures forall t :: t in ts ==>
      TransactionMonth(t) in RowMonths(rows[d..]) ||
      forall i :: 0 <= i < |rows| - d ==> Before(TransactionMonth(t), rows[d..][i].month)
    ensures d == 0 ==> forall t :: t in ts ==> TransactionMonth(t) in RowMonths(rows[d..])
  {
    KeptMonthsAreSuffix(ts, rows, d);
    KeptSuffixRowsOccur(ts, rows, d);
    KeptOrAllLater(ts, rows, d);
  }

  /** The kept rows' months are the group keys after the first `d`. */
  lemma KeptMonthsAreSuffix(ts: seq<Transaction>, rows: seq<MonthTotal>, d: nat)
    requires rows == GroupedMonths(ts) && d <= |rows|
    ensures RowMonths(rows[d..]) == SortedMonths(ts)[d..]
    ensures Ascending(RowMonths(rows[d..]))
  {
    RowMonthsSuffix(rows, d);
  }

  /** Each kept row is an occurring month with that month's sum. */
  lemma KeptSuffixRowsOccur(ts: seq<Transaction>, rows: seq<MonthTotal>, d: nat)
    requires rows == GroupedMonths(ts) && d <= |rows|
    ensures forall i :: 0 <= i < |rows| - d ==>
      rows[d..][i].month in MonthsOf(ts) && rows[d..][i].amount == SumWhere(ts, TransactionMonth, rows[d..][i].month)
  {
    var ks := SortedMonths(ts);
    forall i | 0 <= i < |rows| - d
      ensures rows[d..][i].month in MonthsOf(ts) && rows[d..][i].amount == SumWhere(ts, TransactionMonth, rows[d..][i].month)
    {
      assert rows[d..][i] == rows[d + i];
      assert RowMonths(rows)[d + i] == rows[d + i].month;
      assert ks[d + i] in ks;
    }
  }

  /** A transaction's month is kept, or lies before every kept month; with no row dropped, it is kept. */
  lemma KeptOrAllLater(ts: seq<Transaction>, rows: seq<MonthTotal>, d: nat)
    requires rows == GroupedMonths(ts) && d <= |rows|
    ensures forall t :: t in ts ==>
      TransactionMonth(t) in RowMonths(rows[d..]) ||
      forall i :: 0 <= i < |rows| - d ==> Before(TransactionMonth(t), rows[d..][i].month)
    ensures d == 0 ==> forall t :: t in ts ==> TransactionMonth(t) in RowMonths(rows[d..])
  {
    var ks := SortedMonths(ts);
    KeptMonthsAreSuffix(ts, rows, d);
    assert ks[0..] == ks;
    forall t | t in ts
      ensures TransactionMonth(t) in ks[d..] || forall i :: d <= i < |ks| ==> Before(TransactionMonth(t), ks[i])
    {
      assert TransactionMonth(t) in MonthsOf(ts);
      KeptOrEarlier(ks, |ks| - d, TransactionMonth(t));
    }
    forall t, i | t in ts && 0 <= i < |rows| - d && TransactionMonth(t) !in ks[d..]
      ensures Before(TransactionMonth(t), rows[d..][i].month)
    {
      assert rows[d..][i].month == RowMonths(rows[d..])[i];
    }
  }

  /** The corrected pipeline always covers the most recent month. */
  lemma RecentMonthlyKeepsLatest(ts: seq<Transaction>, latest: Transaction)
    requires latest in ts
    requires forall t :: t in ts ==> !Before(TransactionMonth(latest), TransactionMonth(t))
    ensures TransactionMonth(latest) in RowMonths(RecentMonthlyExpenses(ts))
  {
    var r := RecentMonthlyExpenses(ts);
    if TransactionMonth(latest) !in RowMonths(r) {
      assert false;
    }
  }

  // ---------------------------------------------------------------------
  // Category totals: $group by category, $sum amount, $sort by amount descending
  // ---------------------------------------------------------------------

  /** One output row of the category pipeline. */
  datatype CategoryTotal = CategoryTotal(category: string, amount: real)

  /** The distinct categories the transactions use. */
  ghost function CategoriesOf(ts: seq<Transaction>): set<string>
  {
    set t | t in ts :: t.category
  }

  /** The $group keys: every distinct category once, in order of first use. */
  function CategoryKeys(ts: seq<Transaction>): (r: seq<string>)
    ensures Distinct(r)
    ensures forall c :: c in r <==> c in CategoriesOf(ts)
  {
    if ts == [] then []
    else
      var init := ts[..|ts| - 1];
      assert ts == init + [ts[|ts| - 1]];
      var r := CategoryKeys(init);
      if ts[|ts| - 1].category in r then r else r + [ts[|ts| - 1].category]
  }

  /** One row per category key, carrying that category's summed amount. */
  function CategoryRows(ks: seq<string>, ts: seq<Transaction>): (r: seq<CategoryTotal>)
    ensures |r| == |ks|
    ensures forall i :: 0 <= i < |ks| ==> r[i] == CategoryTotal(ks[i], SumWhere(ts, TransactionCategory, ks[i]))
  {
    if ks == [] then []
    else [CategoryTotal(ks[0], SumWhere(ts, TransactionCategory, ks[0]))] + CategoryRows(ks[1..], ts)
  }

  function CategoryAmount(row: CategoryTotal): real
  {
    row.amount
  }

  /** The categories a result covers. */
  function RowCategories(rows: seq<CategoryTotal>): (r: seq<string>)
    ensures |r| == |rows|
    ensures forall i :: 0 <= i < |rows| ==> r[i] == rows[i].category
  {
    if rows == [] then [] else [rows[0].category] + RowCategories(rows[1..])
  }

  lemma {:induction false} CategoryRowsSum(ks: seq<string>, ts: seq<Transaction>)
    ensures SumBy(CategoryRows(ks, ts), CategoryAmount) == SumOver(ks, ts, TransactionCategory)
  {
    if ks != [] {
      CategoryRowsSum(ks[1..], ts);
      assert CategoryRows(ks, ts)[1..] == CategoryRows(ks[1..], ts);
    }
  }

  /** Inserting a row adds its category and no other. */
  lemma {:induction false} InsertedCategories(x: CategoryTotal, s: seq<CategoryTotal>)
    ensures forall c :: c in RowCategories(Insert(x, s, CategoryAmount)) ==> c == x.category || c in RowCategories(s)
  {
    var r := Insert(x, s, CategoryAmount);
    if s == [] || CategoryAmount(x) >= CategoryAmount(s[0]) {
      assert RowCategories(r) == [x.category] + RowCategories(s);
    } else {
      InsertedCategories(x, s[1..]);
      assert RowCategories(r) == [s[0].category] + RowCategories(Insert(x, s[1..], CategoryAmount));
      assert RowCategories(s) == [s[0].category] + RowCategories(s[1..]);
    }
  }

  /** Inserting a row of a new category keeps the categories duplicate-free. */
  lemma {:induction false} InsertKeepsCategoriesDistinct(x: CategoryTotal, s: seq<CategoryTotal>)
    requires Distinct(RowCategories(s))
    requires x.category !in RowCategories(s)
    ensures Distinct(RowCategories(Insert(x, s, CategoryAmount)))
  {
    if s != [] && CategoryAmount(x) < CategoryAmount(s[0]) {
      var rest := Insert(x, s[1..], CategoryAmount);
      var cs := RowCategories(s);
      assert cs == [s[0].category] + RowCategories(s[1..]);
      DistinctTail(cs);
      assert cs[1..] == RowCategories(s[1..]);
      InsertKeepsCategoriesDistinct(x, s[1..]);
      InsertedCategories(x, s[1..]);
      assert x.category != s[0].category by {
        assert cs[0] == s[0].category;
      }
      assert RowCategories(Insert(x, s, CategoryAmount)) == [s[0].category] + RowCategories(rest);
      DistinctCons(s[0].category, RowCategories(rest));
    } else {
      assert RowCategories(Insert(x, s, CategoryAmount)) == [x.category] + RowCategories(s);
      DistinctCons(x.category, RowCategories(s));
    }
  }

  /** Sorting brings in no new category. */
  lemma {:induction false} SortedCategories(s: seq<CategoryTotal>)
    ensures forall c :: c in RowCategories(SortDescending(s, CategoryAmount)) ==> c in RowCategories(s)
  {
    if s != [] {
      var rest := SortDescending(s[1..], CategoryAmount);
      SortedCategories(s[1..]);
      InsertedCategories(s[0], rest);
      assert RowCategories(s) == [s[0].category] + RowCategories(s[1..]);
    }
  }

  /** Sorting keeps the categories duplicate-free. */
  lemma {:induction false} SortKeepsCategoriesDistinct(s: seq<CategoryTotal>)
    requires Distinct(RowCategories(s))
    ensures Distinct(RowCategories(SortDescending(s, CategoryAmount)))
  {
    if s != [] {
      var cs := RowCategories(s);
      assert cs == [s[0].category] + RowCategories(s[1..]);
      DistinctTail(cs);
      assert cs[1..] == RowCategories(s[1..]);
      SortKeepsCategoriesDistinct(s[1..]);
      SortedCategories(s[1..]);
      InsertKeepsCategoriesDistinct(s[0], SortDescending(s[1..], CategoryAmount));
    }
  }

  /**
   * The category pipeline: one row per distinct category with its summed
   * amount, largest first. Equal amounts keep the order of first use
   * (an order the store leaves open).
   */
  function CategoryExpenses(ts: seq<Transaction>): (r: seq<CategoryTotal>)
    ensures |r| == |CategoriesOf(ts)|
    ensures Distinct(RowCategories(r))
    ensures forall c :: c in RowCategories(r) <==> c in CategoriesOf(ts)
    ensures forall i :: 0 <= i < |r| ==> r[i].amount == SumWhere(ts, TransactionCategory, r[i].category)
    ensures NonIncreasing(r, CategoryAmount)
  {
    var r := SortDescending(CategoryRows(CategoryKeys(ts), ts), CategoryAmount);
    CategoryKeyCount(ts);
    SortedRowsDistinct(ts);
    SortedRowsAreGroups(ts, r);
    SortedRowsOccur(ts, r);
    SortedRowsCoverKeys(ts, r);
    r
  }

  /** There are as many keys as distinct categories. */
  lemma CategoryKeyCount(ts: seq<Transaction>)
    ensures |CategoryKeys(ts)| == |CategoriesOf(ts)|
  {
    var ks := CategoryKeys(ts);
    DistinctCardinality(ks);
    assert (set x | x in ks) == CategoriesOf(ts);
  }

  /** The sorted rows name each category at most once. */
  lemma SortedRowsDistinct(ts: seq<Transaction>)
    ensures Distinct(RowCategories(SortDescending(CategoryRows(CategoryKeys(ts), ts), CategoryAmount)))
  {
    var ks := CategoryKeys(ts);
    assert RowCategories(CategoryRows(ks, ts)) == ks;
    SortKeepsCategoriesDistinct(CategoryRows(ks, ts));
  }

  /** Each sorted row is a key with its group's sum, so every category it names occurs. */
  lemma SortedRowsAreGroups(ts: seq<Transaction>, r: seq<CategoryTotal>)
    requires r == SortDescending(CategoryRows(CategoryKeys(ts), ts), CategoryAmount)
    ensures forall i :: 0 <= i < |r| ==> r[i].amount == SumWhere(ts, TransactionCategory, r[i].category)
  {
    forall i | 0 <= i < |r| ensures r[i].amount == SumWhere(ts, TransactionCategory, r[i].category) {
      SortedRowIsGroup(ts, r, i);
    }
  }

  /** Every category the sorted rows name occurs in the transactions. */
  lemma SortedRowsOccur(ts: seq<Transaction>, r: seq<CategoryTotal>)
    requires r == SortDescending(CategoryRows(CategoryKeys(ts), ts), CategoryAmount)
    ensures forall c :: c in RowCategories(r) ==> c in CategoriesOf(ts)
  {
    forall c | c in RowCategories(r) ensures c in CategoriesOf(ts) {
      var i :| 0 <= i < |r| && RowCategories(r)[i] == c;
      SortedRowIsGroup(ts, r, i);
    }
  }

  /** One sorted row is one of the unsorted rows: a key with its group's sum. */
  lemma SortedRowIsGroup(ts: seq<Transaction>, r: seq<CategoryTotal>, i: nat)
    requires r == SortDescending(CategoryRows(CategoryKeys(ts), ts), CategoryAmount)
    requires i < |r|
    ensures r[i].category in CategoriesOf(ts)
    ensures r[i].amount == SumWhere(ts, TransactionCategory, r[i].category)
  {
    var ks := CategoryKeys(ts);
    var rows := CategoryRows(ks, ts);
    assert r[i] in multiset(rows);
    var j :| 0 <= j < |rows| && rows[j] == r[i];
    assert ks[j] in ks;
  }

  /** Every key has a sorted row. */
  lemma SortedRowsCoverKeys(ts: seq<Transaction>, r: seq<CategoryTotal>)
    requires r == SortDescending(CategoryRows(CategoryKeys(ts), ts), CategoryAmount)
    ensures forall c :: c in CategoriesOf(ts) ==> c in RowCategories(r)
  {
    var ks := CategoryKeys(ts);
    var rows := CategoryRows(ks, ts);
    forall c | c in CategoriesOf(ts) ensures c in RowCategories(r) {
      var i :| 0 <= i < |ks| && ks[i] == c;
      assert rows[i] in multiset(r);
      var j :| 0 <= j < |r| && r[j] == rows[i];
      assert RowCategories(r)[j] == c;
    }
  }

  /** The category rows add up to the total of all amounts. */
  lemma CategoryExpensesConserveTotal(ts: seq<Transaction>)
    ensures SumBy(CategoryExpenses(ts), CategoryAmount) == Total(ts)
  {
    var ks := CategoryKeys(ts);
    CategoryRowsSum(ks, ts);
    assert forall t :: t in ts ==> TransactionCategory(t) in ks;
    SumOverCovering(ks, ts, TransactionCategory);
  }

  /** Two January 2024 purchases: groceries of 45.50, then an electricity bill of 120.00. */
  function JanuaryPurchases(): seq<Transaction>
  {
    [Transaction(None, 45.5, Date(2024, 1, 1705276800000), "Grocery shopping at Walmart", "Groceries"),
     Transaction(None, 120.0, Date(2024, 1, 1705363200000), "Monthly electricity bill", "Bills & Utilities")]
  }

  /** The two January purchases make one monthly row of 165.50. */
  lemma JanuaryMonthly()
    ensures MonthlyExpenses(JanuaryPurchases()) == [MonthTotal(YearMonth(2024, 1), 165.5)]
  {
    var ts := JanuaryPurchases();
    var jan := YearMonth(2024, 1);
    assert ts[..1] == [ts[0]];
    assert [ts[0]][..0] == [];
    assert SortedMonths([ts[0]]) == [jan];
    assert SortedMonths(ts) == [jan];
    assert SumWhere([ts[0]], TransactionMonth, jan) == 45.5;
    assert SumWhere(ts, TransactionMonth, jan) == 165.5;
    assert GroupedMonths(ts) == [MonthTotal(jan, 165.5)];
  }

  /** The two January purchases use two categories, groceries first. */
  lemma JanuaryCategoryKeys()
    ensures CategoryKeys(JanuaryPurchases()) == ["Groceries", "Bills & Utilities"]
  {
    var ts := JanuaryPurchases();
    assert ts[..1] == [ts[0]];
    assert [ts[0]][..0] == [];
    assert CategoryKeys([ts[0]]) == ["Groceries"];
    assert "Groceries"[0] != "Bills & Utilities"[0];
  }

  /** The unsorted category rows of the two January purchases. */
  lemma JanuaryCategoryRows()
    ensures CategoryRows(CategoryKeys(JanuaryPurchases()), JanuaryPurchases())
      == [CategoryTotal("Groceries", 45.5), CategoryTotal("Bills & Utilities", 120.0)]
  {
    var ts := JanuaryPurchases();
    JanuaryCategoryKeys();
    assert "Groceries"[0] != "Bills & Utilities"[0];
    assert ts[..1] == [ts[0]];
    assert [ts[0]][..0] == [];
    assert SumWhere([ts[0]], TransactionCategory, "Groceries") == 45.5;
    assert SumWhere([ts[0]], TransactionCategory, "Bills & Utilities") == 0.0;
    assert SumWhere(ts, TransactionCategory, "Groceries") == 45.5;
    assert SumWhere(ts, TransactionCategory, "Bills & Utilities") == 120.0;
  }

  /** The two January purchases make two category rows, the larger one first. */
  lemma JanuaryCategories()
    ensures CategoryExpenses(JanuaryPurchases()) == [CategoryTotal("Bills & Utilities", 120.0), CategoryTotal("Groceries", 45.5)]
  {
    var groceries := CategoryTotal("Groceries", 45.5);
    var bills := CategoryTotal("Bills & Utilities", 120.0);
    var rows := [groceries, bills];
    JanuaryCategoryRows();
    assert rows[1..] == [bills];
    assert SortDescending([bills], CategoryAmount) == [bills];
    assert Insert(groceries, [bills], CategoryAmount) == [bills, groceries];
    assert SortDescending(rows, CategoryAmount) == [bills, groceries];
  }
}
