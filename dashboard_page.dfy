/**
 * The dashboard's statistics cards: all-time spending, this month's
 * spending, this month's spending against a fixed 3000 budget, and the
 * number of transactions.
 */
module DashboardPage {
  import opened Domain
  import opened Sums
  import BudgetsPage

  /** The fixed monthly budget the usage figure is measured against. */
  const AssumedBudget: real := 3000.0

  /** The figures shown on the statistics cards. */
  datatype Stats = Stats(totalExpenses: real, monthlyExpenses: real, budgetUsage: real, transactionCount: nat)

  /** This month's spending as a percentage of the fixed budget; 0 unless something was spent. Not capped. */
  function BudgetUsage(monthly: real): (u: real)
    ensures u >= 0.0
    ensures monthly <= 0.0 ==> u == 0.0
    ensures monthly > 0.0 ==> u == monthly / 30.0
    ensures u > 100.0 <==> monthly > AssumedBudget
  {
    if monthly > 0.0 then monthly / AssumedBudget * 100.0 else 0.0
  }

  /** The cards' figures for the transaction list `ts`, with `now` the current month. */
  function DashboardStats(ts: seq<Transaction>, now: YearMonth): (r: Stats)
    ensures r.totalExpenses == Total(ts)
    ensures r.monthlyExpenses == Total(CurrentMonth(ts, now))
    ensures r.budgetUsage == BudgetUsage(r.monthlyExpenses)
    ensures r.transactionCount == |ts|
  {
    var monthly := Total(CurrentMonth(ts, now));
    Stats(Total(ts), monthly, BudgetUsage(monthly), |ts|)
  }

  /** No transactions: every figure is 0. */
  lemma EmptyDashboard(now: YearMonth)
    ensures DashboardStats([], now) == Stats(0.0, 0.0, 0.0, 0)
  {
  }

  /** The usage figure is not capped: 4500 spent reads as 150%. */
  lemma UsageNotCapped()
    ensures BudgetUsage(4500.0) == 150.0
  {
  }

  /** With no negative amounts, this month's spending lies between 0 and the all-time total. */
  lemma {:induction false} MonthlyWithinTotal(ts: seq<Transaction>, now: YearMonth)
    requires forall i :: 0 <= i < |ts| ==> ts[i].amount >= 0.0
    ensures 0.0 <= Total(CurrentMonth(ts, now)) <= Total(ts)
  {
    if ts != [] {
      var init, t := ts[..|ts| - 1], ts[|ts| - 1];
      MonthlyWithinTotal(init, now);
      if InMonth(t, now) {
        TotalAppend(CurrentMonth(init, now), t);
      }
    }
  }

  /** This month's spending is the amount of the current month's bucket in the monthly grouping. */
  lemma {:induction false} MonthlyIsMonthBucket(ts: seq<Transaction>, now: YearMonth)
    ensures Total(CurrentMonth(ts, now)) == SumWhere(ts, TransactionMonth, now)
  {
    if ts != [] {
      var init, t := ts[..|ts| - 1], ts[|ts| - 1];
      MonthlyIsMonthBucket(init, now);
      assert InMonth(t, now) <==> TransactionMonth(t) == now;
      if InMonth(t, now) {
        TotalAppend(CurrentMonth(init, now), t);
      }
    }
  }

  /** The dashboard's monthly figure agrees with the budgets page: it is the sum of the per-category spending map. */
  lemma MonthlyIsSpendingTotal(ts: seq<Transaction>, now: YearMonth, spending: map<string, real>)
    requires BudgetsPage.IsCategorySpending(spending, ts, now)
    ensures DashboardStats(ts, now).monthlyExpenses == BudgetsPage.SumValues(spending)
  {
    BudgetsPage.SpendingSumsToMonthTotal(spending, ts, now);
  }
}
