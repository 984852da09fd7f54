/**
 * The budget-vs-actual chart's data: one bar pair per budget, its limit
 * beside this month's spending in its category.
 */
module BudgetVsActualChart {
  import opened Domain
  import opened BudgetsPage
  import BudgetsTable

  /** One chart entry: the category, its limit and what was spent in it this month. */
  datatype ChartRow = ChartRow(category: string, budget: real, actual: real)

  /** One entry per budget, in budget order. */
  function ChartData(budgets: seq<Budget>, spending: map<string, real>): (r: seq<ChartRow>)
    ensures |r| == |budgets|
    ensures forall i :: 0 <= i < |budgets| ==>
      && r[i].category == budgets[i].category
      && r[i].budget == budgets[i].monthlyLimit
      && r[i].actual == SpendingOf(spending, budgets[i].category)
  {
    if budgets == [] then []
    else
      var b := budgets[0];
      [ChartRow(b.category, b.monthlyLimit, SpendingOf(spending, b.category))] + ChartData(budgets[1..], spending)
  }

  /** The chart and the budgets table agree: each bar's actual spending is the table's spent figure for that budget. */
  lemma ChartMatchesTable(budgets: seq<Budget>, spending: map<string, real>, i: nat)
    requires i < |budgets| && budgets[i].monthlyLimit > 0.0
    ensures ChartData(budgets, spending)[i].actual == BudgetsTable.GetBudgetStatus(budgets[i], spending).spent
    ensures ChartData(budgets, spending)[i].budget - ChartData(budgets, spending)[i].actual
      == BudgetsTable.GetBudgetStatus(budgets[i], spending).remaining
  {
  }

  /** Each bar's actual spending is the sum of this month's amounts in the budget's category. */
  lemma ChartActualIsMonthSpending(budgets: seq<Budget>, spending: map<string, real>, ts: seq<Transaction>, now: YearMonth, i: nat)
    requires IsCategorySpending(spending, ts, now)
    requires i < |budgets|
    ensures ChartData(budgets, spending)[i].actual == Sums.SumWhere(CurrentMonth(ts, now), TransactionCategory, budgets[i].category)
  {
    SpendingOfAgrees(spending, ts, now, budgets[i].category);
  }
}
