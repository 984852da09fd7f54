/**
 * The budgets table: how much of each budget this month's spending has used,
 * and the two-click delete confirmation of its rows.
 */
module BudgetsTable {
  import opened Wrappers
  import opened Domain
  import opened Schemas
  import opened DeleteConfirm
  import opened BudgetsPage

  /** A budget's standing: spent so far, percentage used (capped at 100), what is left, and whether the limit is passed. */
  datatype BudgetStatus = BudgetStatus(spent: real, percentage: real, remaining: real, isOverBudget: bool)

  /** Spending as a percentage of the limit, without the cap. */
  function RawPercentage(spent: real, limit: real): real
    requires limit > 0.0
  {
    spent / limit * 100.0
  }

  /** The standing of budget `b` against the per-category spending map. */
  function GetBudgetStatus(b: Budget, spending: map<string, real>): (r: BudgetStatus)
    requires b.monthlyLimit > 0.0
    ensures r.spent == SpendingOf(spending, b.category)
    ensures r.remaining == b.monthlyLimit - r.spent
    ensures r.isOverBudget <==> r.spent > b.monthlyLimit
    ensures r.remaining < 0.0 <==> r.isOverBudget
    ensures r.percentage <= 100.0
    ensures !r.isOverBudget ==> r.percentage == RawPercentage(r.spent, b.monthlyLimit)
    ensures r.isOverBudget ==> r.percentage == 100.0
  {
    var spent := SpendingOf(spending, b.category);
    var percentage := RawPercentage(spent, b.monthlyLimit);
    CapOnlyWhenOver(spent, b.monthlyLimit);
    BudgetStatus(spent, if percentage < 100.0 then percentage else 100.0, b.monthlyLimit - spent, spent > b.monthlyLimit)
  }

  /** The raw percentage passes 100 exactly when the budget is over its limit, so the cap only hides overspending. */
  lemma CapOnlyWhenOver(spent: real, limit: real)
    requires limit > 0.0
    ensures RawPercentage(spent, limit) > 100.0 <==> spent > limit
    ensures RawPercentage(spent, limit) == 100.0 <==> spent == limit
  {
    var q := spent / limit;
    assert spent == q * limit;
    assert spent - limit == (q - 1.0) * limit;
    if q > 1.0 {
      assert (q - 1.0) * limit > 0.0;
    } else if q < 1.0 {
      assert (1.0 - q) * limit > 0.0;
    }
  }

  /** Spending exactly the limit uses 100% and is not over budget. */
  lemma AtLimitNotOver(b: Budget, spending: map<string, real>)
    requires b.monthlyLimit > 0.0
    requires SpendingOf(spending, b.category) == b.monthlyLimit
    ensures GetBudgetStatus(b, spending) == BudgetStatus(b.monthlyLimit, 100.0, 0.0, false)
  {
  }

  /** A category with no spending this month reads as nothing spent, nothing used. */
  lemma NoSpendingStatus(b: Budget, spending: map<string, real>)
    requires b.monthlyLimit > 0.0 && b.category !in spending
    ensures GetBudgetStatus(b, spending) == BudgetStatus(0.0, 0.0, b.monthlyLimit, false)
  {
  }

  /** A limit of 100 with 120 spent: 120 spent, 20 over, flagged, shown at 100% of a raw 120%. */
  lemma OverspentExample()
    ensures GetBudgetStatus(Budget(None, "Rent", 100.0), map["Rent" := 120.0]) == BudgetStatus(120.0, 100.0, -20.0, true)
    ensures RawPercentage(120.0, 100.0) == 120.0
  {
  }

  /** Every budget that passed validation has a positive limit, so its status is defined. */
  lemma ParsedBudgetHasStatus(raw: RawBudget)
    requires ParseBudget(raw).Success?
    ensures ParseBudget(raw).value.monthlyLimit > 0.0
  {
  }

  /** The table's delete confirmation: the row armed for deletion, if any. */
  class BudgetsTable {
    var deleteConfirm: Option<string>

    constructor ()
      ensures deleteConfirm == None
    {
      deleteConfirm := None;
    }

    /** A click on row `id`'s delete button; `deleted` is the id handed to the page's delete handler, if any. */
    method HandleDelete(id: string) returns (deleted: Option<string>)
      modifies this
      ensures Click(deleteConfirm, deleted) == OnDeleteClick(old(deleteConfirm), id)
    {
      if deleteConfirm == Some(id) {
        deleted := Some(id);
        deleteConfirm := None;
      } else {
        deleted := None;
        deleteConfirm := Some(id);
      }
    }
  }
}
