/**
 * The budget form: which category labels it offers, and the values it
 * starts from.
 */
module BudgetForm {
  import opened Wrappers
  import opened Domain
  import opened Sequences
  import opened Schemas
  import BudgetsPage

  /** The labels of `cats` that are not taken, or that are the edited budget's own, in list order. */
  function Offered(cats: seq<string>, existing: seq<string>, own: Option<string>): (r: seq<string>)
    ensures Subsequence(r, cats)
    ensures forall c :: c in r <==> c in cats && (c !in existing || own == Some(c))
  {
    if cats == [] then []
    else
      var rest := Offered(cats[1..], existing, own);
      assert forall c :: c in cats <==> c == cats[0] || c in cats[1..];
      if cats[0] !in existing || own == Some(cats[0]) then
        assert ([cats[0]] + rest)[1..] == rest;
        [cats[0]] + rest
      else rest
  }

  /**
   * The category list filtered to the labels no budget uses yet, plus the
   * edited budget's own label; the order of the category list is kept.
   */
  function AvailableCategories(existing: seq<string>, editing: Option<Budget>): (r: seq<string>)
    ensures Subsequence(r, Categories)
    ensures forall c :: c in r <==> c in Categories && (c !in existing || (editing.Some? && editing.value.category == c))
  {
    Offered(Categories, existing, if editing.Some? then Some(editing.value.category) else None)
  }

  /** Nothing is excluded when nothing is taken. */
  lemma {:induction false} OfferedAllWhenNoneTaken(cats: seq<string>, own: Option<string>)
    ensures Offered(cats, [], own) == cats
  {
    if cats != [] {
      OfferedAllWhenNoneTaken(cats[1..], own);
    }
  }

  /** With no budgets yet, the form offers all 11 labels in order. */
  lemma AllCategoriesWhenNoBudgets()
    ensures AvailableCategories([], None) == Categories
    ensures |AvailableCategories([], None)| == 11
  {
    OfferedAllWhenNoneTaken(Categories, None);
  }

  /**
   * On the budgets page, the form never offers the category of another
   * budget: a label is offered only if no budget uses it, or it is the
   * edited budget's own.
   */
  lemma NoSecondBudgetForACategory(budgets: seq<Budget>, editing: Option<Budget>, i: nat)
    requires i < |budgets|
    requires editing.None? || editing.value.category != budgets[i].category
    ensures budgets[i].category !in AvailableCategories(BudgetsPage.ExistingCategories(budgets), editing)
  {
    assert BudgetsPage.ExistingCategories(budgets)[i] == budgets[i].category;
  }

  /** The form's starting category and limit. */
  datatype FormValues = FormValues(category: string, monthlyLimit: real)

  /**
   * The starting values: an edited budget's own category and limit, each
   * replaced by the empty label or 0 when it is empty or zero (the `||`
   * fallback); a new budget starts from the empty label and 0.
   */
  function FormDefaults(editing: Option<Budget>): (r: FormValues)
    ensures editing.None? ==> r == FormValues("", 0.0)
    ensures editing.Some? ==> r == FormValues(editing.value.category, editing.value.monthlyLimit)
  {
    match editing
    case None => FormValues("", 0.0)
    case Some(b) =>
      FormValues(if b.category != "" then b.category else "", if b.monthlyLimit != 0.0 then b.monthlyLimit else 0.0)
  }
}
