/**
 * The budgets page: the current month's spending per category, and the page
 * state (the budget list, whether the form is open, the budget being edited)
 * as the handlers update it after the server confirms a change.
 */
module BudgetsPage {
  import opened Wrappers
  import opened Domain
  import opened Sequences
  import opened Sums
  import opened ListEdits
  import DbOperations

  /**
   * `spending` is the current month's spending per category: a key for each
   * category with a transaction this month, and none for any other category;
   * each value the sum of that category's amounts this month.
   */
  ghost predicate IsCategorySpending(spending: map<string, real>, ts: seq<Transaction>, now: YearMonth)
  {
    SumsByCategory(spending, CurrentMonth(ts, now))
  }

  /** `spending` has a key for each category of `month` and no other, holding that category's sum. */
  ghost predicate SumsByCategory(spending: map<string, real>, month: seq<Transaction>)
  {
    && spending.Keys == (set t | t in month :: t.category)
    && forall c :: c in spending ==> spending[c] == SumWhere(month, TransactionCategory, c)
  }

  /** Adding one transaction's amount under its category keeps the map a per-category sum. */
  lemma AccumulateStep(spending: map<string, real>, month: seq<Transaction>, t: Transaction)
    requires SumsByCategory(spending, month)
    ensures SumsByCategory(spending[t.category := SpendingOf(spending, t.category) + t.amount], month + [t])
  {
    var next := spending[t.category := SpendingOf(spending, t.category) + t.amount];
    assert (set u | u in month + [t] :: u.category) == (set u | u in month :: u.category) + {t.category};
    forall c | c in next ensures next[c] == SumWhere(month + [t], TransactionCategory, c) {
      SumWhereAppend(month, t, TransactionCategory, c);
      if c !in spending {
        SumWhereAbsent(month, c);
      }
    }
  }

  /** The spending recorded for a category, 0 when it has no entry. */
  function SpendingOf(spending: map<string, real>, category: string): real
  {
    if category in spending then spending[category] else 0.0
  }

  /** The per-category spending of the current month, accumulated in one pass. */
  method CategorySpending(ts: seq<Transaction>, now: YearMonth) returns (spending: map<string, real>)
    ensures IsCategorySpending(spending, ts, now)
  {
    spending := map[];
    for i := 0 to |ts|
      invariant IsCategorySpending(spending, ts[..i], now)
    {
      var t := ts[i];
      assert ts[..i + 1][..i] == ts[..i];
      ghost var before := CurrentMonth(ts[..i], now);
      assert CurrentMonth(ts[..i + 1], now) == if InMonth(t, now) then before + [t] else before;
      if InMonth(t, now) {
        AccumulateStep(spending, before, t);
        spending := spending[t.category := SpendingOf(spending, t.category) + t.amount];
      }
    }
    assert ts[..|ts|] == ts;
  }

  /** Lookups agree with the definition: a category without spending this month reads as 0. */
  lemma SpendingOfAgrees(spending: map<string, real>, ts: seq<Transaction>, now: YearMonth, c: string)
    requires IsCategorySpending(spending, ts, now)
    ensures SpendingOf(spending, c) == SumWhere(CurrentMonth(ts, now), TransactionCategory, c)
  {
    if c !in spending {
      SumWhereAbsent(CurrentMonth(ts, now), c);
    }
  }

  lemma {:induction false} SumWhereAbsent(ts: seq<Transaction>, c: string)
    requires forall t :: t in ts ==> t.category != c
    ensures SumWhere(ts, TransactionCategory, c) == 0.0
  {
    if ts != [] {
      assert ts[|ts| - 1] in ts;
      SumWhereAbsent(ts[..|ts| - 1], c);
    }
  }

  // ---------------------------------------------------------------------
  // The values of the spending map add up to the month's total
  // ---------------------------------------------------------------------

  /** The sum of a map's values. */
  ghost function SumValues(m: map<string, real>): real
    decreases |m|
  {
    if m == map[] then 0.0
    else
      var k :| k in m;
      m[k] + SumValues(m - {k})
  }

  /** The values of `m` at the keys `ks`, added up. */
  function SumAt(m: map<string, real>, ks: seq<string>): real
    requires forall i :: 0 <= i < |ks| ==> ks[i] in m
  {
    if ks == [] then 0.0 else m[ks[0]] + SumAt(m, ks[1..])
  }

  /** Taking one key out of the list takes its value out of the sum. */
  lemma {:induction false} SumAtRemove(m: map<string, real>, ks: seq<string>, p: nat)
    requires forall i :: 0 <= i < |ks| ==> ks[i] in m
    requires p < |ks|
    ensures SumAt(m, ks) == m[ks[p]] + SumAt(m, ks[..p] + ks[p + 1..])
  {
    if p > 0 {
      SumAtRemove(m, ks[1..], p - 1);
      assert ks[1..][..p - 1] + ks[1..][p..] == (ks[..p] + ks[p + 1..])[1..];
    } else {
      assert ks[..p] + ks[p + 1..] == ks[1..];
    }
  }

  /** The sum only reads the listed keys. */
  lemma {:induction false} SumAtOtherMap(m: map<string, real>, m': map<string, real>, ks: seq<string>)
    requires forall i :: 0 <= i < |ks| ==> ks[i] in m && ks[i] in m' && m[ks[i]] == m'[ks[i]]
    ensures SumAt(m, ks) == SumAt(m', ks)
  {
    if ks != [] {
      SumAtOtherMap(m, m', ks[1..]);
    }
  }

  /** Dropping the element at `p` from a duplicate-free list drops exactly that value. */
  lemma RemoveAt(ks: seq<string>, p: nat)
    requires Distinct(ks) && p < |ks|
    ensures Distinct(ks[..p] + ks[p + 1..])
    ensures forall x :: x in ks[..p] + ks[p + 1..] <==> x in ks && x != ks[p]
  {
    var rest := ks[..p] + ks[p + 1..];
    assert forall i :: 0 <= i < |rest| ==> rest[i] == (if i < p then ks[i] else ks[i + 1]);
    forall x | x in ks && x != ks[p] ensures x in rest {
      var j :| 0 <= j < |ks| && ks[j] == x;
      assert rest[if j < p then j else j - 1] == x;
    }
  }

  /** An empty map has no keys to list. */
  lemma NoKeysListed(m: map<string, real>, ks: seq<string>)
    requires Distinct(ks)
    requires forall k :: k in m <==> k in ks
    requires m == map[]
    ensures ks == []
  {
    DistinctCardinality(ks);
    assert (set x | x in ks) == m.Keys;
  }

  /** The keys listed for a map with one key taken out are keys of both maps, with the same values. */
  lemma ListedInSmaller(m: map<string, real>, k: string, rest: seq<string>)
    requires forall x :: x in m - {k} <==> x in rest
    ensures forall i :: 0 <= i < |rest| ==> rest[i] in m - {k} && rest[i] in m && (m - {k})[rest[i]] == m[rest[i]]
  {
    forall i | 0 <= i < |rest| ensures rest[i] in m - {k} {
      assert rest[i] in rest;
    }
  }

  /** Summing a map's values in any duplicate-free order of its keys gives the same total. */
  lemma {:induction false} SumValuesInOrder(m: map<string, real>, ks: seq<string>)
    requires Distinct(ks)
    requires forall k :: k in m <==> k in ks
    ensures SumValues(m) == SumAt(m, ks)
    decreases |m|
  {
    if m == map[] {
      NoKeysListed(m, ks);
    } else {
      var k :| k in m && SumValues(m) == m[k] + SumValues(m - {k});
      var p :| 0 <= p < |ks| && ks[p] == k;
      var rest := ks[..p] + ks[p + 1..];
      var smaller := m - {k};
      RemoveAt(ks, p);
      assert forall x :: x in smaller <==> x in rest;
      SumValuesInOrder(smaller, rest);
      ListedInSmaller(m, k, rest);
      SumAtOtherMap(smaller, m, rest);
      SumAtRemove(m, ks, p);
    }
  }

  /** The spending of a list of categories, read from the map or summed directly, is the same. */
  lemma {:induction false} SumAtIsSumOver(spending: map<string, real>, ks: seq<string>, ts: seq<Transaction>)
    requires forall i :: 0 <= i < |ks| ==> ks[i] in spending && spending[ks[i]] == SumWhere(ts, TransactionCategory, ks[i])
    ensures SumAt(spending, ks) == SumOver(ks, ts, TransactionCategory)
  {
    if ks != [] {
      SumAtIsSumOver(spending, ks[1..], ts);
    }
  }

  /** The spending map's values add up to the total spent in the current month. */
  lemma SpendingSumsToMonthTotal(spending: map<string, real>, ts: seq<Transaction>, now: YearMonth)
    requires IsCategorySpending(spending, ts, now)
    ensures SumValues(spending) == Total(CurrentMonth(ts, now))
  {
    var month := CurrentMonth(ts, now);
    var ks := DbOperations.CategoryKeys(month);
    assert forall c :: c in spending <==> c in ks;
    SumValuesInOrder(spending, ks);
    SumAtIsSumOver(spending, ks, month);
    assert forall t :: t in month ==> TransactionCategory(t) in ks;
    SumOverCovering(ks, month, TransactionCategory);
  }

  // ---------------------------------------------------------------------
  // Page state
  // ---------------------------------------------------------------------

  function BudgetId(b: Budget): Option<string>
  {
    b.id
  }

  /** The categories already budgeted, one per budget, in list order. */
  function ExistingCategories(budgets: seq<Budget>): (r: seq<string>)
    ensures |r| == |budgets|
    ensures forall i :: 0 <= i < |budgets| ==> r[i] == budgets[i].category
  {
    if budgets == [] then [] else [budgets[0].category] + ExistingCategories(budgets[1..])
  }

  /** The page's state: the budget list, the form's visibility, the budget being edited. */
  class BudgetsPage {
    var budgets: seq<Budget>
    var showForm: bool
    var editing: Option<Budget>

    constructor ()
      ensures budgets == [] && !showForm && editing == None
    {
      budgets := [];
      showForm := false;
      editing := None;
    }

    /** A created budget goes to the end of the list and the form closes. */
    method AddBudget(created: Budget)
      modifies this
      ensures budgets == old(budgets) + [created]
      ensures budgets[..|old(budgets)|] == old(budgets)
      ensures !showForm && editing == old(editing)
    {
      budgets := budgets + [created];
      showForm := false;
    }

    /**
     * The server's answer to an edit. `edited` is the budget being edited
     * when the form was submitted, which the handler keeps across the
     * request: the entries carrying its id are replaced by `updated`, then
     * the edit is cleared and the form closed, whatever the user did while
     * the request was in flight. Nothing happens when no budget was being
     * edited at submission.
     */
    method EditBudget(edited: Option<Budget>, updated: Budget)
      modifies this
      ensures edited.None? ==> budgets == old(budgets) && showForm == old(showForm) && editing == old(editing)
      ensures edited.Some? ==>
        && budgets == ReplaceById(old(budgets), BudgetId, edited.value.id, updated)
        && !showForm && editing == None
    {
      if edited.None? {
        return;
      }
      budgets := ReplaceById(budgets, BudgetId, edited.value.id, updated);
      editing := None;
      showForm := false;
    }

    /** A deleted budget leaves the list; the rest keep their order. */
    method DeleteBudget(id: string)
      modifies this
      ensures budgets == RemoveById(old(budgets), BudgetId, id)
      ensures showForm == old(showForm) && editing == old(editing)
    {
      budgets := RemoveById(budgets, BudgetId, id);
    }

    /** Open the form on an existing budget. */
    method HandleEdit(b: Budget)
      modifies this
      ensures editing == Some(b) && showForm && budgets == old(budgets)
    {
      editing := Some(b);
      showForm := true;
    }

    /** Open the form for a new budget. */
    method HandleAdd()
      modifies this
      ensures editing == None && showForm && budgets == old(budgets)
    {
      editing := None;
      showForm := true;
    }

    /** Close the form and forget the edit. */
    method HandleCloseForm()
      modifies this
      ensures !showForm && editing == None && budgets == old(budgets)
    {
      showForm := false;
      editing := None;
    }
  }
}
