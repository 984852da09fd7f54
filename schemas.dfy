/**
 * The field constraints a transaction or a budget must meet before it is
 * stored, and the fixed list of category labels. A raw record is the
 * untyped input as decoded from a request body; validation inspects every
 * field and reports every failing one, in the order the schema lists them.
 */
module Schemas {
  import opened Wrappers
  import opened Domain
  import opened Sequences

  /** The category labels offered by the forms, in display order. */
  const Categories: seq<string> := [
    "Food & Dining",
    "Transportation",
    "Shopping",
    "Entertainment",
    "Bills & Utilities",
    "Healthcare",
    "Education",
    "Travel",
    "Groceries",
    "Rent",
    "Other"
  ]

  /** The smallest accepted amount and monthly limit. */
  const MinAmount: real := 0.01
  /** The longest accepted description. */
  const MaxDescription: nat := 200

  const AmountTooSmall := "Amount must be greater than 0"
  const DescriptionRequired := "Description is required"
  const DescriptionTooLong := "Description must be less than 200 characters"
  const CategoryRequired := "Category is required"
  const LimitTooSmall := "Monthly limit must be greater than 0"

  /** An untyped input value. */
  datatype Value = Absent | Number(n: real) | Text(s: string) | When(d: Date) | Other

  datatype Field = IdField | AmountField | DateField | DescriptionField | CategoryField | MonthlyLimitField

  /** Why a field was refused: missing, of the wrong type, or outside a bound (with the schema's message). */
  datatype Problem = Required | InvalidType | TooSmall(message: string) | TooBig(message: string)

  datatype Issue = Issue(field: Field, problem: Problem)

  datatype RawTransaction = RawTransaction(id: Value, amount: Value, date: Value, description: Value, category: Value)

  datatype RawBudget = RawBudget(id: Value, category: Value, monthlyLimit: Value)

  /** The fields an issue list names. */
  function FailingFields(issues: seq<Issue>): (r: set<Field>)
    ensures forall f :: f in r <==> exists i :: 0 <= i < |issues| && issues[i].field == f
  {
    if issues == [] then {}
    else
      assert forall i :: 0 < i < |issues| ==> issues[i] == issues[1..][i - 1];
      {issues[0].field} + FailingFields(issues[1..])
  }

  // ---------------------------------------------------------------------
  // Field checks
  // ---------------------------------------------------------------------

  /** An optional string: absent, or any string. */
  function CheckOptionalText(f: Field, v: Value): seq<Issue>
  {
    match v
    case Absent => []
    case Text(_) => []
    case _ => [Issue(f, InvalidType)]
  }

  /** A number no smaller than 0.01. */
  function CheckMinNumber(f: Field, v: Value, message: string): seq<Issue>
  {
    match v
    case Absent => [Issue(f, Required)]
    case Number(n) => if n < MinAmount then [Issue(f, TooSmall(message))] else []
    case _ => [Issue(f, InvalidType)]
  }

  /** A date value. */
  function CheckDate(f: Field, v: Value): seq<Issue>
  {
    match v
    case Absent => [Issue(f, Required)]
    case When(_) => []
    case _ => [Issue(f, InvalidType)]
  }

  /** A string of length 1 or more, and (when a maximum is given) at most that maximum. */
  function CheckText(f: Field, v: Value, tooShort: string, max: Option<(nat, string)>): seq<Issue>
  {
    match v
    case Absent => [Issue(f, Required)]
    case Text(s) =>
      (if |s| < 1 then [Issue(f, TooSmall(tooShort))] else []) +
      (if max.Some? && |s| > max.value.0 then [Issue(f, TooBig(max.value.1))] else [])
    case _ => [Issue(f, InvalidType)]
  }

  // ---------------------------------------------------------------------
  // Transactions
  // ---------------------------------------------------------------------

  /** Every constraint violated by a raw transaction, in schema order. */
  function TransactionIssues(raw: RawTransaction): seq<Issue>
  {
    CheckOptionalText(IdField, raw.id)
    + CheckMinNumber(AmountField, raw.amount, AmountTooSmall)
    + CheckDate(DateField, raw.date)
    + CheckText(DescriptionField, raw.description, DescriptionRequired, Some((MaxDescription, DescriptionTooLong)))
    + CheckText(CategoryField, raw.category, CategoryRequired, None)
  }

  /** The typed constraints of an accepted transaction. */
  predicate ValidTransaction(t: Transaction)
  {
    t.amount >= MinAmount && 1 <= |t.description| <= MaxDescription && |t.category| >= 1
  }

  /** The raw form of a typed transaction. */
  function TransactionToRaw(t: Transaction): RawTransaction
  {
    RawTransaction(
      if t.id.Some? then Text(t.id.value) else Absent,
      Number(t.amount), When(t.date), Text(t.description), Text(t.category))
  }

  /** Validate a raw transaction: the typed record, or every failing field. */
  function ParseTransaction(raw: RawTransaction): (r: Result<Transaction, seq<Issue>>)
    ensures r.Success? <==> TransactionIssues(raw) == []
    ensures r.Success? ==> ValidTransaction(r.value) && TransactionToRaw(r.value) == raw
    ensures r.Failure? ==> r.error == TransactionIssues(raw) && |r.error| > 0
  {
    var issues := TransactionIssues(raw);
    if issues != [] then Failure(issues)
    else
      Success(Transaction(
        if raw.id.Text? then Some(raw.id.s) else None,
        raw.amount.n, raw.date.d, raw.description.s, raw.category.s))
  }

  /** Parsing accepts exactly the raw forms of valid transactions, and gives them back unchanged. */
  lemma ParseTransactionRoundTrip(t: Transaction)
    ensures ParseTransaction(TransactionToRaw(t)) == (if ValidTransaction(t) then Success(t) else Failure(TransactionIssues(TransactionToRaw(t))))
  {
    var raw := TransactionToRaw(t);
    if ValidTransaction(t) {
      assert TransactionIssues(raw) == [];
    } else if t.amount < MinAmount {
      assert Issue(AmountField, TooSmall(AmountTooSmall)) in TransactionIssues(raw);
    } else if |t.description| < 1 {
      assert Issue(DescriptionField, TooSmall(DescriptionRequired)) in TransactionIssues(raw);
    } else if |t.description| > MaxDescription {
      assert Issue(DescriptionField, TooBig(DescriptionTooLong)) in TransactionIssues(raw);
    } else {
      assert Issue(CategoryField, TooSmall(CategoryRequired)) in TransactionIssues(raw);
    }
  }

  /** An amount of 0 is refused on the amount field with the schema's message. */
  lemma ZeroAmountRejected(raw: RawTransaction)
    requires raw.amount == Number(0.0)
    ensures ParseTransaction(raw).Failure?
    ensures Issue(AmountField, TooSmall(AmountTooSmall)) in TransactionIssues(raw)
  {
    assert TransactionIssues(raw)[|CheckOptionalText(IdField, raw.id)|] == Issue(AmountField, TooSmall(AmountTooSmall));
  }

  /** A description is accepted exactly when its length lies in 1..200. */
  lemma DescriptionBounds(raw: RawTransaction, s: string)
    requires raw.description == Text(s)
    ensures DescriptionField !in FailingFields(TransactionIssues(raw)) <==> 1 <= |s| <= 200
  {
    var pre := CheckOptionalText(IdField, raw.id) + CheckMinNumber(AmountField, raw.amount, AmountTooSmall) + CheckDate(DateField, raw.date);
    var desc := CheckText(DescriptionField, raw.description, DescriptionRequired, Some((MaxDescription, DescriptionTooLong)));
    var cat := CheckText(CategoryField, raw.category, CategoryRequired, None);
    assert TransactionIssues(raw) == pre + desc + cat;
    assert forall i :: 0 <= i < |pre| ==> pre[i].field != DescriptionField;
    assert forall i :: 0 <= i < |cat| ==> cat[i].field != DescriptionField;
    if !(1 <= |s| <= 200) {
      assert TransactionIssues(raw)[|pre|] == desc[0];
    }
  }

  /** Any non-empty category passes: the label is not checked against the category list. */
  lemma AnyCategoryAccepted(raw: RawTransaction, c: string)
    requires raw.category == Text(c) && |c| >= 1
    ensures CategoryField !in FailingFields(TransactionIssues(raw))
  {
  }

  /** A label outside the category list still validates. */
  lemma UnlistedCategoryValidates()
    ensures "Coffee" !in Categories
    ensures ParseTransaction(RawTransaction(Absent, Number(4.5), When(Date(2024, 1, 1704067200000)), Text("Latte"), Text("Coffee"))).Success?
  {
  }

  /** `id` is optional: leaving it out or giving any string changes nothing else. */
  lemma TransactionIdOptional(raw: RawTransaction, id: string)
    ensures TransactionIssues(raw.(id := Absent)) == TransactionIssues(raw.(id := Text(id)))
    ensures ParseTransaction(raw.(id := Absent)).Success? <==> ParseTransaction(raw.(id := Text(id))).Success?
  {
  }

  // ---------------------------------------------------------------------
  // Budgets
  // ---------------------------------------------------------------------

  /** Every constraint violated by a raw budget, in schema order. */
  function BudgetIssues(raw: RawBudget): seq<Issue>
  {
    CheckOptionalText(IdField, raw.id)
    + CheckText(CategoryField, raw.category, CategoryRequired, None)
    + CheckMinNumber(MonthlyLimitField, raw.monthlyLimit, LimitTooSmall)
  }

  /** The typed constraints of an accepted budget. */
  predicate ValidBudget(b: Budget)
  {
    |b.category| >= 1 && b.monthlyLimit >= MinAmount
  }

  /** The raw form of a typed budget. */
  function BudgetToRaw(b: Budget): RawBudget
  {
    RawBudget(if b.id.Some? then Text(b.id.value) else Absent, Text(b.category), Number(b.monthlyLimit))
  }

  /** Validate a raw budget: the typed record, or every failing field. */
  function ParseBudget(raw: RawBudget): (r: Result<Budget, seq<Issue>>)
    ensures r.Success? <==> BudgetIssues(raw) == []
    ensures r.Success? ==> ValidBudget(r.value) && BudgetToRaw(r.value) == raw
    ensures r.Success? ==> r.value.monthlyLimit > 0.0
    ensures r.Failure? ==> r.error == BudgetIssues(raw) && |r.error| > 0
  {
    var issues := BudgetIssues(raw);
    if issues != [] then Failure(issues)
    else
      Success(Budget(if raw.id.Text? then Some(raw.id.s) else None, raw.category.s, raw.monthlyLimit.n))
  }

  /** Parsing accepts exactly the raw forms of valid budgets, and gives them back unchanged. */
  lemma ParseBudgetRoundTrip(b: Budget)
    ensures ParseBudget(BudgetToRaw(b)) == (if ValidBudget(b) then Success(b) else Failure(BudgetIssues(BudgetToRaw(b))))
  {
    var raw := BudgetToRaw(b);
    if ValidBudget(b) {
      assert BudgetIssues(raw) == [];
    } else if |b.category| < 1 {
      assert Issue(CategoryField, TooSmall(CategoryRequired)) in BudgetIssues(raw);
    } else {
      assert Issue(MonthlyLimitField, TooSmall(LimitTooSmall)) in BudgetIssues(raw);
    }
  }

  /** A monthly limit below 0.01 is refused on the limit field with the schema's message. */
  lemma SmallLimitRejected(raw: RawBudget, limit: real)
    requires raw.monthlyLimit == Number(limit) && limit < MinAmount
    ensures ParseBudget(raw).Failure?
    ensures Issue(MonthlyLimitField, TooSmall(LimitTooSmall)) in BudgetIssues(raw)
  {
    var pre := CheckOptionalText(IdField, raw.id) + CheckText(CategoryField, raw.category, CategoryRequired, None);
    assert BudgetIssues(raw)[|pre|] == Issue(MonthlyLimitField, TooSmall(LimitTooSmall));
  }

  /** `id` is optional: leaving it out or giving any string changes nothing else. */
  lemma BudgetIdOptional(raw: RawBudget, id: string)
    ensures BudgetIssues(raw.(id := Absent)) == BudgetIssues(raw.(id := Text(id)))
  {
  }

  /** The category list holds 11 distinct labels. */
  lemma CategoriesDistinct()
    ensures |Categories| == 11
    ensures Distinct(Categories)
  {
  }
}
