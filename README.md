# Finance visualiser: a verified model of its core

The finance visualiser is a small Next.js expense tracker. It records
transactions (amount, date, description, category) and monthly budgets
(category, limit) in MongoDB. It shows them on three pages:

- a dashboard with statistics cards, a monthly chart, a category chart and the five most recent transactions;
- a transactions page with a sortable table and a form;
- a budgets page with a budget-vs-actual chart, a table of budget standings and a form.

This project models the computational core of that program in Dafny:

- `Domain`: the data model. A date is a `(year, month, time)` triple: calendar month plus an ordered timestamp. An amount is a `real`.
- `DbOperations`: the data-access layer.
  - The newest-first read of all transactions.
  - The id handling of the create and update calls.
  - The two analytics pipelines: monthly totals and category totals.
- `Schemas`: the validation schemas of transactions and budgets, as a total parse over untyped records that reports every failing field in schema order, and the fixed category list.
- `BudgetsPage`: the per-category spending of the current month, built by an imperative loop over the transaction list; and the page's state as a class whose handlers update the budget list and the form state.
- `BudgetsTable`: a budget's standing (spent, capped percentage, remaining, over-budget flag), and the table's two-click delete confirmation.
- `BudgetForm`: the categories the form offers, and its starting values.
- `BudgetVsActualChart`: one chart entry per budget.
- `DashboardPage`: the statistics cards. The figures are the all-time total, the current month's total, that total against a fixed budget of 3000, and the transaction count.
- `RecentTransactions`: the first five transactions of the list.
- `TransactionsTable`: the newest-first sort of a copy of the list (an in-place insertion sort on an array), and its two-click delete confirmation.
- `TransactionsPage`: the page's state as a class, with add (prepend), edit (replace by id) and delete (filter by id).
- Shared modules:
  - `Sums`: left-fold sums, in the order `Array.prototype.reduce` and `$sum` visit the list.
  - `Sorting`: a stable descending insertion sort.
  - `Sequences`: distinctness and subsequences.
  - `ListEdits`: replace by id, remove by id.
  - `DeleteConfirm`: the two-click step function shared by both tables.
  - `Wrappers`: `Option` and `Result`.

"Now" (the current year and month) is a parameter wherever the program reads the clock. A new id from the store is a parameter of the create calls.

The monthly pipeline feeds the dashboard's monthly chart, which is evidently meant to show the most recent 12 months: as written, once more than a year of data exists, new months never appear. The code sorts ascending before `$limit 12`, so it keeps the earliest 12. The model follows the code (`DbOperations.MonthlyExpenses`). It also gives the corrected pipeline (`DbOperations.RecentMonthlyExpenses`); see "Findings".

## Model

| member | source | states |
|---|---|---|
| Domain.CurrentMonth | app/budgets/page.tsx:51-55 | a filter: every occurrence of each transaction whose year and month equal the current ones, none of the others, in input order (a subsequence with the same count per in-month transaction) |
| Sums.SumOverCovering | lib/db-operations.ts:108-116 | grouping conserves the total: over any duplicate-free list of keys covering every transaction's key, the group sums add up to the sum of all amounts |
| Sums.SumWhereNonNegative | lib/db-operations.ts:115 | with non-negative amounts, a group's sum lies between 0 and the total |
| Sorting.SortDescending | lib/db-operations.ts:144-146 | the result is a permutation of the input (same multiset), in non-increasing key order, with the same key sum |
| DbOperations.ToTransaction | lib/db-operations.ts:17-23 | a stored record keeps its amount, date, description and category, and gets its object id as `id` |
| DbOperations.AllTransactions | lib/db-operations.ts:12-24 | every stored record exactly once (same multiset as the projected records), with non-increasing dates, each carrying an id |
| DbOperations.CreateTransaction | lib/db-operations.ts:26-35 | the result carries the inserted id and is otherwise exactly the caller's data |
| DbOperations.UpdateTransaction | lib/db-operations.ts:37-49 | the result carries the given id and is otherwise exactly the supplied data |
| DbOperations.CreateBudget | lib/db-operations.ts:71-80 | the result carries the inserted id and is otherwise exactly the caller's data |
| DbOperations.UpdateBudget | lib/db-operations.ts:82-94 | the result carries the given id and is otherwise exactly the supplied data |
| DbOperations.SortedMonths | lib/db-operations.ts:110-120 | the group keys: strictly ascending (year, month), holding exactly the months that occur |
| DbOperations.GroupedMonths | lib/db-operations.ts:108-120 | one row per distinct month, in ascending order, each row's amount the sum of that month's amounts |
| DbOperations.MonthlyExpenses | lib/db-operations.ts:104-131 | as written: min(12, number of distinct months) rows in strictly ascending month order; each row is an occurring month with its summed amount; every transaction's month is covered unless 12 rows were kept and all of them are earlier |
| DbOperations.EarliestKept | lib/db-operations.ts:119-123 | cutting the ascending rows after n keeps an ascending run of the earliest months; a month not kept is later than every kept one; keeping all rows covers every month |
| DbOperations.MonthlyExpensesConserveTotal | lib/db-operations.ts:108-130 | with at most 12 distinct months, the monthly amounts add up to the sum of all amounts |
| DbOperations.MonthlyExpensesEmpty | lib/db-operations.ts:104-131 | no transactions give no rows |
| DbOperations.LatestMonthDropped | lib/db-operations.ts:119-123 | as written, with more than 12 distinct months, the most recent month has no row |
| DbOperations.RecentMonthlyExpenses | lib/db-operations.ts:119-123 | corrected pipeline: the same count, order and amounts, but a month left out is earlier than every kept one |
| DbOperations.RecentMonthlyKeepsLatest | lib/db-operations.ts:119-123 | the corrected pipeline always has a row for the most recent month |
| DbOperations.CategoryKeys | lib/db-operations.ts:139-142 | the group keys: duplicate-free, holding exactly the categories that occur |
| DbOperations.CategoryRowsSum | lib/db-operations.ts:139-142 | the rows of a key list add up to the sum of its groups |
| DbOperations.SortKeepsCategoriesDistinct | lib/db-operations.ts:144-146 | sorting the rows by amount never makes a category appear twice |
| DbOperations.CategoryExpenses | lib/db-operations.ts:133-154 | one row per distinct category (no category twice, every occurring one present), each with that category's summed amount, in non-increasing order of amount |
| DbOperations.CategoryExpensesConserveTotal | lib/db-operations.ts:137-146 | the category amounts add up to the sum of all amounts |
| DbOperations.JanuaryMonthly | lib/db-operations.ts:104-131 | two January 2024 purchases (45.50 groceries, 120.00 bills) give one month row of 165.50 |
| DbOperations.JanuaryCategories | lib/db-operations.ts:133-154 | the same two purchases give category rows bills 120.00 then groceries 45.50 |
| Schemas.ParseTransaction | lib/schemas.ts:3-9 | succeeds exactly when no field fails; a success is a valid transaction whose raw form is the input; a failure lists every failing field's issue in schema order |
| Schemas.ParseTransactionRoundTrip | lib/schemas.ts:3-9 | parsing the raw form of a transaction gives it back exactly when it is valid, and fails with its issues otherwise |
| Schemas.ZeroAmountRejected | lib/schemas.ts:5 | amount 0 is refused with the message "Amount must be greater than 0" |
| Schemas.DescriptionBounds | lib/schemas.ts:7 | the description field passes exactly when its length is between 1 and 200 |
| Schemas.AnyCategoryAccepted | lib/schemas.ts:8 | any non-empty category passes its field check |
| Schemas.UnlistedCategoryValidates | lib/schemas.ts:8 | a transaction with a category outside the category list ("Coffee") validates |
| Schemas.TransactionIdOptional | lib/schemas.ts:4 | leaving the id out or giving any string yields the same issues and the same verdict |
| Schemas.ParseBudget | lib/schemas.ts:11-15 | succeeds exactly when no field fails; a success is a valid budget with a positive limit whose raw form is the input; a failure lists every issue |
| Schemas.ParseBudgetRoundTrip | lib/schemas.ts:11-15 | parsing the raw form of a budget gives it back exactly when it is valid |
| Schemas.SmallLimitRejected | lib/schemas.ts:14 | a limit below 0.01 is refused with the message "Monthly limit must be greater than 0" |
| Schemas.BudgetIdOptional | lib/schemas.ts:12 | leaving the id out or giving any string yields the same issues |
| Schemas.CategoriesDistinct | lib/schemas.ts:20-32 | the category list has 11 distinct labels |
| ListEdits.ReplaceById | app/budgets/page.tsx:113-115 | same length; each entry whose id equals the edited id becomes the new value, every other entry is unchanged |
| ListEdits.RemoveById | app/budgets/page.tsx:135 | the entries without the id, as a subsequence in the original order, shorter by exactly the number of entries carrying the id |
| ListEdits.RemoveByIdIdempotent | app/budgets/page.tsx:135 | removing the same id twice removes nothing more |
| ListEdits.RemoveAbsentId | app/budgets/page.tsx:135 | removing an id no entry carries leaves the list unchanged |
| ListEdits.ReplaceKeepsIds | app/budgets/page.tsx:113-115 | replacing with a value carrying the edited id keeps every entry's id |
| DeleteConfirm.OnDeleteClick | components/budgets/budgets-table.tsx:36-43 | a click deletes exactly when the same row is armed, and then disarms; otherwise it arms the clicked row |
| DeleteConfirm.TwoClicksDelete | components/budgets/budgets-table.tsx:36-43 | a first click on a row only arms it; a second click on it deletes it and disarms |
| DeleteConfirm.OtherRowSwitches | components/budgets/budgets-table.tsx:40-42 | a click on another row while one is armed arms that row and deletes nothing |
| BudgetsPage.CategorySpending | app/budgets/page.tsx:50-60 | the map has a key for exactly the categories with a transaction this month, each holding that category's sum this month |
| BudgetsPage.AccumulateStep | app/budgets/page.tsx:56 | adding one transaction's amount under its category keeps the map a per-category sum |
| BudgetsPage.SpendingOfAgrees | app/budgets/page.tsx:56 | looking up a category (0 when absent) gives that category's sum this month |
| BudgetsPage.SpendingSumsToMonthTotal | app/budgets/page.tsx:50-60 | the map's values add up to the sum of this month's amounts |
| BudgetsPage.ExistingCategories | app/budgets/page.tsx:158 | one category per budget, same length and order as the budgets |
| BudgetsPage.BudgetsPage.AddBudget | app/budgets/page.tsx:82-83 | the created budget is appended, earlier entries unchanged, and the form closes |
| BudgetsPage.BudgetsPage.constructor | app/budgets/page.tsx:12-15 | an empty budget list, the form closed and no budget being edited |
| BudgetsPage.BudgetsPage.EditBudget | app/budgets/page.tsx:91-123 | keyed on the budget being edited when the form was submitted: no effect if there was none; otherwise entries with its id are replaced by the response, the edit cleared and the form closed, whatever happened during the request |
| BudgetsPage.BudgetsPage.DeleteBudget | app/budgets/page.tsx:135 | the list becomes the entries without the id; form state unchanged |
| BudgetsPage.BudgetsPage.HandleEdit | app/budgets/page.tsx:143-146 | the edited budget is set and the form opens |
| BudgetsPage.BudgetsPage.HandleAdd | app/budgets/page.tsx:148-151 | the edited budget is cleared and the form opens |
| BudgetsPage.BudgetsPage.HandleCloseForm | app/budgets/page.tsx:153-156 | the form closes and the edited budget is cleared |
| BudgetsTable.GetBudgetStatus | components/budgets/budgets-table.tsx:45-56 | spent is the map's entry or 0; remaining is limit minus spent; over budget exactly when spent exceeds the limit, which is exactly when remaining is negative; percentage at most 100, the raw percentage when not over and 100 when over |
| BudgetsTable.CapOnlyWhenOver | components/budgets/budgets-table.tsx:47-54 | the raw percentage exceeds 100 exactly when spent exceeds the limit, and equals 100 exactly at the limit |
| BudgetsTable.AtLimitNotOver | components/budgets/budgets-table.tsx:54 | spending exactly the limit is 100% used, nothing remaining, and not over budget |
| BudgetsTable.NoSpendingStatus | components/budgets/budgets-table.tsx:46 | a category without spending this month has nothing spent, 0%, the whole limit remaining |
| BudgetsTable.OverspentExample | components/budgets/budgets-table.tsx:45-56 | limit 100 with 120 spent: spent 120, remaining -20, over budget, shown at 100% of a raw 120% |
| BudgetsTable.ParsedBudgetHasStatus | lib/schemas.ts:14 | every budget that passed validation has a positive limit |
| BudgetsTable.BudgetsTable.constructor | components/budgets/budgets-table.tsx:27 | no row armed for deletion |
| BudgetsTable.BudgetsTable.HandleDelete | components/budgets/budgets-table.tsx:36-43 | the armed row and the deleted id after a click are those of the two-click step function |
| BudgetForm.AvailableCategories | components/budgets/budget-form.tsx:52-54 | a subsequence of the category list (order kept) holding exactly the labels no budget uses, plus the edited budget's own |
| BudgetForm.AllCategoriesWhenNoBudgets | components/budgets/budget-form.tsx:52-54 | with no categories taken and no edit, all 11 labels are offered in order |
| BudgetForm.NoSecondBudgetForACategory | components/budgets/budget-form.tsx:52-54 | on the budgets page, the category of any budget other than the edited one is never offered |
| BudgetForm.FormDefaults | components/budgets/budget-form.tsx:34-37 | a new budget starts from the empty category and limit 0; an edited one from its own category and limit |
| BudgetVsActualChart.ChartData | components/budgets/budget-vs-actual-chart.tsx:30-34 | one entry per budget in budget order, with its category, its limit, and the map's entry for its category or 0 |
| BudgetVsActualChart.ChartMatchesTable | components/budgets/budget-vs-actual-chart.tsx:33 | each entry's actual spending is the table's spent figure, and limit minus actual is the table's remaining figure |
| BudgetVsActualChart.ChartActualIsMonthSpending | components/budgets/budget-vs-actual-chart.tsx:33 | each entry's actual spending is the sum of this month's amounts in its category |
| DashboardPage.BudgetUsage | app/dashboard/page.tsx:54 | non-negative; 0 unless something was spent, otherwise spent/3000*100; above 100 exactly when spending exceeds 3000 |
| DashboardPage.DashboardStats | app/dashboard/page.tsx:44-77 | the total of all amounts, the total of this month's amounts, the usage of that monthly total, and the list length |
| DashboardPage.EmptyDashboard | app/dashboard/page.tsx:44-54 | no transactions: every figure is 0 |
| DashboardPage.UsageNotCapped | app/dashboard/page.tsx:54 | usage is not capped: 4500 spent reads as 150 |
| DashboardPage.MonthlyWithinTotal | app/dashboard/page.tsx:44-52 | with non-negative amounts, the monthly figure lies between 0 and the all-time total |
| DashboardPage.MonthlyIsMonthBucket | app/dashboard/page.tsx:45-52 | the monthly figure equals the current month's group sum in the monthly pipeline |
| DashboardPage.MonthlyIsSpendingTotal | app/dashboard/page.tsx:45-52 | the monthly figure equals the sum of the budgets page's per-category spending map |
| RecentTransactions.Recent | components/dashboard/recent-transactions.tsx:17 | min(5, n) transactions, a prefix of the input in its order |
| RecentTransactions.EmptyStateIffNoTransactions | components/dashboard/recent-transactions.tsx:26-29 | the empty-state message shows exactly when the list is empty |
| RecentTransactions.ShownAreNewest | components/dashboard/recent-transactions.tsx:17 | for a newest-first input, every transaction shown is at least as new as every one left out |
| RecentTransactions.RecentKeepsOrder | components/dashboard/recent-transactions.tsx:17 | the selection of a newest-first input is newest first |
| RecentTransactions.StoredListShowsNewest | components/dashboard/recent-transactions.tsx:17 | fed the store's newest-first list, no transaction left out is newer than one shown |
| TransactionsTable.SinkNewer | components/transactions/transactions-table.tsx:44-46 | moving the next row into a newest-first prefix extends it by one, permutes the array and never reorders rows of equal date |
| TransactionsTable.SortedTransactions | components/transactions/transactions-table.tsx:44-46 | the rows are a permutation of the input, of the same length, with non-increasing dates, and stable: the rows of each date keep their input order; the input is untouched |
| TransactionsTable.SwapKeepsAtTime | components/transactions/transactions-table.tsx:44-46 | exchanging neighbouring rows of different dates keeps the rows of every date in order |
| TransactionsTable.TransactionsTable.constructor | components/transactions/transactions-table.tsx:26 | no row armed for deletion |
| TransactionsTable.TransactionsTable.HandleDelete | components/transactions/transactions-table.tsx:35-42 | the armed row and the deleted id after a click are those of the two-click step function |
| TransactionsPage.TransactionsPage.AddTransaction | app/transactions/page.tsx:56-59 | the created transaction comes first, followed by the old list in order (one longer), and the form closes |
| TransactionsPage.TransactionsPage.constructor | app/transactions/page.tsx:11-13 | an empty transaction list, the form closed and no transaction being edited |
| TransactionsPage.TransactionsPage.EditTransaction | app/transactions/page.tsx:67-99 | keyed on the transaction being edited when the form was submitted: no effect if there was none; otherwise entries with its id are replaced by the response, the edit cleared and the form closed, whatever happened during the request |
| TransactionsPage.TransactionsPage.DeleteTransaction | app/transactions/page.tsx:113 | the list becomes the entries without the id, in order; form state unchanged |
| TransactionsPage.TransactionsPage.HandleEdit | app/transactions/page.tsx:121-124 | the edited transaction is set and the form opens |
| TransactionsPage.TransactionsPage.HandleAdd | app/transactions/page.tsx:126-129 | the edited transaction is cleared and the form opens |
| TransactionsPage.TransactionsPage.HandleCloseForm | app/transactions/page.tsx:131-134 | the form closes and the edited transaction is cleared |
| TransactionsPage.AddThenDelete | app/transactions/page.tsx:58 | deleting the id of a just-added transaction whose id no old entry carried gives back the old list |
| TransactionsPage.EditKeepsIds | app/transactions/page.tsx:89-91 | replacing with the store's answer to an update keeps every entry's id |

## Left out

- HTTP route handlers (`app/api/...`): request and response I/O, and the mapping of errors to status codes.
- MongoDB plumbing: the connection, `insertOne`, `updateOne`, `deleteOne`, `ObjectId` parsing, and the seed script. A stored record is a value and a new id is a parameter.
- `getAllBudgets` (lib/db-operations.ts:59-69) is a plain projection; it is not part of this model.
- The month label built with `toLocaleDateString` (lib/db-operations.ts:128): rows keep the (year, month) key instead.
- Currency and number formatting, `toFixed`, and `formatDistanceToNow`.
- React rendering, the currency context and `localStorage`, the settings page and the layout.
- The remaining chart components and the transaction form wiring (`parseFloat`).
- `fetch`, loading flags and toasts. Each handler is modelled only for the state change after a successful response; a failed request changes nothing. The edit handlers take the record captured at submission as a parameter, so what the user does while a request is in flight is any sequence of the other methods in between.
- IEEE-754 arithmetic. Amounts are exact `real`s, so rounding in sums and percentages, `NaN` and infinities are not modelled.
- Time zones. The program buckets by local month on the client (`getMonth`) and by UTC month in the store (`$month`). The model has one (year, month) per date. It does not relate a date's timestamp to its year and month.
- Plain-object maps. The spending map is a Dafny `map`, so categories named like `Object.prototype` members (e.g. "constructor") are not modelled.
- String length. It is counted in characters; JavaScript counts UTF-16 code units.
- Unknown keys. The schema parser's stripping of unknown keys and its coercions are not modelled; a raw record has exactly the schema's fields.
- The order in which MongoDB emits groups, and the order of equal sort keys. Both are left open by the store; the model fixes first use and a stable sort.
- The initial data load of each page.
- BudgetsTable.GetBudgetStatus: requires a positive limit. Validation guarantees one (`BudgetsTable.ParsedBudgetHasStatus`); for a zero limit the program would divide by zero.
- DbOperations.AllTransactions: states newest-first order and the multiset of records, not the relative order of records with equal dates, which the store leaves open.
- DbOperations.CategoryExpenses: states non-increasing amounts, not an order among equal amounts, which the store leaves open.

## Findings

| source | as written | input that shows it | evidently intended | confidence | as-written member | corrected member |
|---|---|---|---|---|---|---|
| lib/db-operations.ts:119-123 | sorts months ascending, then `$limit 12`, keeping the earliest 12 months | transactions in each of the 13 months Jan 2023 to Jan 2024: the result covers Jan to Dec 2023 and drops Jan 2024 | the most recent 12 months, in ascending order, so that the dashboard's monthly chart keeps showing new months | high; not executed | DbOperations.LatestMonthDropped | DbOperations.RecentMonthlyKeepsLatest |
