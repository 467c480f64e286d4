# Expense Tracker — a Dafny model

This project models the core of the Expense Tracker web application in
Dafny and proves properties of that model. It covers two parts.

- **The Express API.** These are the routes for transactions
  (`/api/expenses`), analytics, budgets, savings goals and categories. They
  run over an abstract SQLite store. Each table is a sequence of rows, and
  each row has an id, an owner (NULL for the shared default categories) and
  its columns. A class `Tables.Db` holds the four tables and their
  AUTOINCREMENT counters. A handler that writes is a method on that store.
  A handler that only reads is a function.
- **The React client.** This is the `ExpenseProvider` context, which holds
  four lists that its add/update/delete operations replace. It also covers
  the computations and the dialog state of the Budgets, Goals, Dashboard,
  Expenses, Categories and Analytics pages.

Conventions:

- The authenticated caller's user id is a plain parameter.
- Every clock reading is a parameter: `CURRENT_TIMESTAMP`, `new Date()` and
  `Date.now()` ids.
- Amounts are `real`.
- Dates are (year, month, day) and compare like their `YYYY-MM-DD` text.
- JavaScript truthiness is written out: `Truthy`, `TruthyAmount`.
- HTTP statuses become a `Result` of `ValidationError` or `NotFoundError`.
- SQL `ORDER BY` is a stable insertion sort (`Sorting.SortBy`) under a
  comparison. Each comparison is proved to be a total preorder.

Modules, one per file:

- `Base`: options, results, kinds, dates, text order.
- `Sorting`: sorting, `LIMIT`, de-duplication.
- `Tables`: rows, scoped writes, the store.
- `CategoryResolver`: get-or-create by name.
- `Aggregates`: `SUM` with `WHERE`, `BETWEEN` and the `LEFT JOIN` group.
- `ExpenseRoutes`, `AnalyticsRoutes`, `BudgetRoutes`, `GoalRoutes` and
  `CategoryRoutes`: the route files.
- `ClientStore`: the provider.
- `ClientTotals`: the sums the pages share and the category chart.
- `BudgetsView`, `GoalsView`, `DashboardView`, `ExpensesView` and
  `CategoriesView`: the pages.

The model follows the code as written, including where it departs from what
the application appears to intend:

- The dashboard's category breakdown joins every category row in the table,
  including other users' private ones, not only the shared and own ones
  (`backend/routes/expenses.js:294-300`).
- An expense update always rewrites `category_id`, so an update without a
  category clears it (`backend/routes/expenses.js:170,193`).
- The update routes for budgets, goals and categories read the row back by
  id alone, with no owner check. A caller who names another user's budget,
  goal or category is sent that row, unchanged. The expense update route
  checks ownership first and answers 404
  (`backend/routes/expenses.js:164-167`).
- `strftime('%Y-%m', date)` reads a day past the end of its month, such as
  2024-02-30, which the date validator accepts, as a day of the next month.
  The monthly report files such a row under that next month
  (`Base.MonthOf`, `Base.OverflowingDayRollsOver`).

## Model

| member | source | states |
|---|---|---|
| Base.ParseKind | backend/routes/expenses.js:99 | only 'expense' and 'income' parse, and each parses back to its own name |
| Base.TextLeTotal | backend/routes/categories.js:29 | the name order is total |
| Base.TextLeTransitive | backend/routes/categories.js:29 | the name order is transitive |
| Base.MonthOf | backend/routes/analytics.js:30 | for a valid date, the month is the date's own month exactly when the day fits in it, and the next month when the day overflows it |
| Base.OverflowingDayRollsOver | backend/routes/analytics.js:30 | 2024-02-30 and 2023-02-29 are valid dates filed under March; 2024-02-29 stays in February |
| Base.Truthy | backend/routes/budgets.js:47 | definition: a string field is truthy when present and non-empty |
| Base.TruthyAmount | backend/routes/budgets.js:47 | definition: a number field is truthy when present and non-zero |
| Base.IsIsoDate | backend/routes/expenses.js:100 | definition: the date shape the validator accepts: year 0-9999, month 1-12, day 1-31 |
| Base.DateLe | backend/routes/expenses.js:52 | definition: the text order of YYYY-MM-DD strings, year then month then day |
| Base.TextLe | backend/routes/categories.js:29 | definition: SQLite's BINARY collation, character by character with a proper prefix first |
| Base.DaysInMonth | backend/routes/analytics.js:30 | definition: the Gregorian month lengths, with the 4/100/400 leap-year rule |
| Base.MinReal | backend/src/components/Budgets.js:92 | the smaller of two amounts, one of them |
| Sorting.SortByIsSorted | backend/routes/expenses.js:60 | sorting by a total preorder yields a sorted sequence |
| Sorting.SortBy | backend/routes/expenses.js:60 | `ORDER BY` reorders without losing or adding a row: same length, same multiset |
| Sorting.Take | backend/routes/expenses.js:61 | `LIMIT n` keeps a prefix of n rows, or all of them when n is negative or not reached |
| Sorting.TakeKeepsSorted | backend/routes/expenses.js:60-61 | a limited sorted listing is still sorted |
| Sorting.OrderedPrefix | backend/routes/expenses.js:60-61 | `ORDER BY ... LIMIT n` is sorted and a sub-multiset of its input, and is the whole input when the limit is negative or not reached |
| Sorting.OrderedPrefixDominates | backend/routes/analytics.js:36-37 | an element cut off by the limit is preceded by exactly n elements, each ordered before it |
| Sorting.Dedup | backend/routes/analytics.js:35 | `GROUP BY` keys: each input key exactly once, no duplicates |
| Sorting.DistinctPermutation | backend/routes/analytics.js:54-55 | reordering keeps a duplicate-free sequence duplicate-free |
| Tables.FindById | backend/routes/budgets.js:81 | read-back by id alone: a row with that id, or none exactly when no row has it |
| Tables.FindTarget | backend/routes/expenses.js:164-167 | the owner-checked lookup finds a row iff the caller owns a row with that id |
| Tables.RowsOf | backend/routes/goals.js:29 | `WHERE user_id = ?` keeps exactly the caller's rows |
| Tables.UpdateWhere | backend/routes/goals.js:69 | `UPDATE ... WHERE id = ? AND user_id = ?` rewrites exactly the caller's row with that id and no other |
| Tables.DeleteWhere | backend/routes/goals.js:82 | `DELETE ... WHERE id = ? AND user_id = ?` removes exactly the caller's row with that id |
| Tables.DeleteAbsentIsNoOp | backend/routes/budgets.js:93 | deleting an id the caller does not own changes nothing |
| Tables.DeleteWhereDistributes | backend/routes/budgets.js:93 | deletion keeps the survivors in order |
| Tables.DeleteWhereKeepsOthers | backend/routes/categories.js:81 | a scoped delete leaves every other user's rows as they were |
| Tables.UpdateWhereKeepsOthers | backend/routes/categories.js:68 | a scoped update leaves every other user's rows as they were |
| Tables.RowsOfDistributes | backend/routes/expenses.js:39 | the owner filter keeps table order |
| Tables.ScopedWritesKeepIdsBelow | backend/routes/goals.js:69-82 | scoped writes create no id, so the next AUTOINCREMENT id stays fresh |
| Tables.DistinctIds | backend/database.js:23 | definition: no id appears twice in a table, as `INTEGER PRIMARY KEY AUTOINCREMENT` guarantees |
| Tables.AppendFreshKeepsIdsDistinct | backend/routes/goals.js:44-47 | an insert with the next AUTOINCREMENT id keeps every id below the counter and no id repeated |
| Tables.ScopedWritesKeepIdsDistinct | backend/routes/goals.js:69-82 | scoped updates and deletes never repeat an id |
| Tables.UpdateAbsentIsNoOp | backend/routes/budgets.js:80 | updating an id the caller does not own changes nothing |
| Tables.Db.constructor | backend/routes/expenses.js:4 | the store starts with empty tables and counters at 1 |
| CategoryResolver.NewCategory | backend/routes/expenses.js:115 | definition: the row `INSERT INTO categories (name, user_id)` adds: the caller's, with the column-default colour and icon |
| CategoryResolver.FindByName | backend/routes/expenses.js:113 | `SELECT id FROM categories WHERE name = ?` over every owner: a row with that exact name, or none iff no row has it |
| CategoryResolver.FindByNameAppend | backend/routes/expenses.js:113-116 | appending a row changes the lookup only for a name that was missing |
| CategoryResolver.Resolve | backend/routes/expenses.js:111-120 | after resolution the name is found with the returned id; a row is inserted exactly when the name was missing |
| CategoryResolver.ResolveIsShared | backend/routes/budgets.js:50-56 | names are one namespace for all users: an existing name resolves to the same id for any caller |
| CategoryResolver.ResolveCreatesOnlyOwned | backend/routes/budgets.js:52 | the only row ever inserted is owned by the caller and carries the name |
| CategoryResolver.ResolveCategory | backend/routes/budgets.js:49-56 | the imperative get-or-create agrees with `Resolve`, advances the category counter only on insert, and touches no other table |
| Aggregates.InWindow | backend/routes/expenses.js:274-277 | definition: `date BETWEEN ? AND ?`, or no condition without a window |
| Aggregates.InGroup | backend/routes/analytics.js:29-54 | definition: the grouping condition: any category, one category id, one `strftime` month, or one LEFT JOIN key |
| Aggregates.Selects | backend/routes/expenses.js:280-298 | definition: `user_id = ? AND type = ?`, the window and the group, all together |
| Aggregates.Sum | backend/routes/expenses.js:280-284 | definition: `COALESCE(SUM(amount), 0)` over the selected rows |
| Aggregates.JoinedCategoryId | backend/routes/analytics.js:52 | the LEFT JOIN key is the row's category id when that category exists, else NULL |
| Aggregates.SumConcat | backend/routes/expenses.js:281 | `SUM` over two parts of a table adds up |
| Aggregates.SumOfNothingIsZero | backend/routes/expenses.js:281 | `COALESCE(SUM(amount), 0)` is 0 when no row is selected |
| Aggregates.SumOwnRows | backend/routes/expenses.js:283 | a user's sum is computed from that user's rows alone |
| Aggregates.SumIgnoresOtherUsers | backend/routes/analytics.js:34 | tables that agree on a user's rows give that user the same sums |
| Aggregates.SumNonNegative | backend/routes/expenses.js:96 | with validated non-negative amounts every sum is non-negative |
| CategoryRoutes.ByName | backend/routes/categories.js:29 | definition: `ORDER BY name` under the BINARY collation |
| CategoryRoutes.VisibleTo | backend/routes/categories.js:29 | definition: `user_id IS NULL OR user_id = ?` |
| CategoryRoutes.ByNameIsTotalPreorder | backend/routes/categories.js:29 | `ORDER BY name` is a total preorder |
| CategoryRoutes.Visible | backend/routes/categories.js:29 | `user_id IS NULL OR user_id = ?` keeps exactly the shared and the caller's categories |
| CategoryRoutes.ListCategories | backend/routes/categories.js:26-37 | the listing is sorted by name, a permutation of the visible rows, and holds exactly the shared and own categories |
| CategoryRoutes.AllCategories | backend/routes/expenses.js:256-264 | every category row of every user, sorted by name |
| CategoryRoutes.CreateCategory | backend/routes/categories.js:40-54 | no name: rejected, nothing written; otherwise one caller-owned row appended with the next id, colour '#4CAF50' and icon '💰' when falsy |
| CategoryRoutes.ApplyCategoryPatch | backend/routes/categories.js:63-65 | only truthy name, colour and icon are written |
| CategoryRoutes.HasUpdates | backend/routes/categories.js:63-66 | definition: at least one of name, colour and icon is truthy |
| CategoryRoutes.UpdateCategory | backend/routes/categories.js:57-75 | no truthy field: rejected, nothing written; otherwise only the caller's row changes, shared rows never do, and the row is read back by id |
| CategoryRoutes.DeleteCategory | backend/routes/categories.js:78-87 | always succeeds; removes only the caller's row; every shared category survives |
| CategoryRoutes.CategoryWritesAreScoped | backend/routes/categories.js:68-81 | another user's listing is the same after any update or delete |
| CategoryRoutes.VisibleDistributes | backend/routes/categories.js:29 | the visibility filter keeps table order |
| CategoryRoutes.VisibleAfterUpdate | backend/routes/categories.js:68 | an update by one user leaves what another user sees unchanged |
| CategoryRoutes.VisibleAfterDelete | backend/routes/categories.js:81 | a delete by one user leaves what another user sees unchanged |
| ExpenseRoutes.Join | backend/routes/expenses.js:35-40 | definition: the row with the name, colour and icon of its LEFT JOINed category, or none |
| ExpenseRoutes.NewerFirst | backend/routes/expenses.js:60 | definition: `ORDER BY e.date DESC, e.created_at DESC` |
| ExpenseRoutes.Matches | backend/routes/expenses.js:43-58 | definition: each truthy `type` or `category` and each supplied date bound is one `AND` condition |
| ExpenseRoutes.NewerFirstIsTotalPreorder | backend/routes/expenses.js:60 | `ORDER BY e.date DESC, e.created_at DESC` is a total preorder |
| ExpenseRoutes.Selected | backend/routes/expenses.js:35-58 | exactly the caller's joined rows meeting every supplied filter (type, category name, start date, end date, each on its own) |
| ExpenseRoutes.SelectedOwnRows | backend/routes/expenses.js:39 | the listing depends only on the caller's rows |
| ExpenseRoutes.ListExpenses | backend/routes/expenses.js:31-69 | sorted newest first; drawn without repetition from the caller's matching rows; at most `limit` (default 50) rows; every match is listed when the limit is negative or not reached; a match left out means `limit` rows, each at least as new, were listed |
| ExpenseRoutes.GetExpense | backend/routes/expenses.js:72-92 | not found iff the caller owns no row with that id; otherwise that row, joined |
| ExpenseRoutes.Trim | backend/routes/expenses.js:97 | definition: `trim()`, leading then trailing JavaScript white space removed |
| ExpenseRoutes.DescriptionOk | backend/routes/expenses.js:97 | definition: an absent description, or one of at most 255 characters after trimming |
| ExpenseRoutes.ValidNewExpense | backend/routes/expenses.js:95-100 | definition: a non-negative amount, a valid description, a type of 'expense' or 'income' when given, and an ISO date |
| ExpenseRoutes.ValidPatch | backend/routes/expenses.js:147-152 | definition: the same checks, each only when its field is supplied |
| ExpenseRoutes.TrimStart | backend/routes/expenses.js:97 | removes exactly the leading JavaScript white space |
| ExpenseRoutes.TrimEnd | backend/routes/expenses.js:97 | removes exactly the trailing JavaScript white space |
| ExpenseRoutes.NewTransaction | backend/routes/expenses.js:108-126 | the inserted type is the given one, or 'expense' when none is given |
| ExpenseRoutes.ResolveIfNamed | backend/routes/expenses.js:110-120 | a falsy category leaves `category_id` NULL and the categories unchanged; a named one resolves to an id found under that name |
| ExpenseRoutes.CreateExpense | backend/routes/expenses.js:95-144 | invalid body: rejected, nothing written; otherwise the category is resolved and one caller-owned row with the next id is appended and returned joined; the expense counter advances by one, the category counter only when a category was inserted, the others stay |
| ExpenseRoutes.CreateThenGet | backend/routes/expenses.js:123-134 | the created row is what a later get by id returns |
| ExpenseRoutes.FindTargetAfter | backend/routes/expenses.js:163-167 | a freshly inserted caller row is the one the owner-checked lookup finds |
| ExpenseRoutes.AssignmentOf | backend/routes/expenses.js:182-207 | definition: the SET list: each supplied column with the trimmed description and parsed type, always `category_id`, always `updated_at` |
| ExpenseRoutes.Assign | backend/routes/expenses.js:181-214 | the SET list always writes category and updated_at and keeps created_at |
| ExpenseRoutes.AssignWritesOnlySupplied | backend/routes/expenses.js:181-207 | only supplied columns change (description trimmed); category always rewritten, NULL without a category; updated_at refreshed |
| ExpenseRoutes.UpdateExpense | backend/routes/expenses.js:147-232 | invalid body: rejected, nothing written; not the caller's: not found, nothing written; otherwise resolve, update only the (id, caller) row, read back by id; the category counter advances only when a category was inserted, the other counters stay |
| ExpenseRoutes.ApplyUpdate | backend/routes/expenses.js:169-222 | for a valid patch on the caller's row: the category is resolved, only the (id, caller) row is rewritten, and the row read back by id is returned; the category counter advances only when a category was inserted, the other counters stay |
| ExpenseRoutes.DeleteExpense | backend/routes/expenses.js:235-253 | not the caller's: not found, nothing written; otherwise only that row is removed |
| ExpenseRoutes.DeleteIsScoped | backend/routes/expenses.js:246 | a deleted row leaves the caller's listings, and no other user's sums change |
| ExpenseRoutes.WindowOf | backend/routes/expenses.js:274-277 | the date window applies only when both bounds are given |
| ExpenseRoutes.LargerFirst | backend/routes/expenses.js:299 | definition: `ORDER BY total DESC` |
| ExpenseRoutes.LargerFirstIsTotalPreorder | backend/routes/expenses.js:299 | `ORDER BY total DESC` is a total preorder |
| ExpenseRoutes.CategoryTotals | backend/routes/expenses.js:294-298 | one total per category row, the caller's expense sum in that category and window |
| ExpenseRoutes.Dashboard | backend/routes/expenses.js:267-323 | totals are the caller's windowed expense and income sums; balance is their difference; breakdown is every category total, sorted descending; the recent list is the listing with no filter and limit 10: the caller's rows newest first, and a row left out means 10 rows at least as new were listed |
| ExpenseRoutes.RecentIgnoresWindow | backend/routes/expenses.js:303-310 | the recent list is the same whatever the date window |
| ExpenseRoutes.EmptyDashboard | backend/routes/expenses.js:281 | with no transactions every figure and category total is 0 |
| ExpenseRoutes.DashboardIgnoresOtherUsers | backend/routes/expenses.js:280-310 | the dashboard depends only on the caller's rows |
| AnalyticsRoutes.LaterFirst | backend/routes/analytics.js:36 | definition: `ORDER BY month DESC` on YYYY-MM keys |
| AnalyticsRoutes.Summarize | backend/routes/analytics.js:30-32 | definition: one month's line: its expense sum and its income sum, 0 for a kind with no rows |
| AnalyticsRoutes.ReportedMonths | backend/routes/analytics.js:35-37 | definition: the distinct month keys, latest first, at most six |
| AnalyticsRoutes.MonthsOf | backend/routes/analytics.js:30-34 | the month keys are exactly the `strftime` months (overflowing days rolled into the next month) in which the caller has a row |
| AnalyticsRoutes.LaterFirstIsTotalPreorder | backend/routes/analytics.js:36 | `ORDER BY month DESC` is a total preorder |
| AnalyticsRoutes.ReportedMonthsAreLatest | backend/routes/analytics.js:35-37 | at most six months, distinct, latest first; a month left out means six later months were kept |
| AnalyticsRoutes.Monthly | backend/routes/analytics.js:26-44 | at most six entries with distinct, descending months, each with a caller row, each with that month's expense and income sums, with overflowing days counted in the next month; a left-out month is older than all six |
| AnalyticsRoutes.ExpenseKeys | backend/routes/analytics.js:52-54 | every caller expense's group key is collected, and only such keys |
| AnalyticsRoutes.ShareOf | backend/routes/analytics.js:50-54 | definition: one group's line: the category name, NULL for the uncategorised group, and the group's expense sum |
| AnalyticsRoutes.SharesOf | backend/routes/analytics.js:50 | one line per key, each that group's sum |
| AnalyticsRoutes.LargerShareFirstIsTotalPreorder | backend/routes/analytics.js:55 | `ORDER BY total DESC` is a total preorder |
| AnalyticsRoutes.ReportKeysComplete | backend/routes/analytics.js:54 | one line per group, none repeated, each a group of the caller's expenses, and every caller expense's group present |
| AnalyticsRoutes.ReorderedShares | backend/routes/analytics.js:55 | sorting the report keeps each line and keeps the keys distinct |
| AnalyticsRoutes.CategoryReport | backend/routes/analytics.js:47-62 | sorted by total descending; each line is its group's sum over the caller's expenses; every group present once (uncategorised rows grouped together) |
| AnalyticsRoutes.TotalOfConcat | backend/routes/analytics.js:50 | report totals add up over parts |
| AnalyticsRoutes.TotalOfPermutation | backend/routes/analytics.js:55 | reordering the report keeps its grand total |
| AnalyticsRoutes.RowInOneGroup | backend/routes/analytics.js:54 | each expense row's amount lands in exactly one group |
| AnalyticsRoutes.NoGroupHasIt | backend/routes/analytics.js:54 | a row whose key is not listed adds to no group |
| AnalyticsRoutes.SharesOfCons | backend/routes/analytics.js:50 | one more row adds its share to the report's grand total |
| AnalyticsRoutes.GroupsPartition | backend/routes/analytics.js:49-55 | the groups partition the caller's expenses |
| AnalyticsRoutes.EmptyShares | backend/routes/analytics.js:50 | with no rows every group is 0 |
| AnalyticsRoutes.CategoryReportAddsUp | backend/routes/analytics.js:49-55 | the report's totals add up to the caller's all-time expense total |
| AnalyticsRoutes.ReportsIgnoreOtherUsers | backend/routes/analytics.js:29-56 | both reports depend only on the caller's rows |
| AnalyticsRoutes.MonthsOwnRows | backend/routes/analytics.js:34 | the month keys depend only on the caller's rows |
| AnalyticsRoutes.KeysOwnRows | backend/routes/analytics.js:53 | the group keys depend only on the caller's rows |
| BudgetRoutes.JoinBudget | backend/routes/budgets.js:29-31 | the LEFT JOIN finds the category exactly when a row with that id exists |
| BudgetRoutes.JoinAll | backend/routes/budgets.js:29-31 | every budget is joined, in order |
| BudgetRoutes.NewestFirst | backend/routes/budgets.js:33 | definition: `ORDER BY b.id DESC` |
| BudgetRoutes.NewestFirstIsTotalPreorder | backend/routes/budgets.js:33 | `ORDER BY b.id DESC` is a total preorder |
| BudgetRoutes.ListBudgets | backend/routes/budgets.js:26-41 | sorted by id descending; exactly the caller's budgets, each joined |
| BudgetRoutes.CreateBudget | backend/routes/budgets.js:44-67 | no category or falsy amount: rejected, nothing written; otherwise the category is resolved and one caller-owned budget appended, with period 'monthly' when falsy; the budget counter advances by one, the category counter only when a category was inserted |
| BudgetRoutes.PatchOf | backend/routes/budgets.js:76-77 | definition: the truthy amount and period of the body, the others dropped |
| BudgetRoutes.ApplyBudgetPatch | backend/routes/budgets.js:76-77 | only amount and period can change; the category never does |
| BudgetRoutes.UpdateBudget | backend/routes/budgets.js:70-87 | neither truthy amount nor period: rejected, nothing written; otherwise only the caller's row changes and the row is read back by id |
| BudgetRoutes.UpdateOfOthersBudgetReadsItBack | backend/routes/budgets.js:80-81 | naming another user's budget changes nothing, and that user's budget is returned |
| BudgetRoutes.DeleteBudget | backend/routes/budgets.js:90-99 | always succeeds; removes only the caller's row with that id |
| BudgetRoutes.BudgetWritesAreScoped | backend/routes/budgets.js:80-93 | other users' budgets are untouched by update and delete |
| GoalRoutes.EarliestDeadlineFirst | backend/routes/goals.js:29 | definition: `ORDER BY deadline ASC`, NULL first |
| GoalRoutes.EarliestDeadlineFirstIsTotalPreorder | backend/routes/goals.js:29 | `ORDER BY deadline ASC` (NULL first) is a total preorder |
| GoalRoutes.ListGoals | backend/routes/goals.js:26-37 | sorted by deadline; a permutation of exactly the caller's goals |
| GoalRoutes.UndatedGoalsFirst | backend/routes/goals.js:29 | a goal without a deadline is listed before every goal with one |
| GoalRoutes.CreateGoal | backend/routes/goals.js:40-54 | no name or falsy target: rejected, nothing written; otherwise one caller-owned goal with progress 0 |
| GoalRoutes.HasUpdates | backend/routes/goals.js:63-67 | definition: a truthy name, target or current amount, or a deadline |
| GoalRoutes.ApplyGoalPatch | backend/routes/goals.js:63-66 | only truthy fields are written |
| GoalRoutes.UpdateGoal | backend/routes/goals.js:57-76 | no truthy field: rejected, nothing written; otherwise only the caller's row changes and the row is read back by id |
| GoalRoutes.ZeroProgressIsNotWritten | backend/routes/goals.js:65 | a zero progress is never written: alone it is rejected, with other fields it is skipped |
| GoalRoutes.DeleteGoal | backend/routes/goals.js:79-88 | always succeeds; removes only the caller's row with that id |
| GoalRoutes.GoalWritesAreScoped | backend/routes/goals.js:69-82 | other users' goals are untouched by update and delete |
| ClientStore.MergeById | backend/src/contexts/ExpenseContext.js:121-123 | records with the id get the patch merged in; every other record and the length are unchanged |
| ClientStore.RemoveById | backend/src/contexts/ExpenseContext.js:132 | no record with the id remains |
| ClientStore.RemoveByIdMembers | backend/src/contexts/ExpenseContext.js:132 | exactly the records with other ids remain |
| ClientStore.RemoveByIdDistributes | backend/src/contexts/ExpenseContext.js:193 | the survivors keep their order |
| ClientStore.RemoveAbsentId | backend/src/contexts/ExpenseContext.js:132 | removing an id no record has changes nothing |
| ClientStore.AddThenRemove | backend/src/contexts/ExpenseContext.js:105-137 | adding under a fresh id and deleting it restores the list |
| ClientStore.MergeAbsentId | backend/src/contexts/ExpenseContext.js:182-184 | merging into an id no record has changes nothing |
| ClientStore.MergeExpense | backend/src/contexts/ExpenseContext.js:122 | `{ ...exp, ...expenseData }`: supplied fields win, absent ones are kept |
| ClientStore.MergeCategory | backend/src/contexts/ExpenseContext.js:183 | supplied fields win, absent ones are kept; an empty patch changes nothing |
| ClientStore.Store.constructor | backend/src/contexts/ExpenseContext.js:15-18 | the provider starts with four empty lists |
| ClientStore.Store.AddExpense | backend/src/contexts/ExpenseContext.js:105-117 | exactly one new record in front, the old list after it; the other lists unchanged |
| ClientStore.Store.UpdateExpense | backend/src/contexts/ExpenseContext.js:119-128 | the expenses are merged by id; the other lists unchanged |
| ClientStore.Store.DeleteExpense | backend/src/contexts/ExpenseContext.js:130-137 | the expenses with the id are removed; the other lists unchanged |
| ClientStore.Store.AddBudget | backend/src/contexts/ExpenseContext.js:139-151 | one budget appended whose spent is 0 whatever was supplied; the other lists unchanged |
| ClientStore.Store.AddGoal | backend/src/contexts/ExpenseContext.js:153-165 | one goal appended whose progress is 0 whatever was supplied; the other lists unchanged |
| ClientStore.Store.AddCategory | backend/src/contexts/ExpenseContext.js:167-178 | one category appended; the other lists unchanged |
| ClientStore.Store.UpdateCategory | backend/src/contexts/ExpenseContext.js:180-189 | the categories are merged by id; the other lists unchanged |
| ClientStore.Store.DeleteCategory | backend/src/contexts/ExpenseContext.js:191-198 | the categories with the id are removed; expenses and budgets keep the name |
| ClientTotals.TotalOf | backend/src/components/Dashboard.js:37-43 | definition: `filter(type === kind).reduce(sum + amount, 0)` |
| ClientTotals.SpentIn | backend/src/components/Budgets.js:22 | definition: `exp.category === name && exp.type === 'expense'` |
| ClientTotals.SpentOn | backend/src/components/Budgets.js:21-23 | definition: the sum of the amounts `SpentIn` keeps |
| ClientTotals.CountOn | backend/src/components/Categories.js:100 | a count never exceeds the list |
| ClientTotals.TotalsConcat | backend/src/components/Dashboard.js:37-43 | the sums over two parts of the list add up |
| ClientTotals.AddedTransactionCounts | backend/src/components/Budgets.js:21-23 | a new transaction moves only its own kind's total and its own category's spending, by its amount |
| ClientTotals.SpentOnAtMostTotal | backend/src/components/Budgets.js:21-23 | income never counts as spending: a category's spending is at most the expense total |
| ClientTotals.NoCountNoSpending | backend/src/components/Categories.js:97-103 | a category with no expenses has spent nothing |
| ClientTotals.KindsPartition | backend/src/components/Dashboard.js:37-43 | the expense and income totals account for every amount exactly once |
| ClientTotals.Totals | backend/src/components/Dashboard.js:37-45 | the two totals by kind, and balance = income − expenses |
| ClientTotals.AddedTransactionMovesBalance | backend/src/components/Dashboard.js:45 | a new expense lowers the balance by its amount, a new income raises it |
| ClientTotals.CategoryChart | backend/src/components/Analytics.js:41-50 | no more slices than categories; each slice has a positive value equal to that category's spending, and the category's name and colour; every category with positive spending has one |
| ClientTotals.CategoryChartFollowsOrder | backend/src/components/Dashboard.js:48-57 | the slices follow the category order |
| BudgetsView.BudgetProgress | backend/src/components/Budgets.js:20-29 | spent is the category's expense-type sum; percentage × amount = spent × 100; spent + remaining = amount |
| BudgetsView.ProgressMeaning | backend/src/components/Budgets.js:25-26 | for a positive budget, over 100 % exactly when remaining is negative, and at least t % exactly when spent reaches t hundredths of it |
| BudgetsView.BudgetTone | backend/src/components/Budgets.js:31-35 | 'error' iff ≥ 90, 'success' iff < 70, 'warning' otherwise |
| BudgetsView.BudgetToneMonotone | backend/src/components/Budgets.js:31-35 | the colour never gets milder as the percentage grows |
| BudgetsView.BarValue | backend/src/components/Budgets.js:92 | the bar value is the percentage capped at 100 |
| BudgetsView.IncomeDoesNotSpendBudget | backend/src/components/Budgets.js:22 | income in the budget's category leaves its progress unchanged |
| GoalsView.MarchFirst | backend/src/components/Goals.js:54 | definition: the day number of the 1st of March of a year, in 400-year eras of 146097 days |
| GoalsView.DayOfMarchYear | backend/src/components/Goals.js:54 | definition: the days from the 1st of March to a date, months counted from March |
| GoalsView.EpochDay | backend/src/components/Goals.js:54 | definition: the day number from 1970-01-01 of a date in the proleptic Gregorian calendar |
| GoalsView.EpochIsDayZero | backend/src/components/Goals.js:54 | 1970-01-01 is day 0, and 2024-03-01 is day 19783 |
| GoalsView.NextDayIsOneLater | backend/src/components/Goals.js:54 | consecutive dates are one day apart |
| GoalsView.NextMonthIsOneLater | backend/src/components/Goals.js:54 | the first of a month is one day after the last day of the month before |
| GoalsView.MarchFollowsFebruary | backend/src/components/Goals.js:54 | the 1st of March is one day after the 28th of February, or the 29th in a leap year |
| GoalsView.YearLength | backend/src/components/Goals.js:54 | a March-based year has 365 days, or 366 when its February has a 29th |
| GoalsView.NextYearIsOneLater | backend/src/components/Goals.js:54 | the 1st of January is one day after the 31st of December |
| GoalsView.DeadlineMs | backend/src/components/Goals.js:54 | definition: `new Date(deadline)` for a date-only string: midnight UTC of that day, in milliseconds |
| GoalsView.CeilDiv | backend/src/components/Goals.js:54 | `Math.ceil(a / b)` is the least r with a ≤ r·b |
| GoalsView.CeilDivExact | backend/src/components/Goals.js:54 | whole days need no rounding |
| GoalsView.GoalProgress | backend/src/components/Goals.js:51-57 | percentage × target = current × 100; current + remaining = target; daysLeft is the ceiling of the time to the deadline in days |
| GoalsView.DaysLeftShownBeforeDeadline | backend/src/components/Goals.js:136 | the days-left text shows exactly while the deadline is ahead |
| GoalsView.GoalTone | backend/src/components/Goals.js:59-63 | 'success' iff ≥ 80, 'error' iff < 50, 'warning' otherwise |
| GoalsView.GoalToneMonotone | backend/src/components/Goals.js:59-63 | the colour never gets more alarming as progress grows |
| GoalsView.ReachedGoalIsSuccess | backend/src/components/Goals.js:51-63 | a goal reached or passed is a success |
| GoalsView.Complete | backend/src/components/Goals.js:41 | definition: `formData.name && formData.target && formData.deadline` |
| GoalsView.GoalsPage.constructor | backend/src/components/Goals.js:24-29 | dialog closed, empty form |
| GoalsView.GoalsPage.OpenDialog | backend/src/components/Goals.js:31-33 | the dialog opens and the form is kept |
| GoalsView.GoalsPage.CloseDialog | backend/src/components/Goals.js:35-38 | the dialog closes and the form is emptied |
| GoalsView.GoalsPage.Submit | backend/src/components/Goals.js:40-49 | a complete form adds one goal with progress 0 and closes the dialog; otherwise nothing changes |
| DashboardView.Recent | backend/src/components/Dashboard.js:70 | the first min(5, n) transactions in list order |
| DashboardView.AddedTransactionIsMostRecent | backend/src/components/Dashboard.js:70 | a new transaction is shown first and the oldest of five drops out |
| DashboardView.SavingsRate | backend/src/components/Dashboard.js:161 | rate × income = balance × 100 when income is positive, else 0 |
| DashboardView.SavingsRateAtMostAll | backend/src/components/Dashboard.js:161 | with non-negative amounts the rate is at most 100, and exactly 100 when nothing was spent |
| DashboardView.ExpenseTotalNonNegative | backend/src/components/Dashboard.js:37-39 | with non-negative amounts the expense total is non-negative |
| DashboardView.BudgetLines | backend/src/components/Dashboard.js:73-79 | one line per budget keeping its id, category, amount and period, with spent replaced by the category's spending and percentage × amount = spent × 100 |
| DashboardView.BudgetLinesAgreeWithBudgetsPage | backend/src/components/Dashboard.js:73-79 | the Dashboard and the Budgets page agree on each budget's spending and percentage |
| DashboardView.DashboardTone | backend/src/components/Dashboard.js:241 | 'error' iff > 90, 'success' iff ≤ 70, 'warning' otherwise |
| DashboardView.TonesDifferOnlyAtThresholds | backend/src/components/Dashboard.js:241 | the two pages' colours differ exactly at 90 and 70, where the Dashboard's is milder |
| ExpensesView.Net | backend/src/components/Expenses.js:102-160 | net = income total − expense total, the Dashboard's balance |
| ExpensesView.DeletedTransactionLeavesNet | backend/src/components/Expenses.js:96-100 | deleting a transaction with a unique id removes just it, and moves the net by its amount |
| ExpensesView.BlankForm | backend/src/components/Expenses.js:66-72 | empty amount, description and category; today's date; type 'expense' |
| ExpensesView.FullPatchOverwrites | backend/src/components/Expenses.js:82-88 | saving an edit replaces every field of the record |
| ExpensesView.ExpensesPage.constructor | backend/src/components/Expenses.js:43-51 | dialog closed, nothing edited, blank form |
| ExpensesView.ExpensesPage.OpenDialog | backend/src/components/Expenses.js:53-73 | with a transaction, copy it into the form and edit it; without, a blank form; the dialog opens |
| ExpensesView.ExpensesPage.CloseDialog | backend/src/components/Expenses.js:76-79 | the dialog closes and nothing is edited |
| ExpensesView.ExpensesPage.Submit | backend/src/components/Expenses.js:81-94 | while editing, the form overwrites that record; otherwise it is added in front; the dialog closes |
| ExpensesView.ExpensesPage.Delete | backend/src/components/Expenses.js:96-100 | the transaction is deleted only once confirmed |
| ExpensesView.EditReplacesRecord | backend/src/components/Expenses.js:87-88 | editing a record with a unique id replaces it in place and nothing else |
| CategoriesView.CategoryStats | backend/src/components/Categories.js:97-103 | the category's expense-type sum and count; a count of 0 means a total of 0 |
| CategoriesView.SharePercent | backend/src/components/Categories.js:166 | share × all spending = category spending × 100 |
| CategoriesView.ShareIsAPercentage | backend/src/components/Categories.js:166 | with non-negative amounts every share is between 0 and 100 |
| CategoriesView.FullPatchOverwrites | backend/src/components/Categories.js:66-67 | saving an edit replaces name, colour and icon |
| CategoriesView.CategoriesPage.constructor | backend/src/components/Categories.js:30-38 | dialog and menu closed; form empty name, '#4CAF50', '📁' |
| CategoriesView.CategoriesPage.OpenDialog | backend/src/components/Categories.js:40-57 | with a category, copy it and edit it; without, the blank form; the dialog opens |
| CategoriesView.CategoriesPage.CloseDialog | backend/src/components/Categories.js:59-62 | the dialog closes and nothing is edited |
| CategoriesView.CategoriesPage.Submit | backend/src/components/Categories.js:64-73 | no name: nothing happens; otherwise overwrite the edited category or add one, then close |
| CategoriesView.CategoriesPage.MenuOpen | backend/src/components/Categories.js:75-78 | the menu opens on that category |
| CategoriesView.CategoriesPage.MenuClose | backend/src/components/Categories.js:80-83 | the menu closes and forgets its category |
| CategoriesView.CategoriesPage.Delete | backend/src/components/Categories.js:85-90 | deletes only with a category selected and the confirmation accepted, then closes the menu |
| CategoriesView.CategoriesPage.Edit | backend/src/components/Categories.js:92-95 | the menu closes and the dialog opens on the category the menu was opened for |

## Left out

- Authentication: the JWT check in every route file, `backend/routes/auth.js` and the user table. The caller's user id is a parameter.
- `backend/database.js`: the driver, the schema text and the demo seeding. Its column defaults appear as constants.
- The demo data the provider loads on mount, and its loading flag.
- The `{ success }` results and `try`/`catch` of the provider's operations. None of them can fail on the modelled values.
- Server errors (HTTP 500) and the exact HTTP statuses.
- SQL text building: the model states what each query selects and writes.
- The tie order among equal sort keys, which SQLite leaves unspecified. The model sorts stably.
- JavaScript number behaviour: floating-point rounding, `NaN` and `Infinity`. Amounts are exact reals.
- Division by zero: `BudgetsView.BudgetProgress`, `GoalsView.GoalProgress`, `DashboardView.BudgetLines` and `CategoriesView.SharePercent` require a non-zero denominator. The source divides without a guard and shows `Infinity` or `NaN`.
- `parseFloat`, `parseInt` of `limit`, `toString` and `toFixed`. Parsed numbers and the text of an amount are parameters, and display rounding is not modelled.
- The time of day in stored dates and timezones. A date-only deadline is read as UTC midnight.
- The validator's full ISO 8601 grammar. A date is valid when its year, month and day are in range.
- ExpenseRoutes.ListExpenses, ExpenseRoutes.Dashboard and ExpenseRoutes.WindowOf take `startDate` and `endDate` as dates. The source passes the raw query strings unchecked and SQL compares them as text, so a partial bound such as `2024-03` (which drops every March row as an end bound) is not modelled.
- GoalRoutes.CreateGoal, GoalRoutes.UpdateGoal and GoalRoutes.ListGoals take the deadline as a date. The source stores any string unchecked and sorts it as text, so a deadline such as `soon` is not modelled.
- The validator's float parsing. An amount arrives as a number or not at all.
- Lengths in UTF-16 code units: `description` is measured in characters.
- recharts rendering, pie labels and colour lists, and the hard-coded `monthlyData` and `spendingTrends` constants.
- Layout, Login, Profile and App: navigation and presentation only.
- The form field edits (`onChange` handlers): the models start from the form state they produce.
- An `id` inside a submitted patch or new record would override the record's id through object spread. Forms never send one, so the model leaves it out.
- ClientStore.Store.UpdateExpense: the source's `updateExpense` spreads any fields, while the model merges the five transaction fields only.
