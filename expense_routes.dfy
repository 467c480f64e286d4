/** The transaction ledger routes: filtered listing, get by id, create with
    category get-or-create, partial update, owner-checked delete, the list
    of all categories and the dashboard statistics. The caller's user id is
    what the token check resolved; `now` stands for CURRENT_TIMESTAMP. */
module ExpenseRoutes {
  import opened Base
  import opened Sorting
  import opened Tables
  import opened CategoryResolver
  import opened Aggregates
  import opened CategoryRoutes

  /** `e.*` with `c.name, c.color, c.icon` of the LEFT JOINed category. */
  datatype ExpenseView = ExpenseView(row: Row<Transaction>, category: Option<Category>)

  function Join(row: Row<Transaction>, cats: seq<Row<Category>>): ExpenseView {
    match JoinedCategoryId(row.fields, cats)
    case None => ExpenseView(row, None)
    case Some(cid) => ExpenseView(row, Some(FindById(cats, cid).value.fields))
  }

  /** `ORDER BY e.date DESC, e.created_at DESC` */
  predicate NewerFirst(a: ExpenseView, b: ExpenseView) {
    var x, y := a.row.fields, b.row.fields;
    (DateLe(y.date, x.date) && x.date != y.date) || (x.date == y.date && x.createdAt >= y.createdAt)
  }

  lemma NewerFirstIsTotalPreorder()
    ensures TotalPreorder(NewerFirst)
  {
    forall a, b, c | NewerFirst(a, b) && NewerFirst(b, c) ensures NewerFirst(a, c) {
      DateLeIsTotalOrder(a.row.fields.date, b.row.fields.date, c.row.fields.date);
      DateLeIsTotalOrder(c.row.fields.date, b.row.fields.date, a.row.fields.date);
      DateLeIsTotalOrder(a.row.fields.date, c.row.fields.date, b.row.fields.date);
    }
    forall a, b ensures NewerFirst(a, b) || NewerFirst(b, a) {
      DateLeIsTotalOrder(a.row.fields.date, b.row.fields.date, b.row.fields.date);
    }
  }

  // ---------------------------------------------------------------- listing

  /** The query string of `GET /api/expenses`. An empty `type` or `category`
      is falsy and adds no condition; `limit` defaults to 50. */
  datatype ExpenseQuery = ExpenseQuery(
    kind: Option<string>,
    category: Option<string>,
    startDate: Option<Date>,
    endDate: Option<Date>,
    limit: Option<int>)

  const DefaultLimit := 50

  /** Each supplied filter is one `AND` condition; each date bound applies on its own. */
  predicate Matches(v: ExpenseView, q: ExpenseQuery) {
    && (Truthy(q.kind) ==> KindName(v.row.fields.kind) == q.kind.value)
    && (Truthy(q.category) ==> v.category.Some? && v.category.value.name == q.category.value)
    && (q.startDate.Some? ==> DateLe(q.startDate.value, v.row.fields.date))
    && (q.endDate.Some? ==> DateLe(v.row.fields.date, q.endDate.value))
  }

  /** The `WHERE` part of the listing: the caller's joined rows that match. */
  function Selected(rows: seq<Row<Transaction>>, cats: seq<Row<Category>>, userId: nat, q: ExpenseQuery): (r: seq<ExpenseView>)
    ensures |r| <= |rows|
    ensures forall v :: v in r ==> v.row in rows && OwnedBy(v.row, userId) && v == Join(v.row, cats) && Matches(v, q)
    ensures forall i :: 0 <= i < |rows| && OwnedBy(rows[i], userId) && Matches(Join(rows[i], cats), q) ==>
              Join(rows[i], cats) in r
  {
    if rows == [] then []
    else
      var v := Join(rows[0], cats);
      var rest := Selected(rows[1..], cats, userId, q);
      assert forall i :: 1 <= i < |rows| ==> rows[i] == rows[1..][i - 1];
      (if OwnedBy(rows[0], userId) && Matches(v, q) then [v] else []) + rest
  }

  lemma {:induction false} SelectedOwnRows(rows: seq<Row<Transaction>>, cats: seq<Row<Category>>, userId: nat, q: ExpenseQuery)
    ensures Selected(rows, cats, userId, q) == Selected(RowsOf(rows, userId), cats, userId, q)
  {
    if rows != [] {
      SelectedOwnRows(rows[1..], cats, userId, q);
      var own := RowsOf(rows, userId);
      if OwnedBy(rows[0], userId) {
        assert own == [rows[0]] + RowsOf(rows[1..], userId);
        assert own[0] == rows[0] && own[1..] == RowsOf(rows[1..], userId);
      } else {
        assert own == RowsOf(rows[1..], userId);
      }
    }
  }

  /** `GET /api/expenses`: the caller's matching rows, newest date first
      (ties: newest creation first), at most `limit` of them. */
  function ListExpenses(rows: seq<Row<Transaction>>, cats: seq<Row<Category>>, userId: nat, q: ExpenseQuery): (r: seq<ExpenseView>)
    ensures SortedBy(r, NewerFirst)
    ensures forall v :: v in r ==> v.row in rows && OwnedBy(v.row, userId) && v == Join(v.row, cats) && Matches(v, q)
    ensures q.limit.GetOr(DefaultLimit) >= 0 ==> |r| <= q.limit.GetOr(DefaultLimit)
    ensures q.limit.GetOr(DefaultLimit) < 0 || |Selected(rows, cats, userId, q)| <= q.limit.GetOr(DefaultLimit) ==>
              forall i :: 0 <= i < |rows| && OwnedBy(rows[i], userId) && Matches(Join(rows[i], cats), q) ==>
                Join(rows[i], cats) in r
    ensures multiset(r) <= multiset(Selected(rows, cats, userId, q))
    ensures forall v :: v in Selected(rows, cats, userId, q) && v !in r ==>
              |r| == q.limit.GetOr(DefaultLimit) && forall y :: y in r ==> NewerFirst(y, v)
  {
    var s := Selected(rows, cats, userId, q);
    var n := q.limit.GetOr(DefaultLimit);
    NewerFirstIsTotalPreorder();
    OrderedPrefix(s, n, NewerFirst);
    var r := Take(SortBy(s, NewerFirst), n);
    MultisetSubsetMembers(r, s);
    assert forall v :: v in s && v !in r ==> |r| == n && forall y :: y in r ==> NewerFirst(y, v) by {
      forall v | v in s && v !in r ensures |r| == n && forall y :: y in r ==> NewerFirst(y, v) {
        OrderedPrefixDominates(s, n, NewerFirst, v);
      }
    }
    assert n < 0 || |s| <= n ==> forall v :: v in s ==> v in r by {
      if n < 0 || |s| <= n {
        forall v | v in s ensures v in r {
          assert v in multiset(s);
        }
      }
    }
    r
  }

  /** `GET /api/expenses/:id` */
  function GetExpense(rows: seq<Row<Transaction>>, cats: seq<Row<Category>>, userId: nat, id: nat): (r: Result<ExpenseView>)
    ensures r.Err? <==> !HasTarget(rows, id, userId)
    ensures r.Err? ==> r.error == NotFoundError
    ensures r.Ok? ==> IsTarget(r.value.row, id, userId) && r.value.row in rows && r.value == Join(r.value.row, cats)
  {
    match FindTarget(rows, id, userId)
    case None => Err(NotFoundError)
    case Some(row) => Ok(Join(row, cats))
  }

  // ------------------------------------------------------------ validation

  /** The characters JavaScript's `String.prototype.trim` removes. */
  predicate IsJsSpace(c: char) {
    || c == ' ' || c == '\t' || c == '\n' || c == '\r' || c == '\U{000B}' || c == '\U{000C}'
    || c == '\U{00A0}' || c == '\U{1680}' || ('\U{2000}' <= c <= '\U{200A}')
    || c == '\U{2028}' || c == '\U{2029}' || c == '\U{202F}' || c == '\U{205F}'
    || c == '\U{3000}' || c == '\U{FEFF}'
  }

  function TrimStart(s: string): (r: string)
    ensures |r| <= |s| && r == s[|s| - |r|..]
    ensures r != [] ==> !IsJsSpace(r[0])
    ensures forall i :: 0 <= i < |s| - |r| ==> IsJsSpace(s[i])
  {
    if s != [] && IsJsSpace(s[0]) then
      var r := TrimStart(s[1..]);
      assert s[1..][|s| - 1 - |r|..] == s[|s| - |r|..];
      assert forall i :: 1 <= i < |s| - |r| ==> s[i] == s[1..][i - 1];
      r
    else s
  }

  function TrimEnd(s: string): (r: string)
    ensures |r| <= |s| && r == s[..|r|]
    ensures r != [] ==> !IsJsSpace(r[|r| - 1])
    ensures forall i :: |r| <= i < |s| ==> IsJsSpace(s[i])
  {
    if s != [] && IsJsSpace(s[|s| - 1]) then TrimEnd(s[..|s| - 1]) else s
  }

  /** The `trim()` sanitizer the validator applies to `description`. */
  function Trim(s: string): string {
    TrimEnd(TrimStart(s))
  }

  function TrimmedDescription(d: Option<string>): Option<string> {
    match d
    case None => None
    case Some(s) => Some(Trim(s))
  }

  predicate DescriptionOk(d: Option<string>) {
    d.Some? ==> |Trim(d.value)| <= 255
  }

  /** The body of `POST /api/expenses`. */
  datatype NewExpense = NewExpense(
    amount: Option<real>,
    description: Option<string>,
    category: Option<string>,
    kind: Option<string>,
    date: Option<Date>)

  /** The validation chain: a non-negative amount, a description of at most
      255 characters after trimming, a type of 'expense' or 'income' when
      given, and an ISO 8601 date. */
  predicate ValidNewExpense(req: NewExpense) {
    && req.amount.Some? && req.amount.value >= 0.0
    && DescriptionOk(req.description)
    && (req.kind.Some? ==> ParseKind(req.kind.value).Some?)
    && req.date.Some? && IsIsoDate(req.date.value)
  }

  /** The inserted columns; `type` defaults to 'expense'. */
  function NewTransaction(req: NewExpense, categoryId: Option<nat>, now: nat): (t: Transaction)
    requires ValidNewExpense(req)
    ensures t.kind == Expense <== req.kind.None?
    ensures req.kind.Some? ==> KindName(t.kind) == req.kind.value
  {
    var kind := if req.kind.Some? then ParseKind(req.kind.value).value else Expense;
    Transaction(req.amount.value, TrimmedDescription(req.description), categoryId, kind, req.date.value, now, now)
  }

  /** `if (category)`: a falsy name resolves nothing and leaves category_id NULL. */
  function ResolveIfNamed(cats: seq<Row<Category>>, name: Option<string>, userId: nat, freshId: nat): (r: (Option<nat>, seq<Row<Category>>))
    ensures !Truthy(name) ==> r == (None, cats)
    ensures Truthy(name) ==> r.0.Some? && FindByName(r.1, name.value) == r.0
  {
    if Truthy(name) then
      var res := Resolve(cats, name.value, userId, freshId);
      (Some(res.id), res.categories)
    else (None, cats)
  }

  // ------------------------------------------------------------- mutations

  /** `POST /api/expenses` */
  method CreateExpense(db: Db, userId: nat, req: NewExpense, now: nat) returns (r: Result<ExpenseView>)
    requires db.Valid()
    modifies db
    ensures db.Valid()
    ensures !ValidNewExpense(req) ==> r == Err(ValidationError) && unchanged(db)
    ensures ValidNewExpense(req) ==>
              var res := ResolveIfNamed(old(db.categories), req.category, userId, old(db.nextCategoryId));
              var row := Row(old(db.nextExpenseId), Some(userId), NewTransaction(req, res.0, now));
              && db.categories == res.1
              && db.expenses == old(db.expenses) + [row]
              && r == Ok(Join(row, db.categories))
    ensures db.budgets == old(db.budgets) && db.goals == old(db.goals)
    ensures ValidNewExpense(req) ==> db.nextExpenseId == old(db.nextExpenseId) + 1
    ensures db.nextCategoryId == if db.categories == old(db.categories) then old(db.nextCategoryId) else old(db.nextCategoryId) + 1
    ensures db.nextBudgetId == old(db.nextBudgetId) && db.nextGoalId == old(db.nextGoalId)
  {
    if !ValidNewExpense(req) {
      return Err(ValidationError);
    }
    var categoryId: Option<nat> := None;
    if Truthy(req.category) {
      var id := ResolveCategory(db, userId, req.category.value);
      categoryId := Some(id);
    }
    var id := db.nextExpenseId;
    var row := Row(id, Some(userId), NewTransaction(req, categoryId, now));
    AppendFreshKeepsIdsDistinct(db.expenses, db.nextExpenseId, row);
    db.expenses := db.expenses + [row];
    db.nextExpenseId := id + 1;
    r := Ok(Join(row, db.categories));
  }

  /** Creating then reading back by id returns exactly the inserted row,
      joined with its category. */
  lemma CreateThenGet(rows: seq<Row<Transaction>>, cats: seq<Row<Category>>, userId: nat, row: Row<Transaction>)
    requires row.owner == Some(userId)
    requires IdsBelow(rows, row.id)
    ensures GetExpense(rows + [row], cats, userId, row.id) == Ok(Join(row, cats))
  {
    var all := rows + [row];
    assert !HasTarget(rows, row.id, userId);
    FindTargetAfter(rows, row, userId);
  }

  lemma {:induction false} FindTargetAfter<T>(rows: seq<Row<T>>, row: Row<T>, userId: nat)
    requires row.owner == Some(userId)
    requires !HasTarget(rows, row.id, userId)
    ensures FindTarget(rows + [row], row.id, userId) == Some(row)
  {
    if rows == [] {
      assert rows + [row] == [row];
    } else {
      assert (rows + [row])[0] == rows[0];
      assert (rows + [row])[1..] == rows[1..] + [row];
      assert !IsTarget(rows[0], row.id, userId);
      assert !HasTarget(rows[1..], row.id, userId) by {
        forall i | 0 <= i < |rows[1..]| ensures !IsTarget(rows[1..][i], row.id, userId) {
          assert rows[1..][i] == rows[i + 1];
        }
      }
      FindTargetAfter(rows[1..], row, userId);
    }
  }

  /** The body of `PUT /api/expenses/:id`: every field optional. */
  datatype ExpensePatch = ExpensePatch(
    amount: Option<real>,
    description: Option<string>,
    category: Option<string>,
    kind: Option<string>,
    date: Option<Date>)

  predicate ValidPatch(p: ExpensePatch) {
    && (p.amount.Some? ==> p.amount.value >= 0.0)
    && DescriptionOk(p.description)
    && (p.kind.Some? ==> ParseKind(p.kind.value).Some?)
    && (p.date.Some? ==> IsIsoDate(p.date.value))
  }

  /** The SET list: each supplied column, `category_id` always (NULL when no
      category was given) and `updated_at` always. */
  datatype Assignment = Assignment(
    amount: Option<real>,
    description: Option<string>,
    categoryId: Option<nat>,
    kind: Option<Kind>,
    date: Option<Date>,
    updatedAt: nat)

  function AssignmentOf(p: ExpensePatch, categoryId: Option<nat>, now: nat): Assignment
    requires ValidPatch(p)
  {
    Assignment(
      p.amount,
      TrimmedDescription(p.description),
      categoryId,
      if p.kind.Some? then ParseKind(p.kind.value) else None,
      p.date,
      now)
  }

  function Assign(t: Transaction, a: Assignment): (r: Transaction)
    ensures r.categoryId == a.categoryId && r.updatedAt == a.updatedAt && r.createdAt == t.createdAt
  {
    Transaction(
      a.amount.GetOr(t.amount),
      if a.description.Some? then a.description else t.description,
      a.categoryId,
      a.kind.GetOr(t.kind),
      a.date.GetOr(t.date),
      t.createdAt,
      a.updatedAt)
  }

  /** Only the supplied columns change; the category is always rewritten, so
      an update without a category clears it; created_at is kept. */
  lemma AssignWritesOnlySupplied(t: Transaction, p: ExpensePatch, categoryId: Option<nat>, now: nat)
    requires ValidPatch(p)
    ensures var r := Assign(t, AssignmentOf(p, categoryId, now));
            && r.amount == (if p.amount.Some? then p.amount.value else t.amount)
            && r.description == (if p.description.Some? then Some(Trim(p.description.value)) else t.description)
            && r.date == (if p.date.Some? then p.date.value else t.date)
            && (p.kind.None? ==> r.kind == t.kind)
            && (p.kind.Some? ==> KindName(r.kind) == p.kind.value)
            && r.categoryId == categoryId && r.createdAt == t.createdAt && r.updatedAt == now
  {
  }

  /** The owner-checked row survives its update, so the read-back finds a row. */
  lemma UpdatedRowIsFound(rows: seq<Row<Transaction>>, id: nat, userId: nat, a: Assignment)
    requires HasTarget(rows, id, userId)
    ensures FindById(UpdateWhere(rows, id, userId, a, Assign), id).Some?
  {
    var k :| 0 <= k < |rows| && IsTarget(rows[k], id, userId);
    assert UpdateWhere(rows, id, userId, a, Assign)[k].id == id;
  }

  /** `PUT /api/expenses/:id`: validation, then the owner check, then category
      resolution, then the update, then the row is read back by id. */
  method UpdateExpense(db: Db, userId: nat, id: nat, p: ExpensePatch, now: nat) returns (r: Result<ExpenseView>)
    requires db.Valid()
    modifies db
    ensures db.Valid()
    ensures !ValidPatch(p) ==> r == Err(ValidationError) && unchanged(db)
    ensures ValidPatch(p) && !HasTarget(old(db.expenses), id, userId) ==> r == Err(NotFoundError) && unchanged(db)
    ensures ValidPatch(p) && HasTarget(old(db.expenses), id, userId) ==>
              var res := ResolveIfNamed(old(db.categories), p.category, userId, old(db.nextCategoryId));
              && db.categories == res.1
              && db.expenses == UpdateWhere(old(db.expenses), id, userId, AssignmentOf(p, res.0, now), Assign)
              && FindById(db.expenses, id).Some?
              && r == Ok(Join(FindById(db.expenses, id).value, db.categories))
    ensures db.budgets == old(db.budgets) && db.goals == old(db.goals)
    ensures db.nextCategoryId == if db.categories == old(db.categories) then old(db.nextCategoryId) else old(db.nextCategoryId) + 1
    ensures db.nextExpenseId == old(db.nextExpenseId) && db.nextBudgetId == old(db.nextBudgetId) && db.nextGoalId == old(db.nextGoalId)
  {
    if !ValidPatch(p) {
      return Err(ValidationError);
    }
    if FindTarget(db.expenses, id, userId).None? {
      return Err(NotFoundError);
    }
    r := ApplyUpdate(db, userId, id, p, now);
  }

  /** The update once validation and the owner check have passed. */
  method ApplyUpdate(db: Db, userId: nat, id: nat, p: ExpensePatch, now: nat) returns (r: Result<ExpenseView>)
    requires db.Valid() && ValidPatch(p) && HasTarget(db.expenses, id, userId)
    modifies db
    ensures db.Valid()
    ensures var res := ResolveIfNamed(old(db.categories), p.category, userId, old(db.nextCategoryId));
            && db.categories == res.1
            && db.expenses == UpdateWhere(old(db.expenses), id, userId, AssignmentOf(p, res.0, now), Assign)
            && FindById(db.expenses, id).Some?
            && r == Ok(Join(FindById(db.expenses, id).value, db.categories))
    ensures db.budgets == old(db.budgets) && db.goals == old(db.goals)
    ensures db.nextCategoryId == if db.categories == old(db.categories) then old(db.nextCategoryId) else old(db.nextCategoryId) + 1
    ensures db.nextExpenseId == old(db.nextExpenseId) && db.nextBudgetId == old(db.nextBudgetId) && db.nextGoalId == old(db.nextGoalId)
  {
    var categoryId: Option<nat> := None;
    if Truthy(p.category) {
      var cid := ResolveCategory(db, userId, p.category.value);
      categoryId := Some(cid);
    }
    var before := db.expenses;
    var a := AssignmentOf(p, categoryId, now);
    ScopedWritesKeepIdsBelow(before, id, userId, a, Assign, db.nextExpenseId);
    ScopedWritesKeepIdsDistinct(before, id, userId, a, Assign);
    UpdatedRowIsFound(before, id, userId, a);
    db.expenses := UpdateWhere(before, id, userId, a, Assign);
    var updated := FindById(db.expenses, id);
    r := Ok(Join(updated.value, db.categories));
  }

  /** `DELETE /api/expenses/:id`: 404 unless the caller owns the row. */
  method DeleteExpense(db: Db, userId: nat, id: nat) returns (r: Result<()>)
    requires db.Valid()
    modifies db
    ensures db.Valid()
    ensures !HasTarget(old(db.expenses), id, userId) ==> r == Err(NotFoundError) && unchanged(db)
    ensures HasTarget(old(db.expenses), id, userId) ==>
              r == Ok(()) && db.expenses == DeleteWhere(old(db.expenses), id, userId)
    ensures db.categories == old(db.categories) && db.budgets == old(db.budgets) && db.goals == old(db.goals)
    ensures db.nextCategoryId == old(db.nextCategoryId)
    ensures db.nextExpenseId == old(db.nextExpenseId) && db.nextBudgetId == old(db.nextBudgetId) && db.nextGoalId == old(db.nextGoalId)
  {
    if FindTarget(db.expenses, id, userId).None? {
      return Err(NotFoundError);
    }
    var before := db.expenses;
    ScopedWritesKeepIdsDistinct(before, id, userId, (), (t: Transaction, u: ()) => t);
    db.expenses := DeleteWhere(before, id, userId);
    forall i | 0 <= i < |db.expenses| ensures db.expenses[i].id < db.nextExpenseId {
      assert db.expenses[i] in before;
    }
    r := Ok(());
  }

  /** After a delete the row is gone from its owner's listings, and no other
      user's sums change. */
  lemma DeleteIsScoped(rows: seq<Row<Transaction>>, cats: seq<Row<Category>>, id: nat, userId: nat, q: ExpenseQuery, c: Criterion)
    requires c.userId != userId
    ensures forall v :: v in ListExpenses(DeleteWhere(rows, id, userId), cats, userId, q) ==> v.row.id != id
    ensures Sum(DeleteWhere(rows, id, userId), cats, c) == Sum(rows, cats, c)
  {
    DeleteWhereKeepsOthers(rows, id, userId, c.userId);
    SumIgnoresOtherUsers(DeleteWhere(rows, id, userId), rows, cats, c);
  }

  // ------------------------------------------------------------- dashboard

  /** `if (startDate && endDate)`: the window applies only with both bounds. */
  function WindowOf(startDate: Option<Date>, endDate: Option<Date>): (w: DateWindow)
    ensures w.Between? <==> startDate.Some? && endDate.Some?
    ensures w.Between? ==> w.lo == startDate.value && w.hi == endDate.value
  {
    if startDate.Some? && endDate.Some? then Between(startDate.value, endDate.value) else AllTime
  }

  datatype CategoryTotal = CategoryTotal(category: Category, total: real)

  /** `ORDER BY total DESC` */
  predicate LargerFirst(a: CategoryTotal, b: CategoryTotal) {
    a.total >= b.total
  }

  lemma LargerFirstIsTotalPreorder()
    ensures TotalPreorder(LargerFirst)
  {
  }

  /** `FROM categories c LEFT JOIN expenses e ON c.id = e.category_id AND ...
      GROUP BY c.id`: one total per category row, over every category in the
      table, 0 where the caller spent nothing. */
  function CategoryTotals(rows: seq<Row<Transaction>>, cats: seq<Row<Category>>, userId: nat, w: DateWindow): (r: seq<CategoryTotal>)
    ensures |r| == |cats|
    ensures forall i :: 0 <= i < |cats| ==>
              r[i] == CategoryTotal(cats[i].fields, Sum(rows, cats, Criterion(userId, Expense, w, InCategory(cats[i].id))))
  {
    seq(|cats|, i requires 0 <= i < |cats| =>
      CategoryTotal(cats[i].fields, Sum(rows, cats, Criterion(userId, Expense, w, InCategory(cats[i].id)))))
  }

  const RecentQuery := ExpenseQuery(None, None, None, None, Some(10))

  datatype DashboardStats = DashboardStats(
    totalExpenses: real,
    totalIncome: real,
    balance: real,
    categoryBreakdown: seq<CategoryTotal>,
    recentTransactions: seq<ExpenseView>)

  /** `GET /api/expenses/stats/dashboard` */
  function Dashboard(rows: seq<Row<Transaction>>, cats: seq<Row<Category>>, userId: nat, startDate: Option<Date>, endDate: Option<Date>): (r: DashboardStats)
    ensures r.balance == r.totalIncome - r.totalExpenses
    ensures r.totalExpenses == Sum(rows, cats, Criterion(userId, Expense, WindowOf(startDate, endDate), AnyCategory))
    ensures r.totalIncome == Sum(rows, cats, Criterion(userId, Income, WindowOf(startDate, endDate), AnyCategory))
    ensures |r.categoryBreakdown| == |cats|
    ensures multiset(r.categoryBreakdown) == multiset(CategoryTotals(rows, cats, userId, WindowOf(startDate, endDate)))
    ensures SortedBy(r.categoryBreakdown, LargerFirst)
    ensures r.recentTransactions == ListExpenses(rows, cats, userId, RecentQuery)
    ensures |r.recentTransactions| <= 10 && SortedBy(r.recentTransactions, NewerFirst)
    ensures forall v :: v in r.recentTransactions ==> v.row in rows && OwnedBy(v.row, userId) && v == Join(v.row, cats)
    ensures forall i :: 0 <= i < |rows| && OwnedBy(rows[i], userId) && Join(rows[i], cats) !in r.recentTransactions ==>
              |r.recentTransactions| == 10 && forall y :: y in r.recentTransactions ==> NewerFirst(y, Join(rows[i], cats))
  {
    var w := WindowOf(startDate, endDate);
    var expenses := Sum(rows, cats, Criterion(userId, Expense, w, AnyCategory));
    var income := Sum(rows, cats, Criterion(userId, Income, w, AnyCategory));
    var totals := CategoryTotals(rows, cats, userId, w);
    LargerFirstIsTotalPreorder();
    SortByIsSorted(totals, LargerFirst);
    DashboardStats(expenses, income, income - expenses, SortBy(totals, LargerFirst), ListExpenses(rows, cats, userId, RecentQuery))
  }

  /** The recent list ignores the date window: it is the same for every window. */
  lemma RecentIgnoresWindow(rows: seq<Row<Transaction>>, cats: seq<Row<Category>>, userId: nat, s1: Option<Date>, e1: Option<Date>, s2: Option<Date>, e2: Option<Date>)
    ensures Dashboard(rows, cats, userId, s1, e1).recentTransactions == Dashboard(rows, cats, userId, s2, e2).recentTransactions
  {
  }

  /** With no transactions at all every figure is 0 and every category total is 0. */
  lemma EmptyDashboard(cats: seq<Row<Category>>, userId: nat, startDate: Option<Date>, endDate: Option<Date>)
    ensures var d := Dashboard([], cats, userId, startDate, endDate);
            d.totalExpenses == 0.0 && d.totalIncome == 0.0 && d.balance == 0.0
            && (forall e :: e in d.categoryBreakdown ==> e.total == 0.0)
            && d.recentTransactions == []
  {
    var d := Dashboard([], cats, userId, startDate, endDate);
    forall e | e in d.categoryBreakdown ensures e.total == 0.0 {
      assert e in multiset(d.categoryBreakdown);
    }
  }

  /** Isolation: a dashboard depends only on the caller's own rows, so another
      user's transactions never show up in it. */
  lemma DashboardIgnoresOtherUsers(rows1: seq<Row<Transaction>>, rows2: seq<Row<Transaction>>, cats: seq<Row<Category>>, userId: nat, startDate: Option<Date>, endDate: Option<Date>)
    requires RowsOf(rows1, userId) == RowsOf(rows2, userId)
    ensures Dashboard(rows1, cats, userId, startDate, endDate) == Dashboard(rows2, cats, userId, startDate, endDate)
  {
    var w := WindowOf(startDate, endDate);
    SumIgnoresOtherUsers(rows1, rows2, cats, Criterion(userId, Expense, w, AnyCategory));
    SumIgnoresOtherUsers(rows1, rows2, cats, Criterion(userId, Income, w, AnyCategory));
    forall i | 0 <= i < |cats| ensures CategoryTotals(rows1, cats, userId, w)[i] == CategoryTotals(rows2, cats, userId, w)[i] {
      SumIgnoresOtherUsers(rows1, rows2, cats, Criterion(userId, Expense, w, InCategory(cats[i].id)));
    }
    assert CategoryTotals(rows1, cats, userId, w) == CategoryTotals(rows2, cats, userId, w);
    SelectedOwnRows(rows1, cats, userId, RecentQuery);
    SelectedOwnRows(rows2, cats, userId, RecentQuery);
  }
}
