/** The budget routes: list the caller's budgets, create one (resolving its
    category by name), change its amount or period, delete it. */
module BudgetRoutes {
  import opened Base
  import opened Sorting
  import opened Tables
  import opened CategoryResolver

  /** `b.*` with the LEFT JOINed `category_name`, `category_color` and
      `category_icon` (all NULL when the category row is gone). */
  datatype BudgetView = BudgetView(row: Row<Budget>, category: Option<Category>)

  function JoinBudget(row: Row<Budget>, cats: seq<Row<Category>>): (v: BudgetView)
    ensures v.row == row
    ensures v.category.Some? <==> FindById(cats, row.fields.categoryId).Some?
  {
    match FindById(cats, row.fields.categoryId)
    case None => BudgetView(row, None)
    case Some(c) => BudgetView(row, Some(c.fields))
  }

  function JoinAll(rows: seq<Row<Budget>>, cats: seq<Row<Category>>): (r: seq<BudgetView>)
    ensures |r| == |rows|
    ensures forall i :: 0 <= i < |rows| ==> r[i] == JoinBudget(rows[i], cats)
  {
    seq(|rows|, i requires 0 <= i < |rows| => JoinBudget(rows[i], cats))
  }

  /** `ORDER BY b.id DESC` */
  predicate NewestFirst(a: BudgetView, b: BudgetView) {
    a.row.id >= b.row.id
  }

  lemma NewestFirstIsTotalPreorder()
    ensures TotalPreorder(NewestFirst)
  {
  }

  /** `GET /api/budgets`: every budget the caller owns and no other, joined,
      newest id first. */
  function ListBudgets(rows: seq<Row<Budget>>, cats: seq<Row<Category>>, userId: nat): (r: seq<BudgetView>)
    ensures SortedBy(r, NewestFirst)
    ensures |r| == |RowsOf(rows, userId)|
    ensures forall v :: v in r <==> v.row in rows && OwnedBy(v.row, userId) && v == JoinBudget(v.row, cats)
  {
    var own := RowsOf(rows, userId);
    var joined := JoinAll(own, cats);
    NewestFirstIsTotalPreorder();
    SortByIsSorted(joined, NewestFirst);
    PermutationMembers(joined, SortBy(joined, NewestFirst));
    forall v ensures v in joined <==> v.row in rows && OwnedBy(v.row, userId) && v == JoinBudget(v.row, cats) {
      if v.row in rows && OwnedBy(v.row, userId) && v == JoinBudget(v.row, cats) {
        var i :| 0 <= i < |own| && own[i] == v.row;
        assert joined[i] == v;
      }
    }
    SortBy(joined, NewestFirst)
  }

  /** `period || 'monthly'` */
  const DefaultPeriod := "monthly"

  /** `POST /api/budgets`: a category name and a non-zero amount are
      required; the amount's sign is not checked. */
  method CreateBudget(db: Db, userId: nat, category: Option<string>, amount: Option<real>, period: Option<string>)
      returns (r: Result<Row<Budget>>)
    requires db.Valid()
    modifies db
    ensures db.Valid()
    ensures !Truthy(category) || !TruthyAmount(amount) ==> r == Err(ValidationError) && unchanged(db)
    ensures Truthy(category) && TruthyAmount(amount) ==>
              var res := Resolve(old(db.categories), category.value, userId, old(db.nextCategoryId));
              var row := Row(old(db.nextBudgetId), Some(userId),
                             Budget(res.id, amount.value, if Truthy(period) then period.value else DefaultPeriod));
              && db.categories == res.categories
              && db.budgets == old(db.budgets) + [row]
              && db.nextBudgetId == old(db.nextBudgetId) + 1
              && r == Ok(row)
    ensures db.expenses == old(db.expenses) && db.goals == old(db.goals)
    ensures db.nextCategoryId == if db.categories == old(db.categories) then old(db.nextCategoryId) else old(db.nextCategoryId) + 1
    ensures db.nextExpenseId == old(db.nextExpenseId) && db.nextGoalId == old(db.nextGoalId)
  {
    if !Truthy(category) || !TruthyAmount(amount) {
      return Err(ValidationError);
    }
    var categoryId := ResolveCategory(db, userId, category.value);
    var id := db.nextBudgetId;
    var row := Row(id, Some(userId), Budget(categoryId, amount.value, if Truthy(period) then period.value else DefaultPeriod));
    AppendFreshKeepsIdsDistinct(db.budgets, db.nextBudgetId, row);
    db.budgets := db.budgets + [row];
    db.nextBudgetId := id + 1;
    r := Ok(row);
  }

  /** The SET list of `PUT /api/budgets/:id`: each truthy field. */
  datatype BudgetPatch = BudgetPatch(amount: Option<real>, period: Option<string>)

  function PatchOf(amount: Option<real>, period: Option<string>): BudgetPatch {
    BudgetPatch(if TruthyAmount(amount) then amount else None, if Truthy(period) then period else None)
  }

  function ApplyBudgetPatch(b: Budget, p: BudgetPatch): (r: Budget)
    ensures r.categoryId == b.categoryId
    ensures r.amount == (if p.amount.Some? then p.amount.value else b.amount)
    ensures r.period == (if p.period.Some? then p.period.value else b.period)
  {
    Budget(b.categoryId, p.amount.GetOr(b.amount), p.period.GetOr(b.period))
  }

  /** `PUT /api/budgets/:id`. The update is scoped to the caller, but the row
      is read back by id alone: the response is whatever budget has that id,
      or NULL when there is none. */
  method UpdateBudget(db: Db, userId: nat, id: nat, amount: Option<real>, period: Option<string>)
      returns (r: Result<Option<Row<Budget>>>)
    requires db.Valid()
    modifies db
    ensures db.Valid()
    ensures !TruthyAmount(amount) && !Truthy(period) ==> r == Err(ValidationError) && unchanged(db)
    ensures TruthyAmount(amount) || Truthy(period) ==>
              && db.budgets == UpdateWhere(old(db.budgets), id, userId, PatchOf(amount, period), ApplyBudgetPatch)
              && r == Ok(FindById(db.budgets, id))
    ensures db.categories == old(db.categories) && db.expenses == old(db.expenses) && db.goals == old(db.goals)
    ensures db.nextBudgetId == old(db.nextBudgetId)
    ensures db.nextCategoryId == old(db.nextCategoryId) && db.nextExpenseId == old(db.nextExpenseId) && db.nextGoalId == old(db.nextGoalId)
  {
    if !TruthyAmount(amount) && !Truthy(period) {
      return Err(ValidationError);
    }
    ScopedWritesKeepIdsBelow(db.budgets, id, userId, PatchOf(amount, period), ApplyBudgetPatch, db.nextBudgetId);
    ScopedWritesKeepIdsDistinct(db.budgets, id, userId, PatchOf(amount, period), ApplyBudgetPatch);
    db.budgets := UpdateWhere(db.budgets, id, userId, PatchOf(amount, period), ApplyBudgetPatch);
    r := Ok(FindById(db.budgets, id));
  }

  /** A caller who names another user's budget changes nothing, and is sent
      that user's budget back. */
  lemma UpdateOfOthersBudgetReadsItBack(rows: seq<Row<Budget>>, id: nat, userId: nat, amount: Option<real>, period: Option<string>, other: nat)
    requires other != userId
    requires FindById(rows, id).Some? && FindById(rows, id).value.owner == Some(other)
    requires DistinctIds(rows)
    ensures UpdateWhere(rows, id, userId, PatchOf(amount, period), ApplyBudgetPatch) == rows
    ensures FindById(UpdateWhere(rows, id, userId, PatchOf(amount, period), ApplyBudgetPatch), id).value.owner == Some(other)
  {
    assert !HasTarget(rows, id, userId) by {
      forall i | 0 <= i < |rows| && rows[i].id == id ensures !OwnedBy(rows[i], userId) {
        var k :| 0 <= k < |rows| && rows[k] == FindById(rows, id).value;
        assert i == k;
      }
    }
    UpdateAbsentIsNoOp(rows, id, userId, PatchOf(amount, period), ApplyBudgetPatch);
  }

  /** `DELETE /api/budgets/:id`: succeeds whether or not a row was removed. */
  method DeleteBudget(db: Db, userId: nat, id: nat) returns (r: Result<()>)
    requires db.Valid()
    modifies db
    ensures db.Valid()
    ensures r == Ok(())
    ensures db.budgets == DeleteWhere(old(db.budgets), id, userId)
    ensures db.categories == old(db.categories) && db.expenses == old(db.expenses) && db.goals == old(db.goals)
    ensures db.nextBudgetId == old(db.nextBudgetId)
    ensures db.nextCategoryId == old(db.nextCategoryId) && db.nextExpenseId == old(db.nextExpenseId) && db.nextGoalId == old(db.nextGoalId)
  {
    ScopedWritesKeepIdsBelow(db.budgets, id, userId, PatchOf(None, None), ApplyBudgetPatch, db.nextBudgetId);
    ScopedWritesKeepIdsDistinct(db.budgets, id, userId, PatchOf(None, None), ApplyBudgetPatch);
    db.budgets := DeleteWhere(db.budgets, id, userId);
    r := Ok(());
  }

  /** Budget writes never touch another user's budgets. */
  lemma BudgetWritesAreScoped(rows: seq<Row<Budget>>, id: nat, userId: nat, p: BudgetPatch, other: nat)
    requires other != userId
    ensures RowsOf(UpdateWhere(rows, id, userId, p, ApplyBudgetPatch), other) == RowsOf(rows, other)
    ensures RowsOf(DeleteWhere(rows, id, userId), other) == RowsOf(rows, other)
  {
    UpdateWhereKeepsOthers(rows, id, userId, p, ApplyBudgetPatch, other);
    DeleteWhereKeepsOthers(rows, id, userId, other);
  }
}
