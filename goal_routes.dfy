/** The savings-goal routes: list the caller's goals by deadline, create a
    goal (progress starts at 0), change any truthy field, delete one. */
module GoalRoutes {
  import opened Base
  import opened Sorting
  import opened Tables

  /** `ORDER BY deadline ASC`: SQLite sorts NULL before every date. */
  predicate EarliestDeadlineFirst(a: Row<Goal>, b: Row<Goal>) {
    a.fields.deadline.None?
    || (b.fields.deadline.Some? && DateLe(a.fields.deadline.value, b.fields.deadline.value))
  }

  lemma EarliestDeadlineFirstIsTotalPreorder()
    ensures TotalPreorder(EarliestDeadlineFirst)
  {
    forall a: Row<Goal>, b: Row<Goal> ensures EarliestDeadlineFirst(a, b) || EarliestDeadlineFirst(b, a) {
      if a.fields.deadline.Some? && b.fields.deadline.Some? {
        DateLeIsTotalOrder(a.fields.deadline.value, b.fields.deadline.value, b.fields.deadline.value);
      }
    }
    forall a: Row<Goal>, b: Row<Goal>, c: Row<Goal> | EarliestDeadlineFirst(a, b) && EarliestDeadlineFirst(b, c)
      ensures EarliestDeadlineFirst(a, c)
    {
      if a.fields.deadline.Some? {
        DateLeIsTotalOrder(a.fields.deadline.value, b.fields.deadline.value, c.fields.deadline.value);
      }
    }
  }

  /** `GET /api/goals`: the caller's goals and no other, goals without a
      deadline first, then by deadline. */
  function ListGoals(rows: seq<Row<Goal>>, userId: nat): (r: seq<Row<Goal>>)
    ensures SortedBy(r, EarliestDeadlineFirst)
    ensures multiset(r) == multiset(RowsOf(rows, userId))
    ensures forall g :: g in r <==> g in rows && OwnedBy(g, userId)
  {
    var own := RowsOf(rows, userId);
    assert SortedBy(SortBy(own, EarliestDeadlineFirst), EarliestDeadlineFirst) by {
      EarliestDeadlineFirstIsTotalPreorder();
      SortByIsSorted(own, EarliestDeadlineFirst);
    }
    PermutationMembers(own, SortBy(own, EarliestDeadlineFirst));
    SortBy(own, EarliestDeadlineFirst)
  }

  /** A listed goal without a deadline comes before every goal with one. */
  lemma UndatedGoalsFirst(rows: seq<Row<Goal>>, userId: nat, i: nat, j: nat)
    requires i < |ListGoals(rows, userId)| && j < |ListGoals(rows, userId)|
    requires ListGoals(rows, userId)[i].fields.deadline.None? && ListGoals(rows, userId)[j].fields.deadline.Some?
    ensures i < j
  {
  }

  /** `POST /api/goals`: a name and a non-zero target are required;
      `current_amount` takes its column default 0. */
  method CreateGoal(db: Db, userId: nat, name: Option<string>, target: Option<real>, deadline: Option<Date>)
      returns (r: Result<Row<Goal>>)
    requires db.Valid()
    modifies db
    ensures db.Valid()
    ensures !Truthy(name) || !TruthyAmount(target) ==> r == Err(ValidationError) && unchanged(db)
    ensures Truthy(name) && TruthyAmount(target) ==>
              var row := Row(old(db.nextGoalId), Some(userId), Goal(name.value, target.value, 0.0, deadline));
              && db.goals == old(db.goals) + [row]
              && db.nextGoalId == old(db.nextGoalId) + 1
              && r == Ok(row)
    ensures db.categories == old(db.categories) && db.expenses == old(db.expenses) && db.budgets == old(db.budgets)
    ensures db.nextCategoryId == old(db.nextCategoryId) && db.nextExpenseId == old(db.nextExpenseId) && db.nextBudgetId == old(db.nextBudgetId)
  {
    if !Truthy(name) || !TruthyAmount(target) {
      return Err(ValidationError);
    }
    var id := db.nextGoalId;
    var row := Row(id, Some(userId), Goal(name.value, target.value, 0.0, deadline));
    AppendFreshKeepsIdsDistinct(db.goals, db.nextGoalId, row);
    db.goals := db.goals + [row];
    db.nextGoalId := id + 1;
    r := Ok(row);
  }

  /** The body of `PUT /api/goals/:id`. */
  datatype GoalPatch = GoalPatch(name: Option<string>, target: Option<real>, current: Option<real>, deadline: Option<Date>)

  /** A field is written only when truthy: an empty name, a zero amount or
      a missing deadline is skipped. */
  predicate HasUpdates(p: GoalPatch) {
    Truthy(p.name) || TruthyAmount(p.target) || TruthyAmount(p.current) || p.deadline.Some?
  }

  function ApplyGoalPatch(g: Goal, p: GoalPatch): (r: Goal)
    ensures r.name == (if Truthy(p.name) then p.name.value else g.name)
    ensures r.target == (if TruthyAmount(p.target) then p.target.value else g.target)
    ensures r.current == (if TruthyAmount(p.current) then p.current.value else g.current)
    ensures r.deadline == (if p.deadline.Some? then p.deadline else g.deadline)
  {
    Goal(
      if Truthy(p.name) then p.name.value else g.name,
      if TruthyAmount(p.target) then p.target.value else g.target,
      if TruthyAmount(p.current) then p.current.value else g.current,
      if p.deadline.Some? then p.deadline else g.deadline)
  }

  /** `PUT /api/goals/:id`: scoped to the caller; the row is read back by id alone. */
  method UpdateGoal(db: Db, userId: nat, id: nat, p: GoalPatch) returns (r: Result<Option<Row<Goal>>>)
    requires db.Valid()
    modifies db
    ensures db.Valid()
    ensures !HasUpdates(p) ==> r == Err(ValidationError) && unchanged(db)
    ensures HasUpdates(p) ==>
              && db.goals == UpdateWhere(old(db.goals), id, userId, p, ApplyGoalPatch)
              && r == Ok(FindById(db.goals, id))
    ensures db.categories == old(db.categories) && db.expenses == old(db.expenses) && db.budgets == old(db.budgets)
    ensures db.nextGoalId == old(db.nextGoalId)
    ensures db.nextCategoryId == old(db.nextCategoryId) && db.nextExpenseId == old(db.nextExpenseId) && db.nextBudgetId == old(db.nextBudgetId)
  {
    if !HasUpdates(p) {
      return Err(ValidationError);
    }
    ScopedWritesKeepIdsBelow(db.goals, id, userId, p, ApplyGoalPatch, db.nextGoalId);
    ScopedWritesKeepIdsDistinct(db.goals, id, userId, p, ApplyGoalPatch);
    db.goals := UpdateWhere(db.goals, id, userId, p, ApplyGoalPatch);
    r := Ok(FindById(db.goals, id));
  }

  /** Progress cannot be reset to 0 through an update: a zero
      `current_amount` is falsy, so on its own it is rejected and alongside
      other fields it leaves the stored progress as it was. */
  lemma ZeroProgressIsNotWritten(g: Goal, p: GoalPatch)
    requires p.current == Some(0.0)
    ensures HasUpdates(p) <==> Truthy(p.name) || TruthyAmount(p.target) || p.deadline.Some?
    ensures ApplyGoalPatch(g, p).current == g.current
  {
  }

  /** `DELETE /api/goals/:id`: succeeds whether or not a row was removed. */
  method DeleteGoal(db: Db, userId: nat, id: nat) returns (r: Result<()>)
    requires db.Valid()
    modifies db
    ensures db.Valid()
    ensures r == Ok(())
    ensures db.goals == DeleteWhere(old(db.goals), id, userId)
    ensures db.categories == old(db.categories) && db.expenses == old(db.expenses) && db.budgets == old(db.budgets)
    ensures db.nextGoalId == old(db.nextGoalId)
    ensures db.nextCategoryId == old(db.nextCategoryId) && db.nextExpenseId == old(db.nextExpenseId) && db.nextBudgetId == old(db.nextBudgetId)
  {
    ScopedWritesKeepIdsBelow(db.goals, id, userId, GoalPatch(None, None, None, None), ApplyGoalPatch, db.nextGoalId);
    ScopedWritesKeepIdsDistinct(db.goals, id, userId, GoalPatch(None, None, None, None), ApplyGoalPatch);
    db.goals := DeleteWhere(db.goals, id, userId);
    r := Ok(());
  }

  /** Goal writes never touch another user's goals. */
  lemma GoalWritesAreScoped(rows: seq<Row<Goal>>, id: nat, userId: nat, p: GoalPatch, other: nat)
    requires other != userId
    ensures RowsOf(UpdateWhere(rows, id, userId, p, ApplyGoalPatch), other) == RowsOf(rows, other)
    ensures RowsOf(DeleteWhere(rows, id, userId), other) == RowsOf(rows, other)
  {
    UpdateWhereKeepsOthers(rows, id, userId, p, ApplyGoalPatch, other);
    DeleteWhereKeepsOthers(rows, id, userId, other);
  }
}
