/** The SQLite store seen as in-memory tables. Every table has an
    AUTOINCREMENT `id` and a nullable `user_id` owner column; the route
    handlers scope every write with `WHERE id = ? AND user_id = ?`. */
module Tables {
  import opened Base

  /** One row: its id, its owner (NULL for the shared default categories)
      and the remaining columns. */
  datatype Row<T> = Row(id: nat, owner: Option<nat>, fields: T)

  datatype Category = Category(name: string, color: string, icon: string)

  datatype Transaction = Transaction(
    amount: real,
    description: Option<string>,
    categoryId: Option<nat>,
    kind: Kind,
    date: Date,
    createdAt: nat,
    updatedAt: nat)

  datatype Budget = Budget(categoryId: nat, amount: real, period: string)

  /** `current_amount` defaults to 0 in the schema. */
  datatype Goal = Goal(name: string, target: real, current: real, deadline: Option<Date>)

  /** Column defaults of the `categories` table. */
  const DefaultColor: string := "#4CAF50"
  const DefaultIcon: string := "\U{1F4B0}"

  /** `user_id = ?`: a NULL owner never equals a user id. */
  predicate OwnedBy<T>(r: Row<T>, userId: nat) {
    r.owner == Some(userId)
  }

  /** `WHERE id = ? AND user_id = ?` */
  predicate IsTarget<T>(r: Row<T>, id: nat, userId: nat) {
    r.id == id && OwnedBy(r, userId)
  }

  predicate HasTarget<T>(rows: seq<Row<T>>, id: nat, userId: nat) {
    exists i :: 0 <= i < |rows| && IsTarget(rows[i], id, userId)
  }

  /** `SELECT * FROM t WHERE id = ?` (no owner check): the first row with
      that id, if any. */
  function FindById<T>(rows: seq<Row<T>>, id: nat): (r: Option<Row<T>>)
    ensures r.Some? ==> r.value.id == id && exists i :: 0 <= i < |rows| && rows[i] == r.value
    ensures r.None? <==> forall i :: 0 <= i < |rows| ==> rows[i].id != id
  {
    if rows == [] then None
    else if rows[0].id == id then Some(rows[0])
    else
      var r := FindById(rows[1..], id);
      assert forall i :: 1 <= i < |rows| ==> rows[i] == rows[1..][i - 1];
      r
  }

  /** `SELECT ... WHERE id = ? AND user_id = ?`: the first row with that id
      that the user owns, if any. */
  function FindTarget<T>(rows: seq<Row<T>>, id: nat, userId: nat): (r: Option<Row<T>>)
    ensures r.Some? ==> IsTarget(r.value, id, userId) && exists i :: 0 <= i < |rows| && rows[i] == r.value
    ensures r.None? <==> !HasTarget(rows, id, userId)
  {
    if rows == [] then None
    else if IsTarget(rows[0], id, userId) then Some(rows[0])
    else
      var r := FindTarget(rows[1..], id, userId);
      assert forall i :: 1 <= i < |rows| ==> rows[i] == rows[1..][i - 1];
      r
  }

  /** The rows one user owns, in table order. */
  function RowsOf<T(!new)>(rows: seq<Row<T>>, userId: nat): (r: seq<Row<T>>)
    ensures |r| <= |rows|
    ensures forall x :: x in r <==> x in rows && OwnedBy(x, userId)
  {
    if rows == [] then []
    else
      assert rows == [rows[0]] + rows[1..];
      (if OwnedBy(rows[0], userId) then [rows[0]] else []) + RowsOf(rows[1..], userId)
  }

  /** `UPDATE t SET ... WHERE id = ? AND user_id = ?`: `apply` rewrites the
      columns of every targeted row; the id and owner never change. */
  function UpdateWhere<T, P>(rows: seq<Row<T>>, id: nat, userId: nat, p: P, apply: (T, P) -> T): (r: seq<Row<T>>)
    ensures |r| == |rows|
    ensures forall i :: 0 <= i < |rows| && IsTarget(rows[i], id, userId) ==>
              r[i] == Row(id, Some(userId), apply(rows[i].fields, p))
    ensures forall i :: 0 <= i < |rows| && !IsTarget(rows[i], id, userId) ==> r[i] == rows[i]
  {
    if rows == [] then []
    else
      var head := if IsTarget(rows[0], id, userId) then rows[0].(fields := apply(rows[0].fields, p)) else rows[0];
      var tail := UpdateWhere(rows[1..], id, userId, p, apply);
      assert forall i :: 1 <= i < |rows| ==> rows[i] == rows[1..][i - 1] && ([head] + tail)[i] == tail[i - 1];
      [head] + tail
  }

  /** `DELETE FROM t WHERE id = ? AND user_id = ?`, keeping the order of
      the remaining rows. */
  function DeleteWhere<T(!new)>(rows: seq<Row<T>>, id: nat, userId: nat): (r: seq<Row<T>>)
    ensures |r| <= |rows|
    ensures forall x :: x in r <==> x in rows && !IsTarget(x, id, userId)
  {
    if rows == [] then []
    else
      assert rows == [rows[0]] + rows[1..];
      (if IsTarget(rows[0], id, userId) then [] else [rows[0]]) + DeleteWhere(rows[1..], id, userId)
  }

  /** Deleting a row that is not there changes nothing. */
  lemma {:induction false} DeleteAbsentIsNoOp<T(!new)>(rows: seq<Row<T>>, id: nat, userId: nat)
    requires !HasTarget(rows, id, userId)
    ensures DeleteWhere(rows, id, userId) == rows
  {
    if rows != [] {
      assert !IsTarget(rows[0], id, userId);
      assert !HasTarget(rows[1..], id, userId) by {
        forall i | 0 <= i < |rows[1..]| ensures !IsTarget(rows[1..][i], id, userId) {
          assert rows[1..][i] == rows[i + 1];
        }
      }
      DeleteAbsentIsNoOp(rows[1..], id, userId);
      assert rows == [rows[0]] + rows[1..];
    }
  }

  /** Deletion splits over a concatenation, so the survivors keep their order. */
  lemma {:induction false} DeleteWhereDistributes<T(!new)>(a: seq<Row<T>>, b: seq<Row<T>>, id: nat, userId: nat)
    ensures DeleteWhere(a + b, id, userId) == DeleteWhere(a, id, userId) + DeleteWhere(b, id, userId)
  {
    if a == [] {
      assert a + b == b;
    } else {
      assert (a + b)[0] == a[0];
      assert (a + b)[1..] == a[1..] + b;
      DeleteWhereDistributes(a[1..], b, id, userId);
    }
  }

  /** Writes scoped to one user leave every other user's rows as they were. */
  lemma {:induction false} DeleteWhereKeepsOthers<T(!new)>(rows: seq<Row<T>>, id: nat, userId: nat, other: nat)
    requires other != userId
    ensures RowsOf(DeleteWhere(rows, id, userId), other) == RowsOf(rows, other)
  {
    if rows != [] {
      DeleteWhereKeepsOthers(rows[1..], id, userId, other);
      var head := if IsTarget(rows[0], id, userId) then [] else [rows[0]];
      assert DeleteWhere(rows, id, userId) == head + DeleteWhere(rows[1..], id, userId);
      RowsOfDistributes(head, DeleteWhere(rows[1..], id, userId), other);
      if OwnedBy(rows[0], other) {
        assert head == [rows[0]];
        assert RowsOf(head, other) == [rows[0]];
      } else {
        assert RowsOf(head, other) == [];
      }
    }
  }

  lemma {:induction false} UpdateWhereKeepsOthers<T(!new), P>(rows: seq<Row<T>>, id: nat, userId: nat, p: P, apply: (T, P) -> T, other: nat)
    requires other != userId
    ensures RowsOf(UpdateWhere(rows, id, userId, p, apply), other) == RowsOf(rows, other)
  {
    if rows != [] {
      var r := UpdateWhere(rows, id, userId, p, apply);
      UpdateWhereKeepsOthers(rows[1..], id, userId, p, apply, other);
      assert r[1..] == UpdateWhere(rows[1..], id, userId, p, apply);
      assert OwnedBy(r[0], other) <==> OwnedBy(rows[0], other);
      assert OwnedBy(rows[0], other) ==> r[0] == rows[0];
    }
  }

  lemma {:induction false} RowsOfDistributes<T(!new)>(a: seq<Row<T>>, b: seq<Row<T>>, userId: nat)
    ensures RowsOf(a + b, userId) == RowsOf(a, userId) + RowsOf(b, userId)
  {
    if a == [] {
      assert a + b == b;
    } else {
      assert (a + b)[0] == a[0];
      assert (a + b)[1..] == a[1..] + b;
      RowsOfDistributes(a[1..], b, userId);
    }
  }

  predicate IdsBelow<T>(rows: seq<Row<T>>, n: nat) {
    forall i :: 0 <= i < |rows| ==> rows[i].id < n
  }

  /** AUTOINCREMENT never hands out an id twice. */
  predicate DistinctIds<T>(rows: seq<Row<T>>) {
    forall i, j :: 0 <= i < j < |rows| ==> rows[i].id != rows[j].id
  }

  /** A row appended with an id above every present one keeps the ids distinct. */
  lemma AppendFreshKeepsIdsDistinct<T>(rows: seq<Row<T>>, n: nat, row: Row<T>)
    requires IdsBelow(rows, n) && DistinctIds(rows) && row.id == n
    ensures IdsBelow(rows + [row], n + 1) && DistinctIds(rows + [row])
  {
  }

  /** Neither scoped write creates or repeats an id. */
  lemma ScopedWritesKeepIdsDistinct<T(!new), P>(rows: seq<Row<T>>, id: nat, userId: nat, p: P, apply: (T, P) -> T)
    requires DistinctIds(rows)
    ensures DistinctIds(UpdateWhere(rows, id, userId, p, apply))
    ensures DistinctIds(DeleteWhere(rows, id, userId))
  {
    var u := UpdateWhere(rows, id, userId, p, apply);
    assert forall i :: 0 <= i < |rows| ==> u[i].id == rows[i].id;
    DeleteKeepsIdsDistinct(rows, id, userId);
  }

  lemma {:induction false} DeleteKeepsIdsDistinct<T(!new)>(rows: seq<Row<T>>, id: nat, userId: nat)
    requires DistinctIds(rows)
    ensures DistinctIds(DeleteWhere(rows, id, userId))
  {
    if rows != [] {
      DeleteKeepsIdsDistinct(rows[1..], id, userId);
      var tail := DeleteWhere(rows[1..], id, userId);
      assert DeleteWhere(rows, id, userId) == (if IsTarget(rows[0], id, userId) then [] else [rows[0]]) + tail;
      forall x | x in tail ensures x.id != rows[0].id {
        var k :| 0 <= k < |rows[1..]| && rows[1..][k] == x;
        assert rows[k + 1] == x;
      }
    }
  }

  /** Neither scoped write creates an id, so a fresh id stays fresh. */
  lemma ScopedWritesKeepIdsBelow<T(!new), P>(rows: seq<Row<T>>, id: nat, userId: nat, p: P, apply: (T, P) -> T, n: nat)
    requires IdsBelow(rows, n)
    ensures IdsBelow(UpdateWhere(rows, id, userId, p, apply), n)
    ensures IdsBelow(DeleteWhere(rows, id, userId), n)
  {
    var d := DeleteWhere(rows, id, userId);
    forall i | 0 <= i < |d| ensures d[i].id < n {
      assert d[i] in rows;
    }
  }

  /** Updating a row the caller does not own changes nothing. */
  lemma UpdateAbsentIsNoOp<T, P>(rows: seq<Row<T>>, id: nat, userId: nat, p: P, apply: (T, P) -> T)
    requires !HasTarget(rows, id, userId)
    ensures UpdateWhere(rows, id, userId, p, apply) == rows
  {
  }

  /** The store: the four domain tables and their AUTOINCREMENT counters.
      The users table and credentials are not part of this model. */
  class Db {
    var categories: seq<Row<Category>>
    var expenses: seq<Row<Transaction>>
    var budgets: seq<Row<Budget>>
    var goals: seq<Row<Goal>>
    var nextCategoryId: nat
    var nextExpenseId: nat
    var nextBudgetId: nat
    var nextGoalId: nat

    /** Every id in a table is below that table's next id, so a new id is
        fresh, and no id appears twice in a table. */
    ghost predicate Valid()
      reads this
    {
      && IdsBelow(categories, nextCategoryId)
      && IdsBelow(expenses, nextExpenseId)
      && IdsBelow(budgets, nextBudgetId)
      && IdsBelow(goals, nextGoalId)
      && DistinctIds(categories) && DistinctIds(expenses) && DistinctIds(budgets) && DistinctIds(goals)
    }

    constructor ()
      ensures Valid()
      ensures categories == [] && expenses == [] && budgets == [] && goals == []
      ensures nextCategoryId == 1 && nextExpenseId == 1 && nextBudgetId == 1 && nextGoalId == 1
    {
      categories, expenses, budgets, goals := [], [], [], [];
      nextCategoryId, nextExpenseId, nextBudgetId, nextGoalId := 1, 1, 1, 1;
    }
  }
}
