/** `COALESCE(SUM(amount), 0)` over the expenses table, for the selections
    the dashboard and analytics queries make: one user's rows of one kind,
    optionally within a date window and within one category, one month or
    one LEFT JOIN group. */
module Aggregates {
  import opened Base
  import opened Tables

  /** `date BETWEEN ? AND ?`, or no date condition at all. */
  datatype DateWindow = AllTime | Between(lo: Date, hi: Date)

  predicate InWindow(d: Date, w: DateWindow) {
    match w
    case AllTime => true
    case Between(lo, hi) => InRange(d, lo, hi)
  }

  /** The grouping condition of a sum. */
  datatype Group =
    | AnyCategory                 // no condition
    | InCategory(id: nat)         // `c.id = e.category_id` for one category row
    | InMonth(month: Month)       // `strftime('%Y-%m', date)` equals the month
    | JoinedTo(key: Option<nat>)  // the LEFT JOINed `c.id` (NULL when absent)

  datatype Criterion = Criterion(userId: nat, kind: Kind, window: DateWindow, group: Group)

  /** The `c.id` a LEFT JOIN on `e.category_id = c.id` yields: NULL when the
      row has no category or its category row no longer exists. */
  function JoinedCategoryId(t: Transaction, cats: seq<Row<Category>>): (r: Option<nat>)
    ensures r.Some? ==> t.categoryId == r && FindById(cats, r.value).Some?
    ensures r.None? ==> t.categoryId.None? || FindById(cats, t.categoryId.value).None?
  {
    match t.categoryId
    case None => None
    case Some(cid) => if FindById(cats, cid).Some? then Some(cid) else None
  }

  predicate InGroup(t: Transaction, cats: seq<Row<Category>>, g: Group) {
    match g
    case AnyCategory => true
    case InCategory(id) => t.categoryId == Some(id)
    case InMonth(m) => MonthOf(t.date) == m
    case JoinedTo(key) => JoinedCategoryId(t, cats) == key
  }

  predicate Selects(c: Criterion, cats: seq<Row<Category>>, row: Row<Transaction>) {
    && OwnedBy(row, c.userId)
    && row.fields.kind == c.kind
    && InWindow(row.fields.date, c.window)
    && InGroup(row.fields, cats, c.group)
  }

  /** What one row adds to a sum: its amount when selected, else nothing. */
  function Contribution(c: Criterion, cats: seq<Row<Category>>, row: Row<Transaction>): real {
    if Selects(c, cats, row) then row.fields.amount else 0.0
  }

  /** The sum of the amounts of the selected rows; 0 when none is selected. */
  function Sum(rows: seq<Row<Transaction>>, cats: seq<Row<Category>>, c: Criterion): real
  {
    if rows == [] then 0.0
    else Contribution(c, cats, rows[0]) + Sum(rows[1..], cats, c)
  }

  lemma {:induction false} SumConcat(a: seq<Row<Transaction>>, b: seq<Row<Transaction>>, cats: seq<Row<Category>>, c: Criterion)
    ensures Sum(a + b, cats, c) == Sum(a, cats, c) + Sum(b, cats, c)
  {
    if a == [] {
      assert a + b == b;
    } else {
      assert (a + b)[0] == a[0];
      assert (a + b)[1..] == a[1..] + b;
      SumConcat(a[1..], b, cats, c);
    }
  }

  /** `COALESCE(..., 0)`: with no selected row the sum is 0. */
  lemma {:induction false} SumOfNothingIsZero(rows: seq<Row<Transaction>>, cats: seq<Row<Category>>, c: Criterion)
    requires forall i :: 0 <= i < |rows| ==> !Selects(c, cats, rows[i])
    ensures Sum(rows, cats, c) == 0.0
  {
    if rows != [] {
      assert forall i :: 0 <= i < |rows[1..]| ==> rows[1..][i] == rows[i + 1];
      SumOfNothingIsZero(rows[1..], cats, c);
    }
  }

  /** Isolation: a user's sums are computed from that user's rows alone. */
  lemma {:induction false} SumOwnRows(rows: seq<Row<Transaction>>, cats: seq<Row<Category>>, c: Criterion)
    ensures Sum(rows, cats, c) == Sum(RowsOf(rows, c.userId), cats, c)
  {
    if rows != [] {
      SumOwnRows(rows[1..], cats, c);
      var head := if OwnedBy(rows[0], c.userId) then [rows[0]] else [];
      assert RowsOf(rows, c.userId) == head + RowsOf(rows[1..], c.userId);
      SumConcat(head, RowsOf(rows[1..], c.userId), cats, c);
      if head == [] {
        assert !Selects(c, cats, rows[0]);
      } else {
        assert Sum(head, cats, c) == Contribution(c, cats, rows[0]) + Sum([], cats, c);
      }
    }
  }

  /** Two tables in which a user owns the same rows give that user the same sums,
      whatever other users have added, changed or deleted. */
  lemma SumIgnoresOtherUsers(rows1: seq<Row<Transaction>>, rows2: seq<Row<Transaction>>, cats: seq<Row<Category>>, c: Criterion)
    requires RowsOf(rows1, c.userId) == RowsOf(rows2, c.userId)
    ensures Sum(rows1, cats, c) == Sum(rows2, cats, c)
  {
    SumOwnRows(rows1, cats, c);
    SumOwnRows(rows2, cats, c);
  }

  /** Amounts are validated non-negative, so every sum is non-negative. */
  lemma {:induction false} SumNonNegative(rows: seq<Row<Transaction>>, cats: seq<Row<Category>>, c: Criterion)
    requires forall i :: 0 <= i < |rows| ==> rows[i].fields.amount >= 0.0
    ensures Sum(rows, cats, c) >= 0.0
  {
    if rows != [] {
      assert forall i :: 0 <= i < |rows[1..]| ==> rows[1..][i] == rows[i + 1];
      SumNonNegative(rows[1..], cats, c);
    }
  }
}
