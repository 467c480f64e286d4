/** The two analytics reports: the per-month expense and income totals of
    the caller's six most recent months, and the caller's expense total per
    (LEFT JOINed) category, largest first. */
module AnalyticsRoutes {
  import opened Base
  import opened Sorting
  import opened Tables
  import opened Aggregates

  // ------------------------------------------------------------- monthly

  /** The caller has at least one transaction dated in month `m`. */
  predicate HasRowIn(rows: seq<Row<Transaction>>, userId: nat, m: Month) {
    exists i :: 0 <= i < |rows| && OwnedBy(rows[i], userId) && MonthOf(rows[i].fields.date) == m
  }

  /** `strftime('%Y-%m', date)` of each of the caller's rows, in table order. */
  function MonthsOf(rows: seq<Row<Transaction>>, userId: nat): (r: seq<Month>)
    ensures forall m :: m in r <==> HasRowIn(rows, userId, m)
  {
    if rows == [] then []
    else
      var rest := MonthsOf(rows[1..], userId);
      assert forall m :: HasRowIn(rows[1..], userId, m) ==> HasRowIn(rows, userId, m) by {
        forall m | HasRowIn(rows[1..], userId, m) ensures HasRowIn(rows, userId, m) {
          var i :| 0 <= i < |rows[1..]| && OwnedBy(rows[1..][i], userId) && MonthOf(rows[1..][i].fields.date) == m;
          assert rows[i + 1] == rows[1..][i];
        }
      }
      assert forall m :: HasRowIn(rows, userId, m) ==> HasRowIn(rows[1..], userId, m) || (OwnedBy(rows[0], userId) && MonthOf(rows[0].fields.date) == m) by {
        forall m | HasRowIn(rows, userId, m) && !(OwnedBy(rows[0], userId) && MonthOf(rows[0].fields.date) == m)
          ensures HasRowIn(rows[1..], userId, m)
        {
          var i :| 0 <= i < |rows| && OwnedBy(rows[i], userId) && MonthOf(rows[i].fields.date) == m;
          assert rows[1..][i - 1] == rows[i];
        }
      }
      (if OwnedBy(rows[0], userId) then [MonthOf(rows[0].fields.date)] else []) + rest
  }

  /** `ORDER BY month DESC` */
  predicate LaterFirst(a: Month, b: Month) {
    MonthLe(b, a)
  }

  lemma LaterFirstIsTotalPreorder()
    ensures TotalPreorder(LaterFirst)
  {
  }

  /** One line of the monthly report. `SUM(CASE WHEN type = ... THEN amount
      ELSE 0 END)` is 0, not NULL, for a kind absent from the month. */
  datatype MonthSummary = MonthSummary(month: Month, expenses: real, income: real)

  const MonthLimit := 6

  function Summarize(rows: seq<Row<Transaction>>, cats: seq<Row<Category>>, userId: nat, m: Month): MonthSummary {
    MonthSummary(m,
      Sum(rows, cats, Criterion(userId, Expense, AllTime, InMonth(m))),
      Sum(rows, cats, Criterion(userId, Income, AllTime, InMonth(m))))
  }

  /** The month keys the report lists: distinct, latest first, at most six. */
  function ReportedMonths(rows: seq<Row<Transaction>>, userId: nat): seq<Month> {
    Take(SortBy(Dedup(MonthsOf(rows, userId)), LaterFirst), MonthLimit)
  }

  /** The months reported are the caller's, distinct and latest first; a
      month of the caller's is left out only when six later ones fill the
      report. */
  lemma {:induction false} ReportedMonthsAreLatest(rows: seq<Row<Transaction>>, userId: nat)
    ensures |ReportedMonths(rows, userId)| <= MonthLimit
    ensures forall m :: m in ReportedMonths(rows, userId) ==> HasRowIn(rows, userId, m)
    ensures SortedBy(ReportedMonths(rows, userId), LaterFirst)
    ensures Distinct(ReportedMonths(rows, userId))
    ensures forall m :: HasRowIn(rows, userId, m) && m !in ReportedMonths(rows, userId) ==>
              |ReportedMonths(rows, userId)| == MonthLimit && forall y :: y in ReportedMonths(rows, userId) ==> MonthLe(m, y)
  {
    var d := Dedup(MonthsOf(rows, userId));
    var ms := ReportedMonths(rows, userId);
    LaterFirstIsTotalPreorder();
    OrderedPrefix(d, MonthLimit, LaterFirst);
    MultisetSubsetMembers(ms, d);
    DistinctPermutation(d, SortBy(d, LaterFirst));
    forall m | HasRowIn(rows, userId, m) && m !in ms
      ensures |ms| == MonthLimit && forall y :: y in ms ==> MonthLe(m, y)
    {
      OrderedPrefixDominates(d, MonthLimit, LaterFirst, m);
    }
  }

  /** `GET /api/analytics/monthly` */
  function Monthly(rows: seq<Row<Transaction>>, cats: seq<Row<Category>>, userId: nat): (r: seq<MonthSummary>)
    ensures |r| <= MonthLimit
    ensures forall i :: 0 <= i < |r| ==> HasRowIn(rows, userId, r[i].month) && r[i] == Summarize(rows, cats, userId, r[i].month)
    ensures forall i, j :: 0 <= i < j < |r| ==> MonthLe(r[j].month, r[i].month) && r[i].month != r[j].month
    ensures forall m :: HasRowIn(rows, userId, m) && (forall i :: 0 <= i < |r| ==> r[i].month != m) ==>
              |r| == MonthLimit && forall i :: 0 <= i < |r| ==> MonthLe(m, r[i].month)
  {
    var ms := ReportedMonths(rows, userId);
    ReportedMonthsAreLatest(rows, userId);
    var r := SummariesOf(rows, cats, userId, ms);
    assert forall i :: 0 <= i < |r| ==> HasRowIn(rows, userId, r[i].month) by {
      forall i | 0 <= i < |r| ensures HasRowIn(rows, userId, r[i].month) {
        assert ms[i] in ms;
      }
    }
    assert forall m :: m !in ms <==> (forall i :: 0 <= i < |r| ==> r[i].month != m);
    r
  }

  /** One summary per month key, in the order of the keys. */
  function SummariesOf(rows: seq<Row<Transaction>>, cats: seq<Row<Category>>, userId: nat, ms: seq<Month>): (r: seq<MonthSummary>)
    ensures |r| == |ms|
    ensures forall i :: 0 <= i < |r| ==> r[i].month == ms[i] && r[i] == Summarize(rows, cats, userId, ms[i])
  {
    seq(|ms|, i requires 0 <= i < |ms| => Summarize(rows, cats, userId, ms[i]))
  }

  // ------------------------------------------------------------ category

  /** The LEFT JOIN keys of the caller's expense rows, in table order. */
  function ExpenseKeys(rows: seq<Row<Transaction>>, cats: seq<Row<Category>>, userId: nat): (r: seq<Option<nat>>)
    ensures forall i :: 0 <= i < |rows| && Selects(Criterion(userId, Expense, AllTime, AnyCategory), cats, rows[i]) ==>
              JoinedCategoryId(rows[i].fields, cats) in r
    ensures forall k :: k in r ==> exists i :: 0 <= i < |rows| && Selects(Criterion(userId, Expense, AllTime, JoinedTo(k)), cats, rows[i])
  {
    if rows == [] then []
    else
      var rest := ExpenseKeys(rows[1..], cats, userId);
      assert forall i :: 1 <= i < |rows| ==> rows[i] == rows[1..][i - 1];
      (if Selects(Criterion(userId, Expense, AllTime, AnyCategory), cats, rows[0]) then [JoinedCategoryId(rows[0].fields, cats)] else []) + rest
  }

  /** One line of the category report: the group's key `c.id` (not sent),
      `c.name as category` (NULL for the uncategorised group) and the total. */
  datatype CategoryShare = CategoryShare(key: Option<nat>, category: Option<string>, total: real)

  function ShareOf(rows: seq<Row<Transaction>>, cats: seq<Row<Category>>, userId: nat, k: Option<nat>): CategoryShare {
    var name := if k.Some? && FindById(cats, k.value).Some? then Some(FindById(cats, k.value).value.fields.name) else None;
    CategoryShare(k, name, Sum(rows, cats, Criterion(userId, Expense, AllTime, JoinedTo(k))))
  }

  function SharesOf(rows: seq<Row<Transaction>>, cats: seq<Row<Category>>, userId: nat, keys: seq<Option<nat>>): (r: seq<CategoryShare>)
    ensures |r| == |keys|
    ensures forall i :: 0 <= i < |keys| ==> r[i] == ShareOf(rows, cats, userId, keys[i])
  {
    if keys == [] then []
    else [ShareOf(rows, cats, userId, keys[0])] + SharesOf(rows, cats, userId, keys[1..])
  }

  /** `ORDER BY total DESC` */
  predicate LargerShareFirst(a: CategoryShare, b: CategoryShare) {
    a.total >= b.total
  }

  lemma LargerShareFirstIsTotalPreorder()
    ensures TotalPreorder(LargerShareFirst)
  {
  }

  /** The group keys of the report: each key of a caller's expense once. */
  function ReportKeys(rows: seq<Row<Transaction>>, cats: seq<Row<Category>>, userId: nat): seq<Option<nat>> {
    Dedup(ExpenseKeys(rows, cats, userId))
  }

  lemma {:induction false} ReportKeysComplete(rows: seq<Row<Transaction>>, cats: seq<Row<Category>>, userId: nat)
    ensures Distinct(SharesOf(rows, cats, userId, ReportKeys(rows, cats, userId)))
    ensures forall e :: e in SharesOf(rows, cats, userId, ReportKeys(rows, cats, userId)) ==>
              e == ShareOf(rows, cats, userId, e.key) && HasExpenseIn(rows, cats, userId, e.key)
    ensures forall k :: 0 <= k < |rows| && Selects(Criterion(userId, Expense, AllTime, AnyCategory), cats, rows[k]) ==>
              ShareOf(rows, cats, userId, JoinedCategoryId(rows[k].fields, cats)) in SharesOf(rows, cats, userId, ReportKeys(rows, cats, userId))
  {
    var keys := ReportKeys(rows, cats, userId);
    var shares := SharesOf(rows, cats, userId, keys);
    DistinctKeysDistinctShares(rows, cats, userId, keys);
    forall e | e in shares
      ensures e == ShareOf(rows, cats, userId, e.key) && HasExpenseIn(rows, cats, userId, e.key)
    {
      var i :| 0 <= i < |shares| && shares[i] == e;
      assert keys[i] in keys;
    }
    forall k | 0 <= k < |rows| && Selects(Criterion(userId, Expense, AllTime, AnyCategory), cats, rows[k])
      ensures ShareOf(rows, cats, userId, JoinedCategoryId(rows[k].fields, cats)) in shares
    {
      var j :| 0 <= j < |keys| && keys[j] == JoinedCategoryId(rows[k].fields, cats);
      assert shares[j] == ShareOf(rows, cats, userId, keys[j]);
    }
  }

  lemma DistinctKeysDistinctShares(rows: seq<Row<Transaction>>, cats: seq<Row<Category>>, userId: nat, keys: seq<Option<nat>>)
    requires Distinct(keys)
    ensures Distinct(SharesOf(rows, cats, userId, keys))
  {
    var shares := SharesOf(rows, cats, userId, keys);
    forall i, j | 0 <= i < j < |shares| ensures shares[i] != shares[j] {
      assert shares[i].key == keys[i] && shares[j].key == keys[j];
    }
  }

  /** A group is reported only for a key some caller's expense joins to. */
  predicate HasExpenseIn(rows: seq<Row<Transaction>>, cats: seq<Row<Category>>, userId: nat, key: Option<nat>) {
    exists k :: 0 <= k < |rows| && Selects(Criterion(userId, Expense, AllTime, JoinedTo(key)), cats, rows[k])
  }

  /** Reordering the report keeps each of its facts. */
  lemma ReorderedShares(rows: seq<Row<Transaction>>, cats: seq<Row<Category>>, userId: nat, shares: seq<CategoryShare>, r: seq<CategoryShare>)
    requires multiset(shares) == multiset(r)
    requires Distinct(shares)
    requires forall e :: e in shares ==> e == ShareOf(rows, cats, userId, e.key) && HasExpenseIn(rows, cats, userId, e.key)
    ensures forall e :: e in r ==> e == ShareOf(rows, cats, userId, e.key) && HasExpenseIn(rows, cats, userId, e.key)
    ensures forall e :: e in shares ==> e in r
    ensures forall i, j :: 0 <= i < j < |r| ==> r[i].key != r[j].key
  {
    DistinctPermutation(shares, r);
    PermutationMembers(shares, r);
    forall i, j | 0 <= i < j < |r| ensures r[i].key != r[j].key {
      assert r[i] in shares && r[j] in shares;
      assert r[i] != r[j];
    }
  }

  /** `GET /api/analytics/category` */
  function CategoryReport(rows: seq<Row<Transaction>>, cats: seq<Row<Category>>, userId: nat): (r: seq<CategoryShare>)
    ensures SortedBy(r, LargerShareFirst)
    ensures forall e :: e in r ==> e == ShareOf(rows, cats, userId, e.key) && HasExpenseIn(rows, cats, userId, e.key)
    ensures forall k :: 0 <= k < |rows| && Selects(Criterion(userId, Expense, AllTime, AnyCategory), cats, rows[k]) ==>
              ShareOf(rows, cats, userId, JoinedCategoryId(rows[k].fields, cats)) in r
    ensures forall i, j :: 0 <= i < j < |r| ==> r[i].key != r[j].key
  {
    var shares := SharesOf(rows, cats, userId, ReportKeys(rows, cats, userId));
    LargerShareFirstIsTotalPreorder();
    SortByIsSorted(shares, LargerShareFirst);
    ReportKeysComplete(rows, cats, userId);
    ReorderedShares(rows, cats, userId, shares, SortBy(shares, LargerShareFirst));
    SortBy(shares, LargerShareFirst)
  }

  // ----------------------------------------------------------- partition

  function TotalOf(shares: seq<CategoryShare>): real {
    if shares == [] then 0.0 else shares[0].total + TotalOf(shares[1..])
  }

  lemma {:induction false} TotalOfConcat(a: seq<CategoryShare>, b: seq<CategoryShare>)
    ensures TotalOf(a + b) == TotalOf(a) + TotalOf(b)
  {
    if a == [] {
      assert a + b == b;
    } else {
      assert (a + b)[1..] == a[1..] + b;
      TotalOfConcat(a[1..], b);
    }
  }

  /** Reordering the report does not change its grand total. */
  lemma {:induction false} TotalOfPermutation(a: seq<CategoryShare>, b: seq<CategoryShare>)
    requires multiset(a) == multiset(b)
    ensures TotalOf(a) == TotalOf(b)
  {
    if a != [] {
      assert a[0] in multiset(b);
      var k :| 0 <= k < |b| && b[k] == a[0];
      var rest := b[..k] + b[k + 1..];
      assert multiset(a[1..]) == multiset(rest) by {
        assert a == [a[0]] + a[1..];
        RemoveOneMultiset(b, k);
      }
      TotalOfPermutation(a[1..], rest);
      TotalOfRemoveOne(b, k);
    }
  }

  lemma RemoveOneMultiset(b: seq<CategoryShare>, k: nat)
    requires k < |b|
    ensures multiset(b[..k] + b[k + 1..]) == multiset(b) - multiset{b[k]}
  {
    assert b == b[..k] + [b[k]] + b[k + 1..];
  }

  lemma {:induction false} TotalOfRemoveOne(b: seq<CategoryShare>, k: nat)
    requires k < |b|
    ensures TotalOf(b) == b[k].total + TotalOf(b[..k] + b[k + 1..])
  {
    if k == 0 {
      assert b[..0] + b[1..] == b[1..];
    } else {
      var rest := b[..k] + b[k + 1..];
      assert rest[0] == b[0];
      assert rest[1..] == b[1..][..k - 1] + b[1..][k..];
      TotalOfRemoveOne(b[1..], k - 1);
    }
  }

  /** A row's amount lands in exactly one group of a key list that holds
      its key once. */
  lemma {:induction false} RowInOneGroup(row: Row<Transaction>, cats: seq<Row<Category>>, userId: nat, keys: seq<Option<nat>>)
    requires Distinct(keys)
    requires Selects(Criterion(userId, Expense, AllTime, AnyCategory), cats, row) ==> JoinedCategoryId(row.fields, cats) in keys
    ensures RowOverKeys(row, cats, userId, keys) == Contribution(Criterion(userId, Expense, AllTime, AnyCategory), cats, row)
  {
    if keys != [] {
      var c := Criterion(userId, Expense, AllTime, JoinedTo(keys[0]));
      assert Distinct(keys[1..]) by {
        forall i, j | 0 <= i < j < |keys[1..]| ensures keys[1..][i] != keys[1..][j] {
          assert keys[1..][i] == keys[i + 1] && keys[1..][j] == keys[j + 1];
        }
      }
      if Selects(c, cats, row) {
        assert keys[0] !in keys[1..] by {
          forall i | 0 <= i < |keys[1..]| ensures keys[1..][i] != keys[0] {
            assert keys[1..][i] == keys[i + 1];
          }
        }
        NoGroupHasIt(row, cats, userId, keys[1..]);
      } else {
        assert Selects(Criterion(userId, Expense, AllTime, AnyCategory), cats, row) ==> JoinedCategoryId(row.fields, cats) in keys[1..] by {
          assert keys == [keys[0]] + keys[1..];
        }
        RowInOneGroup(row, cats, userId, keys[1..]);
      }
    }
  }

  lemma {:induction false} NoGroupHasIt(row: Row<Transaction>, cats: seq<Row<Category>>, userId: nat, keys: seq<Option<nat>>)
    requires JoinedCategoryId(row.fields, cats) !in keys
    ensures RowOverKeys(row, cats, userId, keys) == 0.0
  {
    if keys != [] {
      assert keys[0] != JoinedCategoryId(row.fields, cats);
      NoGroupHasIt(row, cats, userId, keys[1..]);
    }
  }

  /** What one row adds to the totals of all the groups in `keys`. */
  function RowOverKeys(row: Row<Transaction>, cats: seq<Row<Category>>, userId: nat, keys: seq<Option<nat>>): real {
    if keys == [] then 0.0
    else Contribution(Criterion(userId, Expense, AllTime, JoinedTo(keys[0])), cats, row) + RowOverKeys(row, cats, userId, keys[1..])
  }

  lemma {:induction false} SharesOfCons(row: Row<Transaction>, rows: seq<Row<Transaction>>, cats: seq<Row<Category>>, userId: nat, keys: seq<Option<nat>>)
    ensures TotalOf(SharesOf([row] + rows, cats, userId, keys)) == RowOverKeys(row, cats, userId, keys) + TotalOf(SharesOf(rows, cats, userId, keys))
  {
    if keys != [] {
      assert ([row] + rows)[1..] == rows;
      SharesOfCons(row, rows, cats, userId, keys[1..]);
    }
  }

  /** The groups partition the caller's expense rows: with every key listed
      once, the group totals add up to the caller's total expenses. */
  lemma {:induction false} GroupsPartition(rows: seq<Row<Transaction>>, cats: seq<Row<Category>>, userId: nat, keys: seq<Option<nat>>)
    requires Distinct(keys)
    requires forall i :: 0 <= i < |rows| && Selects(Criterion(userId, Expense, AllTime, AnyCategory), cats, rows[i]) ==>
               JoinedCategoryId(rows[i].fields, cats) in keys
    ensures TotalOf(SharesOf(rows, cats, userId, keys)) == Sum(rows, cats, Criterion(userId, Expense, AllTime, AnyCategory))
  {
    if rows == [] {
      EmptyShares(cats, userId, keys);
    } else {
      assert rows == [rows[0]] + rows[1..];
      SharesOfCons(rows[0], rows[1..], cats, userId, keys);
      RowInOneGroup(rows[0], cats, userId, keys);
      assert forall i :: 0 <= i < |rows[1..]| ==> rows[1..][i] == rows[i + 1];
      GroupsPartition(rows[1..], cats, userId, keys);
    }
  }

  lemma {:induction false} EmptyShares(cats: seq<Row<Category>>, userId: nat, keys: seq<Option<nat>>)
    ensures TotalOf(SharesOf([], cats, userId, keys)) == 0.0
  {
    if keys != [] {
      EmptyShares(cats, userId, keys[1..]);
    }
  }

  /** The category report accounts for every expense exactly once: its
      totals add up to the caller's all-time expense total. */
  lemma CategoryReportAddsUp(rows: seq<Row<Transaction>>, cats: seq<Row<Category>>, userId: nat)
    ensures TotalOf(CategoryReport(rows, cats, userId)) == Sum(rows, cats, Criterion(userId, Expense, AllTime, AnyCategory))
  {
    var keys := ReportKeys(rows, cats, userId);
    var shares := SharesOf(rows, cats, userId, keys);
    GroupsPartition(rows, cats, userId, keys);
    TotalOfPermutation(shares, SortBy(shares, LargerShareFirst));
  }

  /** Both reports read only the caller's rows. */
  lemma ReportsIgnoreOtherUsers(rows1: seq<Row<Transaction>>, rows2: seq<Row<Transaction>>, cats: seq<Row<Category>>, userId: nat)
    requires RowsOf(rows1, userId) == RowsOf(rows2, userId)
    ensures Monthly(rows1, cats, userId) == Monthly(rows2, cats, userId)
    ensures CategoryReport(rows1, cats, userId) == CategoryReport(rows2, cats, userId)
  {
    MonthsOwnRows(rows1, userId);
    MonthsOwnRows(rows2, userId);
    var ms := ReportedMonths(rows1, userId);
    forall i | 0 <= i < |ms|
      ensures Summarize(rows1, cats, userId, ms[i]) == Summarize(rows2, cats, userId, ms[i])
    {
      SumIgnoresOtherUsers(rows1, rows2, cats, Criterion(userId, Expense, AllTime, InMonth(ms[i])));
      SumIgnoresOtherUsers(rows1, rows2, cats, Criterion(userId, Income, AllTime, InMonth(ms[i])));
    }
    KeysOwnRows(rows1, cats, userId);
    KeysOwnRows(rows2, cats, userId);
    var keys := ReportKeys(rows1, cats, userId);
    forall i | 0 <= i < |keys|
      ensures ShareOf(rows1, cats, userId, keys[i]) == ShareOf(rows2, cats, userId, keys[i])
    {
      SumIgnoresOtherUsers(rows1, rows2, cats, Criterion(userId, Expense, AllTime, JoinedTo(keys[i])));
    }
    assert SharesOf(rows1, cats, userId, keys) == SharesOf(rows2, cats, userId, keys);
  }

  lemma {:induction false} MonthsOwnRows(rows: seq<Row<Transaction>>, userId: nat)
    ensures MonthsOf(rows, userId) == MonthsOf(RowsOf(rows, userId), userId)
  {
    if rows != [] {
      MonthsOwnRows(rows[1..], userId);
      var own := RowsOf(rows, userId);
      if OwnedBy(rows[0], userId) {
        assert own[0] == rows[0] && own[1..] == RowsOf(rows[1..], userId);
      } else {
        assert own == RowsOf(rows[1..], userId);
      }
    }
  }

  lemma {:induction false} KeysOwnRows(rows: seq<Row<Transaction>>, cats: seq<Row<Category>>, userId: nat)
    ensures ExpenseKeys(rows, cats, userId) == ExpenseKeys(RowsOf(rows, userId), cats, userId)
  {
    if rows != [] {
      KeysOwnRows(rows[1..], cats, userId);
      var own := RowsOf(rows, userId);
      if OwnedBy(rows[0], userId) {
        assert own[0] == rows[0] && own[1..] == RowsOf(rows[1..], userId);
      } else {
        assert own == RowsOf(rows[1..], userId);
      }
    }
  }
}
