/** The Dashboard page: headline totals, the savings rate, the five most
    recent transactions, each budget's spending and its chip colour, and the
    per-category chart shared with the Analytics page. */
module DashboardView {
  import opened Base
  import opened ClientStore
  import opened ClientTotals
  import opened BudgetsView

  /** How many transactions the "Recent Transactions" list shows. */
  const RecentCount := 5

  /** `expenses.slice(0, 5)`: the first five in list order, or all of them. */
  function Recent(s: seq<Entry<Transaction>>): (r: seq<Entry<Transaction>>)
    ensures |r| == Min(RecentCount, |s|)
    ensures r <= s
  {
    s[..Min(RecentCount, |s|)]
  }

  /** The provider puts a new transaction in front, so it is the first one
      the recent list shows, and the oldest of five drops out. */
  lemma AddedTransactionIsMostRecent(s: seq<Entry<Transaction>>, e: Entry<Transaction>)
    ensures Recent([e] + s) == [e] + Recent(s)[..Min(RecentCount - 1, |s|)]
  {
    assert Recent(s)[..Min(RecentCount - 1, |s|)] == s[..Min(RecentCount - 1, |s|)];
  }

  /** `totalIncome > 0 ? (balance / totalIncome) * 100 : 0` */
  function SavingsRate(t: Summary): (r: real)
    ensures t.totalIncome > 0.0 ==> r * t.totalIncome == t.balance * 100.0
    ensures t.totalIncome <= 0.0 ==> r == 0.0
  {
    if t.totalIncome > 0.0 then t.balance / t.totalIncome * 100.0 else 0.0
  }

  /** With non-negative amounts the savings rate is at most 100, and it is
      exactly 100 when nothing has been spent. */
  lemma SavingsRateAtMostAll(s: seq<Entry<Transaction>>)
    requires NonNegativeAmounts(s)
    ensures SavingsRate(Totals(s)) <= 100.0
    ensures Totals(s).totalIncome > 0.0 && Totals(s).totalExpenses == 0.0 ==> SavingsRate(Totals(s)) == 100.0
  {
    var t := Totals(s);
    ExpenseTotalNonNegative(s);
    if t.totalIncome > 0.0 {
      var r := SavingsRate(t);
      assert (r - 100.0) * t.totalIncome == -t.totalExpenses * 100.0;
    }
  }

  lemma {:induction false} ExpenseTotalNonNegative(s: seq<Entry<Transaction>>)
    requires NonNegativeAmounts(s)
    ensures TotalOf(s, Expense) >= 0.0
  {
    if s != [] {
      assert NonNegativeAmounts(s[1..]) by {
        forall i | 0 <= i < |s[1..]| ensures s[1..][i].data.amount >= 0.0 {
          assert s[1..][i] == s[i + 1];
        }
      }
      ExpenseTotalNonNegative(s[1..]);
    }
  }

  /** `{ ...budget, spent, percentage }`: the budget with its stored `spent`
      replaced by the computed one, and the percentage beside it. */
  datatype BudgetLine = BudgetLine(entry: Entry<Budget>, percentage: real)

  predicate NonZeroAmounts(budgets: seq<Entry<Budget>>) {
    forall i :: 0 <= i < |budgets| ==> budgets[i].data.amount != 0.0
  }

  /** `budgetProgress`. Every budget amount must be non-zero. */
  function BudgetLines(budgets: seq<Entry<Budget>>, s: seq<Entry<Transaction>>): (r: seq<BudgetLine>)
    requires NonZeroAmounts(budgets)
    ensures |r| == |budgets|
    ensures forall i :: 0 <= i < |budgets| ==>
              var b := budgets[i];
              && r[i].entry.id == b.id
              && r[i].entry.data.category == b.data.category
              && r[i].entry.data.amount == b.data.amount
              && r[i].entry.data.period == b.data.period
              && r[i].entry.data.spent == SpentOn(s, b.data.category)
              && r[i].percentage * b.data.amount == r[i].entry.data.spent * 100.0
  {
    seq(|budgets|, i requires 0 <= i < |budgets| =>
      var b := budgets[i];
      var spent := SpentOn(s, b.data.category);
      BudgetLine(Entry(b.id, Budget(b.data.category, b.data.amount, spent, b.data.period)), spent / b.data.amount * 100.0))
  }

  /** The Dashboard and the Budgets page agree on every budget's spending
      and percentage. */
  lemma BudgetLinesAgreeWithBudgetsPage(budgets: seq<Entry<Budget>>, s: seq<Entry<Transaction>>, i: nat)
    requires NonZeroAmounts(budgets) && i < |budgets|
    ensures BudgetLines(budgets, s)[i].entry.data.spent == BudgetProgress(budgets[i].data, s).spent
    ensures BudgetLines(budgets, s)[i].percentage == BudgetProgress(budgets[i].data, s).percentage
  {
    var a := budgets[i].data.amount;
    var x := BudgetLines(budgets, s)[i].percentage;
    var y := BudgetProgress(budgets[i].data, s).percentage;
    assert (x - y) * a == 0.0;
  }

  /** The Dashboard chip colour: strict thresholds. */
  function DashboardTone(percentage: real): (t: Tone)
    ensures t == Error <==> percentage > 90.0
    ensures t == Success <==> percentage <= 70.0
  {
    if percentage > 90.0 then Error
    else if percentage > 70.0 then Warning
    else Success
  }

  /** The Dashboard and the Budgets page colour a budget alike except at
      exactly 90 and exactly 70 percent, where the Dashboard shows the
      milder colour. */
  lemma TonesDifferOnlyAtThresholds(p: real)
    ensures DashboardTone(p) != BudgetTone(p) <==> p == 90.0 || p == 70.0
    ensures p == 90.0 ==> BudgetTone(p) == Error && DashboardTone(p) == Warning
    ensures p == 70.0 ==> BudgetTone(p) == Warning && DashboardTone(p) == Success
    ensures Severity(DashboardTone(p)) <= Severity(BudgetTone(p))
  {
  }
}
