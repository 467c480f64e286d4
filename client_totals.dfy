/** The `filter(...).reduce((sum, x) => sum + x.amount, 0)` sums the client
    pages compute over the provider's transaction list, and the per-category
    chart data the Dashboard and Analytics pages share. */
module ClientTotals {
  import opened Base
  import opened ClientStore

  /** The sum of the amounts of the transactions of one kind. */
  function TotalOf(s: seq<Entry<Transaction>>, k: Kind): real {
    if s == [] then 0.0
    else (if s[0].data.kind == k then s[0].data.amount else 0.0) + TotalOf(s[1..], k)
  }

  /** `exp.category === name && exp.type === 'expense'`: the expenses filed
      under a category name. */
  predicate SpentIn(e: Entry<Transaction>, name: string) {
    e.data.category == name && e.data.kind == Expense
  }

  function SpentOn(s: seq<Entry<Transaction>>, name: string): real {
    if s == [] then 0.0
    else (if SpentIn(s[0], name) then s[0].data.amount else 0.0) + SpentOn(s[1..], name)
  }

  function CountOn(s: seq<Entry<Transaction>>, name: string): (n: nat)
    ensures n <= |s|
  {
    if s == [] then 0
    else (if SpentIn(s[0], name) then 1 else 0) + CountOn(s[1..], name)
  }

  predicate NonNegativeAmounts(s: seq<Entry<Transaction>>) {
    forall i :: 0 <= i < |s| ==> s[i].data.amount >= 0.0
  }

  /** Sums over a list made of two parts add up. */
  lemma {:induction false} TotalsConcat(a: seq<Entry<Transaction>>, b: seq<Entry<Transaction>>, k: Kind, name: string)
    ensures TotalOf(a + b, k) == TotalOf(a, k) + TotalOf(b, k)
    ensures SpentOn(a + b, name) == SpentOn(a, name) + SpentOn(b, name)
    ensures CountOn(a + b, name) == CountOn(a, name) + CountOn(b, name)
  {
    if a == [] {
      assert a + b == b;
    } else {
      assert (a + b)[0] == a[0];
      assert (a + b)[1..] == a[1..] + b;
      TotalsConcat(a[1..], b, k, name);
    }
  }

  /** Adding a transaction moves exactly its own kind's total by its amount. */
  lemma AddedTransactionCounts(s: seq<Entry<Transaction>>, e: Entry<Transaction>, k: Kind, name: string)
    ensures TotalOf([e] + s, k) == TotalOf(s, k) + (if e.data.kind == k then e.data.amount else 0.0)
    ensures SpentOn([e] + s, name) == SpentOn(s, name) + (if SpentIn(e, name) then e.data.amount else 0.0)
  {
    assert ([e] + s)[1..] == s;
  }

  /** Income never counts towards a category's spending: with non-negative
      amounts a category's spending is part of the expense total. */
  lemma {:induction false} SpentOnAtMostTotal(s: seq<Entry<Transaction>>, name: string)
    requires NonNegativeAmounts(s)
    ensures 0.0 <= SpentOn(s, name) <= TotalOf(s, Expense)
  {
    if s != [] {
      assert NonNegativeAmounts(s[1..]) by {
        forall i | 0 <= i < |s[1..]| ensures s[1..][i].data.amount >= 0.0 {
          assert s[1..][i] == s[i + 1];
        }
      }
      SpentOnAtMostTotal(s[1..], name);
    }
  }

  /** A category with no expenses has spent nothing. */
  lemma {:induction false} NoCountNoSpending(s: seq<Entry<Transaction>>, name: string)
    requires CountOn(s, name) == 0
    ensures SpentOn(s, name) == 0.0
  {
    if s != [] {
      NoCountNoSpending(s[1..], name);
    }
  }

  /** The sum of every amount, whatever its kind. */
  function SumAmounts(s: seq<Entry<Transaction>>): real {
    if s == [] then 0.0 else s[0].data.amount + SumAmounts(s[1..])
  }

  /** Every transaction is an expense or an income, so the two totals
      together account for every amount exactly once. */
  lemma {:induction false} KindsPartition(s: seq<Entry<Transaction>>)
    ensures TotalOf(s, Expense) + TotalOf(s, Income) == SumAmounts(s)
  {
    if s != [] {
      KindsPartition(s[1..]);
    }
  }

  /** The three headline figures the Dashboard and Expenses pages show. */
  datatype Summary = Summary(totalExpenses: real, totalIncome: real, balance: real)

  function Totals(s: seq<Entry<Transaction>>): (r: Summary)
    ensures r.totalExpenses == TotalOf(s, Expense) && r.totalIncome == TotalOf(s, Income)
    ensures r.balance == r.totalIncome - r.totalExpenses
    ensures r.balance + 2.0 * r.totalExpenses == SumAmounts(s)
  {
    KindsPartition(s);
    var e := TotalOf(s, Expense);
    var i := TotalOf(s, Income);
    Summary(e, i, i - e)
  }

  /** A new expense lowers the balance by its amount, a new income raises it. */
  lemma AddedTransactionMovesBalance(s: seq<Entry<Transaction>>, e: Entry<Transaction>)
    ensures Totals([e] + s).balance == Totals(s).balance + (if e.data.kind == Income then e.data.amount else -e.data.amount)
  {
    AddedTransactionCounts(s, e, Expense, "");
    AddedTransactionCounts(s, e, Income, "");
  }

  /** The colour of a progress chip or bar. */
  datatype Tone = Success | Warning | Error

  /** How alarming a tone is. */
  function Severity(t: Tone): nat {
    match t
    case Success => 0
    case Warning => 1
    case Error => 2
  }

  // --------------------------------------------------------- chart data

  /** One slice of the category pie: `{ name, value, color }`. */
  datatype Slice = Slice(name: string, value: real, color: string)

  /** `categories.map(cat => ...).filter(item => item.value > 0)` */
  function CategoryChart(cats: seq<Entry<Category>>, s: seq<Entry<Transaction>>): (r: seq<Slice>)
    ensures |r| <= |cats|
    ensures forall x :: x in r ==> x.value > 0.0 && x.value == SpentOn(s, x.name)
    ensures forall x :: x in r ==> exists i :: 0 <= i < |cats| && x.name == cats[i].data.name && x.color == cats[i].data.color
    ensures forall i :: 0 <= i < |cats| && SpentOn(s, cats[i].data.name) > 0.0 ==>
              Slice(cats[i].data.name, SpentOn(s, cats[i].data.name), cats[i].data.color) in r
  {
    if cats == [] then []
    else
      var c := cats[0].data;
      var v := SpentOn(s, c.name);
      var rest := CategoryChart(cats[1..], s);
      assert forall i :: 1 <= i < |cats| ==> cats[i] == cats[1..][i - 1];
      (if v > 0.0 then [Slice(c.name, v, c.color)] else []) + rest
  }

  /** The chart follows the category list: the slices of a list made of two
      parts are the first part's slices, then the second's. */
  lemma {:induction false} CategoryChartFollowsOrder(a: seq<Entry<Category>>, b: seq<Entry<Category>>, s: seq<Entry<Transaction>>)
    ensures CategoryChart(a + b, s) == CategoryChart(a, s) + CategoryChart(b, s)
  {
    if a == [] {
      assert a + b == b;
    } else {
      assert (a + b)[0] == a[0];
      assert (a + b)[1..] == a[1..] + b;
      CategoryChartFollowsOrder(a[1..], b, s);
    }
  }
}
