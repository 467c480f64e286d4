/** The Budgets page: for each budget, what has been spent in its category,
    the share of the budget that is, what is left, and the chip colour. */
module BudgetsView {
  import opened Base
  import opened ClientStore
  import opened ClientTotals

  datatype Progress = Progress(spent: real, percentage: real, remaining: real)

  /** `getBudgetProgress`. A zero budget amount would divide by zero, so the
      amount must be non-zero. */
  function BudgetProgress(b: Budget, s: seq<Entry<Transaction>>): (p: Progress)
    requires b.amount != 0.0
    ensures p.spent == SpentOn(s, b.category)
    ensures p.percentage * b.amount == p.spent * 100.0
    ensures p.spent + p.remaining == b.amount
  {
    var spent := SpentOn(s, b.category);
    Progress(spent, spent / b.amount * 100.0, b.amount - spent)
  }

  /** Against a positive budget, the percentage passes 100 exactly when the
      remainder goes negative, and reaches a threshold `t` exactly when the
      spending reaches `t` hundredths of the budget. */
  lemma ProgressMeaning(b: Budget, s: seq<Entry<Transaction>>, t: real)
    requires b.amount > 0.0
    ensures BudgetProgress(b, s).percentage > 100.0 <==> BudgetProgress(b, s).remaining < 0.0
    ensures BudgetProgress(b, s).percentage >= t <==> BudgetProgress(b, s).spent * 100.0 >= t * b.amount
  {
    var p := BudgetProgress(b, s);
    PercentCompare(p.spent, b.amount, p.percentage, 100.0);
    PercentCompare(p.spent, b.amount, p.percentage, t);
  }

  /** With `x * a == y * 100` and `a > 0`, `x` compares with `t` as `y * 100`
      compares with `t * a`. */
  lemma PercentCompare(y: real, a: real, x: real, t: real)
    requires a > 0.0 && x * a == y * 100.0
    ensures x >= t <==> y * 100.0 >= t * a
    ensures x > t <==> y * 100.0 > t * a
  {
    if x >= t {
      assert x * a >= t * a;
    } else {
      assert x * a < t * a;
    }
    if x > t {
      assert x * a > t * a;
    } else {
      assert x * a <= t * a;
    }
  }

  /** `getProgressColor` on the Budgets page. */
  function BudgetTone(percentage: real): (t: Tone)
    ensures t == Error <==> percentage >= 90.0
    ensures t == Success <==> percentage < 70.0
  {
    if percentage >= 90.0 then Error
    else if percentage >= 70.0 then Warning
    else Success
  }

  /** The colour never becomes less alarming as the percentage grows. */
  lemma BudgetToneMonotone(p: real, q: real)
    requires p <= q
    ensures Severity(BudgetTone(p)) <= Severity(BudgetTone(q))
  {
  }

  /** `Math.min(progress.percentage, 100)`: the bar never overflows. */
  function BarValue(percentage: real): (v: real)
    ensures v <= 100.0
    ensures v == percentage || v == 100.0
    ensures percentage <= 100.0 ==> v == percentage
  {
    MinReal(percentage, 100.0)
  }

  /** Income filed under a budget's category never counts against it. */
  lemma IncomeDoesNotSpendBudget(b: Budget, s: seq<Entry<Transaction>>, e: Entry<Transaction>)
    requires b.amount != 0.0
    requires e.data.kind == Income
    ensures BudgetProgress(b, [e] + s) == BudgetProgress(b, s)
  {
    AddedTransactionCounts(s, e, Expense, b.category);
  }
}
