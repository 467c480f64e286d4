/** The Expenses page: the totals and net balance over the transaction
    list, and the add/edit dialog, whose submit either adds a transaction
    or overwrites the one being edited. */
module ExpensesView {
  import opened Base
  import opened ClientStore
  import opened ClientTotals

  /** `totalIncome - totalExpenses`, the page's net balance. */
  function Net(s: seq<Entry<Transaction>>): (r: real)
    ensures r == Totals(s).balance
    ensures r == TotalOf(s, Income) - TotalOf(s, Expense)
  {
    TotalOf(s, Income) - TotalOf(s, Expense)
  }

  /** Deleting a transaction takes it out of its own total and out of the
      net balance. */
  lemma DeletedTransactionLeavesNet(a: seq<Entry<Transaction>>, e: Entry<Transaction>, b: seq<Entry<Transaction>>)
    requires forall i :: 0 <= i < |a| ==> a[i].id != e.id
    requires forall i :: 0 <= i < |b| ==> b[i].id != e.id
    ensures RemoveById(a + [e] + b, e.id) == a + b
    ensures Net(a + b) == Net(a + [e] + b) + (if e.data.kind == Income then -e.data.amount else e.data.amount)
  {
    RemoveFromMiddle(a, e, b);
    TotalsOfThree(a, e, b, Expense);
    TotalsOfThree(a, e, b, Income);
  }

  lemma RemoveFromMiddle(a: seq<Entry<Transaction>>, e: Entry<Transaction>, b: seq<Entry<Transaction>>)
    requires forall i :: 0 <= i < |a| ==> a[i].id != e.id
    requires forall i :: 0 <= i < |b| ==> b[i].id != e.id
    ensures RemoveById(a + [e] + b, e.id) == a + b
  {
    var ra, rb := RemoveById(a, e.id), RemoveById(b, e.id);
    assert ra == a by { RemoveAbsentId(a, e.id); }
    assert rb == b by { RemoveAbsentId(b, e.id); }
    assert RemoveById([e], e.id) == [] by {
      assert [e][1..] == [];
    }
    RemoveByIdDistributes(a, [e], e.id);
    RemoveByIdDistributes(a + [e], b, e.id);
    assert RemoveById(a + [e], e.id) == a;
  }

  lemma TotalsOfThree(a: seq<Entry<Transaction>>, e: Entry<Transaction>, b: seq<Entry<Transaction>>, k: Kind)
    ensures TotalOf(a + [e] + b, k) == TotalOf(a + b, k) + (if e.data.kind == k then e.data.amount else 0.0)
  {
    TotalsConcat(a, b, k, "");
    TotalsConcat(a + [e], b, k, "");
    TotalsConcat(a, [e], k, "");
    assert [e][1..] == [];
  }

  /** The dialog's fields: the amount as typed, the rest as chosen. */
  datatype ExpenseForm = ExpenseForm(amount: string, description: string, category: string, date: Date, kind: Kind)

  /** The blank form: today's date and the expense type. */
  function BlankForm(today: Date): (f: ExpenseForm)
    ensures f.amount == "" && f.description == "" && f.category == ""
    ensures f.date == today && f.kind == Expense
  {
    ExpenseForm("", "", "", today, Expense)
  }

  /** The submitted data as a patch: every field is supplied. */
  function FullPatch(t: Transaction): ExpensePatch {
    ExpensePatch(Some(t.amount), Some(t.description), Some(t.category), Some(t.date), Some(t.kind))
  }

  /** Editing replaces every field: the merged record is the submitted one. */
  lemma FullPatchOverwrites(old_: Transaction, t: Transaction)
    ensures MergeExpense(old_, FullPatch(t)) == t
  {
  }

  class ExpensesPage {
    var openDialog: bool
    var editing: Option<Entry<Transaction>>
    var form: ExpenseForm

    constructor (today: Date)
      ensures !openDialog && editing == None && form == BlankForm(today)
    {
      openDialog, editing, form := false, None, BlankForm(today);
    }

    /** `handleOpenDialog(expense)`: with a transaction, copy it into the form
        (`amountText` is its amount as `toString` writes it) and edit it;
        without one, start a blank form for a new transaction. */
    method OpenDialog(e: Option<Entry<Transaction>>, amountText: string, today: Date)
      modifies this
      ensures openDialog && editing == e
      ensures e.Some? ==> form == ExpenseForm(amountText, e.value.data.description, e.value.data.category,
                                              e.value.data.date, e.value.data.kind)
      ensures e.None? ==> form == BlankForm(today)
    {
      if e.Some? {
        editing := e;
        form := ExpenseForm(amountText, e.value.data.description, e.value.data.category, e.value.data.date, e.value.data.kind);
      } else {
        editing := None;
        form := BlankForm(today);
      }
      openDialog := true;
    }

    /** `handleCloseDialog`: the form keeps what it holds. */
    method CloseDialog()
      modifies this
      ensures !openDialog && editing == None && form == old(form)
    {
      openDialog, editing := false, None;
    }

    /** `handleSubmit`: `amount` is what `parseFloat` makes of the typed text
        and `id` the id a new record would get. There is no validation. */
    method Submit(store: Store, id: string, amount: real)
      modifies this, store
      ensures var t := Transaction(amount, old(form.description), old(form.category), old(form.date), old(form.kind));
              && (old(editing).Some? ==> store.expenses == MergeById(old(store.expenses), old(editing).value.id, FullPatch(t), MergeExpense))
              && (old(editing).None? ==> store.expenses == [Entry(id, t)] + old(store.expenses))
      ensures store.categories == old(store.categories) && store.budgets == old(store.budgets) && store.goals == old(store.goals)
      ensures !openDialog && editing == None && form == old(form)
    {
      var t := Transaction(amount, form.description, form.category, form.date, form.kind);
      if editing.Some? {
        store.UpdateExpense(editing.value.id, FullPatch(t));
      } else {
        store.AddExpense(id, t);
      }
      CloseDialog();
    }

    /** `handleDelete`: only once the confirmation is accepted. */
    method Delete(store: Store, id: string, confirmed: bool)
      modifies store
      ensures confirmed ==> store.expenses == RemoveById(old(store.expenses), id)
      ensures !confirmed ==> store.expenses == old(store.expenses)
      ensures store.categories == old(store.categories) && store.budgets == old(store.budgets) && store.goals == old(store.goals)
    {
      if confirmed {
        store.DeleteExpense(id);
      }
    }
  }

  /** Editing a transaction whose id is unique changes that record into the
      submitted one and leaves every other record in place. */
  lemma EditReplacesRecord(s: seq<Entry<Transaction>>, i: nat, t: Transaction)
    requires i < |s|
    requires forall j :: 0 <= j < |s| && j != i ==> s[j].id != s[i].id
    ensures MergeById(s, s[i].id, FullPatch(t), MergeExpense) == s[i := Entry(s[i].id, t)]
  {
    var r := MergeById(s, s[i].id, FullPatch(t), MergeExpense);
    assert forall j :: 0 <= j < |s| ==> r[j] == s[i := Entry(s[i].id, t)][j];
  }
}
