/** The Categories page: each category's spending and number of expenses,
    its share of all spending, the add/edit dialog, and the per-category
    menu with its edit and delete actions. */
module CategoriesView {
  import opened Base
  import opened ClientStore
  import opened ClientTotals

  datatype Stats = Stats(totalAmount: real, transactionCount: nat)

  /** `getCategoryStats`: the expenses filed under the name, summed and counted. */
  function CategoryStats(s: seq<Entry<Transaction>>, name: string): (r: Stats)
    ensures r.totalAmount == SpentOn(s, name)
    ensures r.transactionCount == CountOn(s, name) && r.transactionCount <= |s|
    ensures r.transactionCount == 0 ==> r.totalAmount == 0.0
  {
    assert CountOn(s, name) == 0 ==> SpentOn(s, name) == 0.0 by {
      if CountOn(s, name) == 0 {
        NoCountNoSpending(s, name);
      }
    }
    Stats(SpentOn(s, name), CountOn(s, name))
  }

  /** The share label: the category's spending over all spending, in
      percent. All spending must be non-zero. */
  function SharePercent(s: seq<Entry<Transaction>>, name: string): (r: real)
    requires TotalOf(s, Expense) != 0.0
    ensures r * TotalOf(s, Expense) == CategoryStats(s, name).totalAmount * 100.0
  {
    CategoryStats(s, name).totalAmount / TotalOf(s, Expense) * 100.0
  }

  /** With non-negative amounts every share lies between 0 and 100. */
  lemma ShareIsAPercentage(s: seq<Entry<Transaction>>, name: string)
    requires NonNegativeAmounts(s) && TotalOf(s, Expense) != 0.0
    ensures 0.0 <= SharePercent(s, name) <= 100.0
  {
    SpentOnAtMostTotal(s, name);
    var t := TotalOf(s, Expense);
    var spent := SpentOn(s, name);
    var q := spent / t;
    assert t > 0.0 && q * t == spent;
    PositiveFactor(q, t);
    PositiveFactor(1.0 - q, t);
  }

  lemma PositiveFactor(x: real, t: real)
    requires t > 0.0 && x * t >= 0.0
    ensures x >= 0.0
  {
  }

  /** The dialog starts from an empty name, the default colour and a folder icon. */
  const BlankCategory := Category("", "#4CAF50", "\U{1F4C1}")

  /** Saving sends the whole form, so every field is supplied. */
  function FullPatch(c: Category): CategoryPatch {
    CategoryPatch(Some(c.name), Some(c.color), Some(c.icon))
  }

  /** Editing replaces every field: the merged record is the submitted one. */
  lemma FullPatchOverwrites(old_: Category, c: Category)
    ensures MergeCategory(old_, FullPatch(c)) == c
  {
  }

  class CategoriesPage {
    var openDialog: bool
    var editing: Option<Entry<Category>>
    var form: Category
    /** Whether the menu is anchored to a card (`anchorEl` is set). */
    var menuOpen: bool
    var selected: Option<Entry<Category>>

    constructor ()
      ensures !openDialog && editing == None && form == BlankCategory
      ensures !menuOpen && selected == None
    {
      openDialog, editing, form := false, None, BlankCategory;
      menuOpen, selected := false, None;
    }

    /** `handleOpenDialog(category)`: with a category, copy its name, colour
        and icon and edit it; without one, start from the blank form. */
    method OpenDialog(c: Option<Entry<Category>>)
      modifies this
      ensures openDialog && editing == c
      ensures form == (if c.Some? then c.value.data else BlankCategory)
      ensures menuOpen == old(menuOpen) && selected == old(selected)
    {
      editing := c;
      form := if c.Some? then c.value.data else BlankCategory;
      openDialog := true;
    }

    /** `handleCloseDialog`: the form keeps what it holds. */
    method CloseDialog()
      modifies this
      ensures !openDialog && editing == None && form == old(form)
      ensures menuOpen == old(menuOpen) && selected == old(selected)
    {
      openDialog, editing := false, None;
    }

    /** `handleSubmit`: nothing happens without a name; otherwise the form
        overwrites the category being edited, or is added under `id`, and
        the dialog closes. */
    method Submit(store: Store, id: string)
      modifies this, store
      ensures old(form.name) == "" ==> unchanged(this) && unchanged(store)
      ensures old(form.name) != "" ==>
                && (old(editing).Some? ==> store.categories == MergeById(old(store.categories), old(editing).value.id, FullPatch(old(form)), MergeCategory))
                && (old(editing).None? ==> store.categories == old(store.categories) + [Entry(id, old(form))])
                && store.expenses == old(store.expenses) && store.budgets == old(store.budgets) && store.goals == old(store.goals)
                && !openDialog && editing == None && form == old(form)
                && menuOpen == old(menuOpen) && selected == old(selected)
    {
      if form.name != "" {
        if editing.Some? {
          store.UpdateCategory(editing.value.id, FullPatch(form));
        } else {
          store.AddCategory(id, form);
        }
        CloseDialog();
      }
    }

    /** `handleMenuOpen`: the menu opens on a category's card. */
    method MenuOpen(c: Entry<Category>)
      modifies this
      ensures menuOpen && selected == Some(c)
      ensures openDialog == old(openDialog) && editing == old(editing) && form == old(form)
    {
      menuOpen, selected := true, Some(c);
    }

    /** `handleMenuClose`: the menu closes and forgets its category. */
    method MenuClose()
      modifies this
      ensures !menuOpen && selected == None
      ensures openDialog == old(openDialog) && editing == old(editing) && form == old(form)
    {
      menuOpen, selected := false, None;
    }

    /** `handleDelete`: only with a category selected and the confirmation
        accepted; then the menu closes. */
    method Delete(store: Store, confirmed: bool)
      modifies this, store
      ensures old(selected).Some? && confirmed ==>
                && store.categories == RemoveById(old(store.categories), old(selected).value.id)
                && !menuOpen && selected == None
      ensures !(old(selected).Some? && confirmed) ==> unchanged(this) && store.categories == old(store.categories)
      ensures store.expenses == old(store.expenses) && store.budgets == old(store.budgets) && store.goals == old(store.goals)
      ensures openDialog == old(openDialog) && editing == old(editing) && form == old(form)
    {
      if selected.Some? && confirmed {
        store.DeleteCategory(selected.value.id);
        MenuClose();
      }
    }

    /** `handleEdit`: the menu closes, and the dialog opens on the category
        the menu was opened for (the handler still holds the value it saw
        before the menu forgot it). */
    method Edit()
      modifies this
      ensures !menuOpen && selected == None
      ensures openDialog && editing == old(selected)
      ensures form == (if old(selected).Some? then old(selected).value.data else BlankCategory)
    {
      var c := selected;
      MenuClose();
      OpenDialog(c);
    }
  }
}
