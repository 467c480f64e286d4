/** The React client's ExpenseProvider: four lists of records, each keyed by
    a string id, changed only by the provider's add/update/delete
    operations. A new record's id (`Date.now().toString()`) is a parameter. */
module ClientStore {
  import opened Base

  /** A record of the client's lists: its id and the remaining fields. */
  datatype Entry<T> = Entry(id: string, data: T)

  datatype Transaction = Transaction(amount: real, description: string, category: string, date: Date, kind: Kind)
  datatype Category = Category(name: string, color: string, icon: string)
  datatype Budget = Budget(category: string, amount: real, spent: real, period: string)
  datatype Goal = Goal(name: string, target: real, current: real, deadline: Date)

  // ----------------------------------------------------- list operations

  /** `prev.map(x => x.id === id ? { ...x, ...patch } : x)` */
  function MergeById<T, P>(s: seq<Entry<T>>, id: string, p: P, merge: (T, P) -> T): (r: seq<Entry<T>>)
    ensures |r| == |s|
    ensures forall i :: 0 <= i < |s| && s[i].id == id ==> r[i] == Entry(id, merge(s[i].data, p))
    ensures forall i :: 0 <= i < |s| && s[i].id != id ==> r[i] == s[i]
  {
    seq(|s|, i requires 0 <= i < |s| => if s[i].id == id then Entry(id, merge(s[i].data, p)) else s[i])
  }

  /** `prev.filter(x => x.id !== id)` */
  function RemoveById<T>(s: seq<Entry<T>>, id: string): (r: seq<Entry<T>>)
    ensures |r| <= |s|
    ensures forall i :: 0 <= i < |r| ==> r[i].id != id
  {
    if s == [] then []
    else (if s[0].id == id then [] else [s[0]]) + RemoveById(s[1..], id)
  }

  /** Removal keeps exactly the other records. */
  lemma {:induction false} RemoveByIdMembers<T>(s: seq<Entry<T>>, id: string, x: Entry<T>)
    ensures x in RemoveById(s, id) <==> x in s && x.id != id
  {
    if s != [] {
      RemoveByIdMembers(s[1..], id, x);
      assert s == [s[0]] + s[1..];
    }
  }

  /** Removal splits over a concatenation, so the survivors keep their order. */
  lemma {:induction false} RemoveByIdDistributes<T>(a: seq<Entry<T>>, b: seq<Entry<T>>, id: string)
    ensures RemoveById(a + b, id) == RemoveById(a, id) + RemoveById(b, id)
  {
    if a == [] {
      assert a + b == b;
    } else {
      assert (a + b)[0] == a[0];
      assert (a + b)[1..] == a[1..] + b;
      RemoveByIdDistributes(a[1..], b, id);
    }
  }

  /** Removing an id no record has changes nothing. */
  lemma {:induction false} RemoveAbsentId<T>(s: seq<Entry<T>>, id: string)
    requires forall i :: 0 <= i < |s| ==> s[i].id != id
    ensures RemoveById(s, id) == s
  {
    if s != [] {
      assert forall i :: 0 <= i < |s[1..]| ==> s[1..][i] == s[i + 1];
      RemoveAbsentId(s[1..], id);
      assert s == [s[0]] + s[1..];
    }
  }

  /** Adding a record under a fresh id and deleting that id restores the list. */
  lemma AddThenRemove<T>(s: seq<Entry<T>>, e: Entry<T>)
    requires forall i :: 0 <= i < |s| ==> s[i].id != e.id
    ensures RemoveById([e] + s, e.id) == s
    ensures RemoveById(s + [e], e.id) == s
  {
    RemoveAbsentId(s, e.id);
    RemoveByIdDistributes([e], s, e.id);
    RemoveByIdDistributes(s, [e], e.id);
  }

  /** Merging into an id no record has changes nothing. */
  lemma MergeAbsentId<T, P>(s: seq<Entry<T>>, id: string, p: P, merge: (T, P) -> T)
    requires forall i :: 0 <= i < |s| ==> s[i].id != id
    ensures MergeById(s, id, p, merge) == s
  {
  }

  // ------------------------------------------------------------- patches

  /** The fields an `updateExpense` call supplies; absent ones keep their value. */
  datatype ExpensePatch = ExpensePatch(
    amount: Option<real>, description: Option<string>, category: Option<string>, date: Option<Date>, kind: Option<Kind>)

  function MergeExpense(e: Transaction, p: ExpensePatch): (r: Transaction)
    ensures p.amount.None? ==> r.amount == e.amount
    ensures p.description.None? ==> r.description == e.description
    ensures p.category.None? ==> r.category == e.category
    ensures p.date.None? ==> r.date == e.date
    ensures p.kind.None? ==> r.kind == e.kind
    ensures p.amount.Some? ==> r.amount == p.amount.value
    ensures p.description.Some? ==> r.description == p.description.value
    ensures p.category.Some? ==> r.category == p.category.value
    ensures p.date.Some? ==> r.date == p.date.value
    ensures p.kind.Some? ==> r.kind == p.kind.value
  {
    Transaction(p.amount.GetOr(e.amount), p.description.GetOr(e.description), p.category.GetOr(e.category),
            p.date.GetOr(e.date), p.kind.GetOr(e.kind))
  }

  /** The fields an `updateCategory` call supplies. */
  datatype CategoryPatch = CategoryPatch(name: Option<string>, color: Option<string>, icon: Option<string>)

  function MergeCategory(c: Category, p: CategoryPatch): (r: Category)
    ensures r.name == p.name.GetOr(c.name) && r.color == p.color.GetOr(c.color) && r.icon == p.icon.GetOr(c.icon)
    ensures p == CategoryPatch(None, None, None) ==> r == c
  {
    Category(p.name.GetOr(c.name), p.color.GetOr(c.color), p.icon.GetOr(c.icon))
  }

  /** What `addBudget` is given; a supplied `spent` is overridden. */
  datatype BudgetInput = BudgetInput(category: string, amount: real, period: string, spent: Option<real>)

  /** What `addGoal` is given; a supplied `current` is overridden. */
  datatype GoalInput = GoalInput(name: string, target: real, deadline: Date, current: Option<real>)

  // --------------------------------------------------------------- store

  class Store {
    var expenses: seq<Entry<Transaction>>
    var categories: seq<Entry<Category>>
    var budgets: seq<Entry<Budget>>
    var goals: seq<Entry<Goal>>

    /** The provider starts with four empty lists. */
    constructor ()
      ensures expenses == [] && categories == [] && budgets == [] && goals == []
    {
      expenses, categories, budgets, goals := [], [], [], [];
    }

    /** `addExpense`: the new record goes in front of the list. */
    method AddExpense(id: string, data: Transaction)
      modifies this
      ensures expenses == [Entry(id, data)] + old(expenses)
      ensures categories == old(categories) && budgets == old(budgets) && goals == old(goals)
    {
      expenses := [Entry(id, data)] + expenses;
    }

    /** `updateExpense`: merge the supplied fields into every record with the id. */
    method UpdateExpense(id: string, p: ExpensePatch)
      modifies this
      ensures expenses == MergeById(old(expenses), id, p, MergeExpense)
      ensures categories == old(categories) && budgets == old(budgets) && goals == old(goals)
    {
      expenses := MergeById(expenses, id, p, MergeExpense);
    }

    /** `deleteExpense`: drop every record with the id. */
    method DeleteExpense(id: string)
      modifies this
      ensures expenses == RemoveById(old(expenses), id)
      ensures categories == old(categories) && budgets == old(budgets) && goals == old(goals)
    {
      expenses := RemoveById(expenses, id);
    }

    /** `addBudget`: appended, with nothing spent yet. */
    method AddBudget(id: string, data: BudgetInput)
      modifies this
      ensures budgets == old(budgets) + [Entry(id, Budget(data.category, data.amount, 0.0, data.period))]
      ensures expenses == old(expenses) && categories == old(categories) && goals == old(goals)
    {
      budgets := budgets + [Entry(id, Budget(data.category, data.amount, 0.0, data.period))];
    }

    /** `addGoal`: appended, with no progress yet. */
    method AddGoal(id: string, data: GoalInput)
      modifies this
      ensures goals == old(goals) + [Entry(id, Goal(data.name, data.target, 0.0, data.deadline))]
      ensures expenses == old(expenses) && categories == old(categories) && budgets == old(budgets)
    {
      goals := goals + [Entry(id, Goal(data.name, data.target, 0.0, data.deadline))];
    }

    /** `addCategory`: appended. */
    method AddCategory(id: string, data: Category)
      modifies this
      ensures categories == old(categories) + [Entry(id, data)]
      ensures expenses == old(expenses) && budgets == old(budgets) && goals == old(goals)
    {
      categories := categories + [Entry(id, data)];
    }

    /** `updateCategory`: merge the supplied fields into every record with the id. */
    method UpdateCategory(id: string, p: CategoryPatch)
      modifies this
      ensures categories == MergeById(old(categories), id, p, MergeCategory)
      ensures expenses == old(expenses) && budgets == old(budgets) && goals == old(goals)
    {
      categories := MergeById(categories, id, p, MergeCategory);
    }

    /** `deleteCategory`: drop every record with the id. Expenses and budgets
        naming the category keep its name. */
    method DeleteCategory(id: string)
      modifies this
      ensures categories == RemoveById(old(categories), id)
      ensures expenses == old(expenses) && budgets == old(budgets) && goals == old(goals)
    {
      categories := RemoveById(categories, id);
    }
  }
}
