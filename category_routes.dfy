/** The category routes: list the shared default categories together with
    the caller's own, create one, change or delete one of the caller's own.
    The shared categories (NULL owner) are never written. */
module CategoryRoutes {
  import opened Base
  import opened Sorting
  import opened Tables

  /** `ORDER BY name` */
  predicate ByName(a: Row<Category>, b: Row<Category>) {
    TextLe(a.fields.name, b.fields.name)
  }

  lemma ByNameIsTotalPreorder()
    ensures TotalPreorder(ByName)
  {
    forall a, b ensures ByName(a, b) || ByName(b, a) {
      TextLeTotal(a.fields.name, b.fields.name);
    }
    forall a, b, c | ByName(a, b) && ByName(b, c) ensures ByName(a, c) {
      TextLeTransitive(a.fields.name, b.fields.name, c.fields.name);
    }
  }

  /** `user_id IS NULL OR user_id = ?` */
  predicate VisibleTo(row: Row<Category>, userId: nat) {
    row.owner.None? || row.owner == Some(userId)
  }

  function Visible(cats: seq<Row<Category>>, userId: nat): (r: seq<Row<Category>>)
    ensures forall c :: c in r <==> c in cats && VisibleTo(c, userId)
  {
    if cats == [] then []
    else
      assert cats == [cats[0]] + cats[1..];
      (if VisibleTo(cats[0], userId) then [cats[0]] else []) + Visible(cats[1..], userId)
  }

  /** `GET /api/categories`: the shared categories and the caller's own, by name. */
  function ListCategories(cats: seq<Row<Category>>, userId: nat): (r: seq<Row<Category>>)
    ensures SortedBy(r, ByName)
    ensures multiset(r) == multiset(Visible(cats, userId))
    ensures forall c :: c in r <==> c in cats && VisibleTo(c, userId)
  {
    var vis := Visible(cats, userId);
    ByNameIsTotalPreorder();
    SortByIsSorted(vis, ByName);
    PermutationMembers(vis, SortBy(vis, ByName));
    SortBy(vis, ByName)
  }

  /** `GET /api/expenses/categories/all`: every category of every user, by name. */
  function AllCategories(cats: seq<Row<Category>>): (r: seq<Row<Category>>)
    ensures multiset(r) == multiset(cats)
    ensures SortedBy(r, ByName)
  {
    ByNameIsTotalPreorder();
    SortByIsSorted(cats, ByName);
    SortBy(cats, ByName)
  }

  /** `POST /api/categories`: a name is required; a falsy color or icon
      falls back to the column default. */
  method CreateCategory(db: Db, userId: nat, name: Option<string>, color: Option<string>, icon: Option<string>)
      returns (r: Result<Row<Category>>)
    requires db.Valid()
    modifies db
    ensures db.Valid()
    ensures !Truthy(name) ==> r == Err(ValidationError) && unchanged(db)
    ensures Truthy(name) ==>
              var row := Row(old(db.nextCategoryId), Some(userId), Category(
                             name.value,
                             if Truthy(color) then color.value else DefaultColor,
                             if Truthy(icon) then icon.value else DefaultIcon));
              && db.categories == old(db.categories) + [row]
              && db.nextCategoryId == old(db.nextCategoryId) + 1
              && r == Ok(row)
    ensures db.expenses == old(db.expenses) && db.budgets == old(db.budgets) && db.goals == old(db.goals)
    ensures db.nextExpenseId == old(db.nextExpenseId) && db.nextBudgetId == old(db.nextBudgetId) && db.nextGoalId == old(db.nextGoalId)
  {
    if !Truthy(name) {
      return Err(ValidationError);
    }
    var id := db.nextCategoryId;
    var row := Row(id, Some(userId), Category(
                   name.value,
                   if Truthy(color) then color.value else DefaultColor,
                   if Truthy(icon) then icon.value else DefaultIcon));
    AppendFreshKeepsIdsDistinct(db.categories, db.nextCategoryId, row);
    db.categories := db.categories + [row];
    db.nextCategoryId := id + 1;
    r := Ok(row);
  }

  /** The body of `PUT /api/categories/:id`. */
  datatype CategoryPatch = CategoryPatch(name: Option<string>, color: Option<string>, icon: Option<string>)

  predicate HasUpdates(p: CategoryPatch) {
    Truthy(p.name) || Truthy(p.color) || Truthy(p.icon)
  }

  function ApplyCategoryPatch(c: Category, p: CategoryPatch): (r: Category)
    ensures r.name == (if Truthy(p.name) then p.name.value else c.name)
    ensures r.color == (if Truthy(p.color) then p.color.value else c.color)
    ensures r.icon == (if Truthy(p.icon) then p.icon.value else c.icon)
  {
    Category(
      if Truthy(p.name) then p.name.value else c.name,
      if Truthy(p.color) then p.color.value else c.color,
      if Truthy(p.icon) then p.icon.value else c.icon)
  }

  /** `PUT /api/categories/:id`: only a category the caller owns is changed,
      so a shared category never is; the row is read back by id alone. */
  method UpdateCategory(db: Db, userId: nat, id: nat, p: CategoryPatch) returns (r: Result<Option<Row<Category>>>)
    requires db.Valid()
    modifies db
    ensures db.Valid()
    ensures !HasUpdates(p) ==> r == Err(ValidationError) && unchanged(db)
    ensures HasUpdates(p) ==>
              && db.categories == UpdateWhere(old(db.categories), id, userId, p, ApplyCategoryPatch)
              && r == Ok(FindById(db.categories, id))
    ensures |db.categories| == |old(db.categories)|
    ensures forall i :: 0 <= i < |db.categories| && old(db.categories)[i].owner.None? ==> db.categories[i] == old(db.categories)[i]
    ensures db.expenses == old(db.expenses) && db.budgets == old(db.budgets) && db.goals == old(db.goals)
    ensures db.nextCategoryId == old(db.nextCategoryId)
    ensures db.nextExpenseId == old(db.nextExpenseId) && db.nextBudgetId == old(db.nextBudgetId) && db.nextGoalId == old(db.nextGoalId)
  {
    if !HasUpdates(p) {
      return Err(ValidationError);
    }
    ScopedWritesKeepIdsBelow(db.categories, id, userId, p, ApplyCategoryPatch, db.nextCategoryId);
    ScopedWritesKeepIdsDistinct(db.categories, id, userId, p, ApplyCategoryPatch);
    db.categories := UpdateWhere(db.categories, id, userId, p, ApplyCategoryPatch);
    r := Ok(FindById(db.categories, id));
  }

  /** `DELETE /api/categories/:id`: succeeds whether or not a row was
      removed; shared categories always survive. Transactions and budgets
      that pointed at a deleted category keep the dangling id. */
  method DeleteCategory(db: Db, userId: nat, id: nat) returns (r: Result<()>)
    requires db.Valid()
    modifies db
    ensures db.Valid()
    ensures r == Ok(())
    ensures db.categories == DeleteWhere(old(db.categories), id, userId)
    ensures forall c :: c in old(db.categories) && c.owner.None? ==> c in db.categories
    ensures db.expenses == old(db.expenses) && db.budgets == old(db.budgets) && db.goals == old(db.goals)
    ensures db.nextCategoryId == old(db.nextCategoryId)
    ensures db.nextExpenseId == old(db.nextExpenseId) && db.nextBudgetId == old(db.nextBudgetId) && db.nextGoalId == old(db.nextGoalId)
  {
    ScopedWritesKeepIdsBelow(db.categories, id, userId, CategoryPatch(None, None, None), ApplyCategoryPatch, db.nextCategoryId);
    ScopedWritesKeepIdsDistinct(db.categories, id, userId, CategoryPatch(None, None, None), ApplyCategoryPatch);
    db.categories := DeleteWhere(db.categories, id, userId);
    r := Ok(());
  }

  /** Category writes never touch another user's categories, nor the
      shared ones: every category visible to another user stays as it was. */
  lemma CategoryWritesAreScoped(cats: seq<Row<Category>>, id: nat, userId: nat, p: CategoryPatch, other: nat)
    requires other != userId
    ensures Visible(UpdateWhere(cats, id, userId, p, ApplyCategoryPatch), other) == Visible(cats, other)
    ensures Visible(DeleteWhere(cats, id, userId), other) == Visible(cats, other)
  {
    VisibleAfterUpdate(cats, id, userId, p, other);
    VisibleAfterDelete(cats, id, userId, other);
  }

  lemma {:induction false} VisibleAfterUpdate(cats: seq<Row<Category>>, id: nat, userId: nat, p: CategoryPatch, other: nat)
    requires other != userId
    ensures Visible(UpdateWhere(cats, id, userId, p, ApplyCategoryPatch), other) == Visible(cats, other)
  {
    if cats != [] {
      var u := UpdateWhere(cats, id, userId, p, ApplyCategoryPatch);
      VisibleAfterUpdate(cats[1..], id, userId, p, other);
      assert u[1..] == UpdateWhere(cats[1..], id, userId, p, ApplyCategoryPatch);
      assert VisibleTo(u[0], other) <==> VisibleTo(cats[0], other);
      assert VisibleTo(cats[0], other) ==> u[0] == cats[0];
    }
  }

  lemma {:induction false} VisibleAfterDelete(cats: seq<Row<Category>>, id: nat, userId: nat, other: nat)
    requires other != userId
    ensures Visible(DeleteWhere(cats, id, userId), other) == Visible(cats, other)
  {
    if cats != [] {
      VisibleAfterDelete(cats[1..], id, userId, other);
      var head := if IsTarget(cats[0], id, userId) then [] else [cats[0]];
      assert DeleteWhere(cats, id, userId) == head + DeleteWhere(cats[1..], id, userId);
      VisibleDistributes(head, DeleteWhere(cats[1..], id, userId), other);
      if VisibleTo(cats[0], other) {
        assert head == [cats[0]];
        assert Visible(head, other) == [cats[0]];
      } else {
        assert Visible(head, other) == [];
      }
    }
  }

  lemma {:induction false} VisibleDistributes(a: seq<Row<Category>>, b: seq<Row<Category>>, userId: nat)
    ensures Visible(a + b, userId) == Visible(a, userId) + Visible(b, userId)
  {
    if a == [] {
      assert a + b == b;
    } else {
      assert (a + b)[0] == a[0];
      assert (a + b)[1..] == a[1..] + b;
      VisibleDistributes(a[1..], b, userId);
    }
  }
}
