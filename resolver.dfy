/** Get-or-create of a category by name. The lookup
    `SELECT id FROM categories WHERE name = ?` has no owner filter: category
    names form one namespace shared by all users, and a user may be handed
    the id of a category another user created. */
module CategoryResolver {
  import opened Base
  import opened Tables

  /** The first category, in table order, whose name is exactly `name`. */
  function FindByName(cats: seq<Row<Category>>, name: string): (r: Option<nat>)
    ensures r.Some? ==> exists i :: 0 <= i < |cats| && cats[i].fields.name == name && cats[i].id == r.value
    ensures r.None? <==> forall i :: 0 <= i < |cats| ==> cats[i].fields.name != name
  {
    if cats == [] then None
    else if cats[0].fields.name == name then Some(cats[0].id)
    else
      var r := FindByName(cats[1..], name);
      assert forall i :: 1 <= i < |cats| ==> cats[i] == cats[1..][i - 1];
      r
  }

  lemma {:induction false} FindByNameAppend(cats: seq<Row<Category>>, row: Row<Category>, name: string)
    ensures FindByName(cats + [row], name) ==
              if FindByName(cats, name).Some? then FindByName(cats, name)
              else if row.fields.name == name then Some(row.id)
              else None
  {
    if cats == [] {
      assert cats + [row] == [row];
    } else {
      assert (cats + [row])[0] == cats[0];
      assert (cats + [row])[1..] == cats[1..] + [row];
      FindByNameAppend(cats[1..], row, name);
    }
  }

  /** The category row the resolver inserts for a caller. */
  function NewCategory(id: nat, userId: nat, name: string): Row<Category> {
    Row(id, Some(userId), Category(name, DefaultColor, DefaultIcon))
  }

  datatype Resolution = Resolution(id: nat, categories: seq<Row<Category>>)

  /** The category id a name resolves to, and the table afterwards: an
      existing category of that name (whoever owns it) is reused, otherwise
      a new one owned by the caller is appended under `freshId`. */
  function Resolve(cats: seq<Row<Category>>, name: string, userId: nat, freshId: nat): (r: Resolution)
    ensures FindByName(r.categories, name) == Some(r.id)
    ensures r.categories == cats || r.categories == cats + [NewCategory(freshId, userId, name)]
    ensures r.categories == cats <==> FindByName(cats, name).Some?
  {
    match FindByName(cats, name)
    case Some(id) => Resolution(id, cats)
    case None =>
      var row := NewCategory(freshId, userId, name);
      FindByNameAppend(cats, row, name);
      assert |cats + [row]| != |cats|;
      Resolution(freshId, cats + [row])
  }

  /** Shared namespace: once one user has resolved a name, every other user
      resolving the same name gets the same id and nothing is inserted. */
  lemma ResolveIsShared(cats: seq<Row<Category>>, name: string, u1: nat, u2: nat, fresh1: nat, fresh2: nat)
    ensures var r1 := Resolve(cats, name, u1, fresh1);
            var r2 := Resolve(r1.categories, name, u2, fresh2);
            r2.id == r1.id && r2.categories == r1.categories
  {
  }

  /** Only a caller-owned category is ever created, and only when the name
      is not taken by any user's category. */
  lemma ResolveCreatesOnlyOwned(cats: seq<Row<Category>>, name: string, userId: nat, freshId: nat)
    ensures var r := Resolve(cats, name, userId, freshId);
            r.categories != cats ==>
              (forall i :: 0 <= i < |cats| ==> cats[i].fields.name != name)
              && r.id == freshId
              && r.categories[|cats|].owner == Some(userId)
  {
  }

  /** Resolution as the route handlers run it: look the name up, insert on a miss. */
  method ResolveCategory(db: Db, userId: nat, name: string) returns (id: nat)
    requires db.Valid()
    modifies db
    ensures db.Valid()
    ensures var r := Resolve(old(db.categories), name, userId, old(db.nextCategoryId));
            id == r.id && db.categories == r.categories
    ensures db.nextCategoryId == if db.categories == old(db.categories) then old(db.nextCategoryId) else old(db.nextCategoryId) + 1
    ensures db.expenses == old(db.expenses) && db.budgets == old(db.budgets) && db.goals == old(db.goals)
    ensures db.nextExpenseId == old(db.nextExpenseId) && db.nextBudgetId == old(db.nextBudgetId)
    ensures db.nextGoalId == old(db.nextGoalId)
  {
    var found := FindByName(db.categories, name);
    if found.None? {
      id := db.nextCategoryId;
      AppendFreshKeepsIdsDistinct(db.categories, id, NewCategory(id, userId, name));
      db.categories := db.categories + [NewCategory(id, userId, name)];
      db.nextCategoryId := id + 1;
    } else {
      id := found.value;
    }
  }
}
