/** The category controller: a table of per-user categories (name, budget, owner)
    in which every lookup is keyed on the pair (id, caller). */
module Categories {
  import opened Common
  import opened Strings
  import Expenses

  datatype Category = Category(name: string, budget: int, user: UserId)

  /** The controller's own check, shared by create and update:
      `!name || budget === undefined` answers 400. A budget of 0 passes. */
  predicate HasRequiredFields(name: Option<string>, budget: Option<int>)
  {
    TruthyText(name) && budget.Some?
  }

  /** The schema rules a document must meet on save: a name that is not empty once
      trimmed (`required`, `trim`), a budget of at least 0 (`min: 0`). */
  predicate SchemaValid(c: Category)
  {
    Trim(c.name) != "" && c.budget >= 0
  }

  /** The record with key `id` belongs to `caller`: the `{ _id: id, user: caller }` filter matches. */
  predicate OwnedBy(categories: map<CategoryId, Category>, id: CategoryId, caller: UserId)
  {
    id in categories && categories[id].user == caller
  }

  class CategoryStore {
    var categories: map<CategoryId, Category>
    var nextId: CategoryId

    ghost predicate Valid()
      reads this
    {
      forall id :: id in categories ==> id < nextId
    }

    /** The property the schema's `min: 0` is meant to give the whole table. */
    ghost predicate BudgetsNonNegative()
      reads this
    {
      forall id :: id in categories ==> categories[id].budget >= 0
    }

    constructor ()
      ensures Valid() && BudgetsNonNegative() && categories == map[]
    {
      categories := map[];
      nextId := 0;
    }

    /** createCategory: 400 for a missing name or budget, 400 ("Validation Error") when the
        trimmed name is empty or the budget negative; otherwise a new record owned by the caller. */
    method CreateCategory(caller: UserId, name: Option<string>, budget: Option<int>)
      returns (status: Status, id: Option<CategoryId>)
      requires Valid()
      modifies this
      ensures Valid()
      ensures old(BudgetsNonNegative()) ==> BudgetsNonNegative()
      ensures status == Created <==>
        HasRequiredFields(name, budget) && Trim(name.value) != "" && budget.value >= 0
      ensures status != Created ==> status == BadRequest && id == None && categories == old(categories)
      ensures status == Created ==>
        && id == Some(old(nextId)) && old(nextId) !in old(categories)
        && categories == old(categories)[old(nextId) := Category(Trim(name.value), budget.value, caller)]
    {
      if !HasRequiredFields(name, budget) {
        return BadRequest, None;
      }
      var trimmed := Trim(name.value);
      var category := Category(trimmed, budget.value, caller);
      assert SchemaValid(category) <==> trimmed != "" && budget.value >= 0 by {
        TrimIdempotent(name.value);
      }
      // Mongoose reports a ValidationError, which the handler answers with 400.
      if !SchemaValid(category) {
        return BadRequest, None;
      }
      id := Some(nextId);
      categories := categories[nextId := category];
      nextId := nextId + 1;
      status := Created;
    }

    /** getAllCategories: exactly the caller's categories, nobody else's. */
    method GetAllCategories(caller: UserId) returns (mine: map<CategoryId, Category>)
      ensures forall id :: id in mine <==> OwnedBy(categories, id, caller)
      ensures forall id :: id in mine ==> id in categories && mine[id] == categories[id] && mine[id].user == caller
    {
      mine := map id | id in categories && categories[id].user == caller :: categories[id];
    }

    /** getCategoryById: the record only when both the id and the owner match, else 404. */
    method GetCategoryById(caller: UserId, id: CategoryId) returns (status: Status, category: Option<Category>)
      ensures status == Ok <==> OwnedBy(categories, id, caller)
      ensures status == Ok ==> category == Some(categories[id])
      ensures status != Ok ==> status == NotFound && category == None
    {
      if id in categories && categories[id].user == caller {
        return Ok, Some(categories[id]);
      }
      return NotFound, None;
    }

    /** updateCategory: the same 400 check as create, then 404 unless (id, caller) matches;
        otherwise only the name (trimmed) and the budget of that record change. The update
        query runs no schema validators, so a negative budget is stored as given. */
    method UpdateCategory(caller: UserId, id: CategoryId, name: Option<string>, budget: Option<int>)
      returns (status: Status)
      requires Valid()
      modifies this
      ensures Valid() && nextId == old(nextId)
      ensures !HasRequiredFields(name, budget) ==> status == BadRequest && categories == old(categories)
      ensures HasRequiredFields(name, budget) && !OwnedBy(old(categories), id, caller) ==>
        status == NotFound && categories == old(categories)
      ensures HasRequiredFields(name, budget) && OwnedBy(old(categories), id, caller) ==>
        && status == Ok
        && categories == old(categories)[id := old(categories)[id].(name := Trim(name.value), budget := budget.value)]
    {
      if !HasRequiredFields(name, budget) {
        return BadRequest;
      }
      if !(id in categories && categories[id].user == caller) {
        return NotFound;
      }
      categories := categories[id := categories[id].(name := Trim(name.value), budget := budget.value)];
      status := Ok;
    }

    /** deleteCategory: removes exactly the record matching (id, caller); anything else is 404
        with the table unchanged. */
    method DeleteCategory(caller: UserId, id: CategoryId) returns (status: Status)
      requires Valid()
      modifies this
      ensures Valid() && nextId == old(nextId)
      ensures old(BudgetsNonNegative()) ==> BudgetsNonNegative()
      ensures OwnedBy(old(categories), id, caller) ==> status == Ok && categories == old(categories) - {id}
      ensures !OwnedBy(old(categories), id, caller) ==> status == NotFound && categories == old(categories)
    {
      if !(id in categories && categories[id].user == caller) {
        return NotFound;
      }
      categories := categories - {id};
      status := Ok;
    }
  }

  /** Because the update path runs no validators, one update can break the budget rule
      that every create enforces. */
  method NegativeBudgetThroughUpdate(caller: UserId) returns (store: CategoryStore, rent: CategoryId)
    ensures store.Valid() && rent in store.categories && store.categories[rent].user == caller
    ensures store.categories[rent].budget == -5 && !store.BudgetsNonNegative()
  {
    store := new CategoryStore();
    TrimOfTrimmed("Rent");
    var status, id := store.CreateCategory(caller, Some("Rent"), Some(1000));
    assert status == Created && store.BudgetsNonNegative();
    rent := id.value;
    status := store.UpdateCategory(caller, rent, Some("Rent"), Some(-5));
    assert status == Ok;
  }

  /** deleteCategory imports the expense model but never uses it: deleting a category leaves
      every expense, including those that name the category, exactly as it was. */
  method DeleteCategoryKeepsExpenses(
    store: CategoryStore, expenseStore: Expenses.ExpenseStore, caller: UserId, id: CategoryId)
    returns (status: Status)
    requires store.Valid()
    modifies store
    ensures expenseStore.expenses == old(expenseStore.expenses)
    ensures status == Ok <==> OwnedBy(old(store.categories), id, caller)
  {
    status := store.DeleteCategory(caller, id);
  }
}
