/** The expense controller: a table of expenses owned by the user who created them.
    Create checks required fields by truthiness; get, update and delete are
    owner-only and answer 404 otherwise; update is a truthiness-based partial update
    whose result must pass the schema when it is saved. */
module Expenses {
  import opened Common
  import opened Strings

  datatype Expense = Expense(
    name: string, note: Option<string>, kind: string, amount: int, category: CategoryId, user: UserId)

  /** The fields a create or update request body may carry; `None` is an absent field. */
  datatype ExpenseBody = ExpenseBody(
    name: Option<string>, note: Option<string>, kind: Option<string>, amount: Option<int>, category: Option<CategoryId>)

  const EmptyBody: ExpenseBody := ExpenseBody(None, None, None, None, None)

  /** `!name || !type || !amount || !category` answers 400: an empty name or type, or an
      amount of 0, counts as missing. */
  predicate HasRequiredFields(b: ExpenseBody)
  {
    TruthyText(b.name) && TruthyText(b.kind) && TruthyNumber(b.amount) && b.category.Some?
  }

  predicate IsExpenseType(t: string)
  {
    t == "credit" || t == "debit"
  }

  /** The schema rules checked on save, for a document whose strings the `trim` setter
      has already trimmed: a non-empty name, a type in {credit, debit}, an amount of at least 0. */
  predicate SchemaValid(e: Expense)
  {
    e.name != "" && IsExpenseType(e.kind) && e.amount >= 0
  }

  /** What every stored expense satisfies: it passed the schema and its strings are trimmed. */
  predicate Stored(e: Expense)
  {
    SchemaValid(e) && IsTrimmed(e.name) && (e.note.Some? ==> IsTrimmed(e.note.value))
  }

  /** The `trim` setter applied to an optional note. */
  function TrimNote(note: Option<string>): (r: Option<string>)
    ensures r.Some? <==> note.Some?
    ensures r.Some? ==> IsTrimmed(r.value)
  {
    match note
    case None => None
    case Some(s) => Some(Trim(s))
  }

  /** The document `new Expense({...})` builds from a body that passed the required-field check:
      owned by the caller, the name and the note trimmed by their setters, the other fields as sent. */
  function NewExpense(b: ExpenseBody, caller: UserId): (e: Expense)
    requires HasRequiredFields(b)
    ensures e.user == caller && IsTrimmed(e.name) && (e.note.Some? <==> b.note.Some?)
    ensures e.note.Some? ==> IsTrimmed(e.note.value)
    ensures e.kind == b.kind.value && e.amount == b.amount.value && e.category == b.category.value
  {
    Expense(Trim(b.name.value), TrimNote(b.note), b.kind.value, b.amount.value, b.category.value, caller)
  }

  /** The five assignments `expense.f = f || expense.f`, each through the path's setter. */
  function ApplyUpdate(e: Expense, b: ExpenseBody): (r: Expense)
    ensures r.user == e.user && IsTrimmed(r.name) && (r.note.Some? ==> IsTrimmed(r.note.value))
    ensures TruthyText(b.kind) ==> r.kind == b.kind.value
    ensures TruthyNumber(b.amount) ==> r.amount == b.amount.value
    ensures !TruthyNumber(b.amount) ==> r.amount == e.amount
  {
    e.(name := Trim(OrText(b.name, e.name)),
       note := TrimNote(if TruthyText(b.note) then b.note else e.note),
       kind := OrText(b.kind, e.kind),
       amount := OrNumber(b.amount, e.amount),
       category := if b.category.Some? then b.category.value else e.category)
  }

  /** Field by field, on a stored expense: a truthy value replaces the field (trimmed where the
      schema trims), a falsy or absent one, an amount of 0 included, keeps it; the owner never changes. */
  lemma UpdateFieldByField(e: Expense, b: ExpenseBody)
    requires Stored(e)
    ensures var r := ApplyUpdate(e, b);
      && r.user == e.user
      && r.name == (if TruthyText(b.name) then Trim(b.name.value) else e.name)
      && r.note == (if TruthyText(b.note) then Some(Trim(b.note.value)) else e.note)
      && r.kind == (if TruthyText(b.kind) then b.kind.value else e.kind)
      && r.amount == (if TruthyNumber(b.amount) then b.amount.value else e.amount)
      && r.category == (if b.category.Some? then b.category.value else e.category)
  {
    TrimOfTrimmed(e.name);
    if e.note.Some? {
      TrimOfTrimmed(e.note.value);
    }
  }

  /** An update with an empty body leaves a stored expense identical. */
  lemma EmptyUpdateIsIdentity(e: Expense)
    requires Stored(e)
    ensures ApplyUpdate(e, EmptyBody) == e
  {
    UpdateFieldByField(e, EmptyBody);
  }

  /** Applying the same body twice is applying it once. */
  lemma UpdateIdempotent(e: Expense, b: ExpenseBody)
    ensures ApplyUpdate(ApplyUpdate(e, b), b) == ApplyUpdate(e, b)
  {
    var once := ApplyUpdate(e, b);
    var twice := ApplyUpdate(once, b);
    assert twice.name == once.name by {
      TrimIdempotent(OrText(b.name, e.name));
    }
    assert twice.note == once.note by {
      if !TruthyText(b.note) && once.note.Some? {
        TrimOfTrimmed(once.note.value);
      }
    }
    assert twice.kind == once.kind && twice.amount == once.amount && twice.category == once.category;
  }

  /** An updated expense that passes the schema is again a stored expense. */
  lemma UpdateKeepsStored(e: Expense, b: ExpenseBody)
    requires SchemaValid(ApplyUpdate(e, b))
    ensures Stored(ApplyUpdate(e, b))
  {
  }

  /** The expense `id` exists and belongs to `caller`; anything else reads as 404. */
  predicate OwnedBy(expenses: map<ExpenseId, Expense>, id: ExpenseId, caller: UserId)
  {
    id in expenses && expenses[id].user == caller
  }

  class ExpenseStore {
    var expenses: map<ExpenseId, Expense>
    var nextId: ExpenseId

    ghost predicate Valid()
      reads this
    {
      forall id :: id in expenses ==> id < nextId && Stored(expenses[id])
    }

    constructor ()
      ensures Valid() && expenses == map[]
    {
      expenses := map[];
      nextId := 0;
    }

    /** createExpense: 400 when a required field is falsy; a document that fails the schema
        (a type other than credit/debit, a negative amount, a blank name) makes save throw, which
        answers 500; otherwise the new expense is stored with the caller as its owner. */
    method CreateExpense(caller: UserId, body: ExpenseBody) returns (status: Status, id: Option<ExpenseId>)
      requires Valid()
      modifies this
      ensures Valid()
      ensures !HasRequiredFields(body) ==> status == BadRequest
      ensures HasRequiredFields(body) && !SchemaValid(NewExpense(body, caller)) ==> status == ServerError
      ensures status != Created ==> id == None && expenses == old(expenses)
      ensures HasRequiredFields(body) && SchemaValid(NewExpense(body, caller)) ==>
        && status == Created && id == Some(old(nextId)) && old(nextId) !in old(expenses)
        && expenses == old(expenses)[old(nextId) := NewExpense(body, caller)]
    {
      if !(TruthyText(body.name) && TruthyText(body.kind) && TruthyNumber(body.amount) && body.category.Some?) {
        return BadRequest, None;
      }
      var expense := NewExpense(body, caller);
      if !SchemaValid(expense) {
        return ServerError, None;
      }
      id := Some(nextId);
      expenses := expenses[nextId := expense];
      nextId := nextId + 1;
      status := Created;
    }

    /** getUserExpenses: exactly the caller's expenses. */
    method GetUserExpenses(caller: UserId) returns (mine: map<ExpenseId, Expense>)
      ensures forall id :: id in mine <==> OwnedBy(expenses, id, caller)
      ensures forall id :: id in mine ==> id in expenses && mine[id] == expenses[id]
    {
      mine := map id | id in expenses && expenses[id].user == caller :: expenses[id];
    }

    /** getExpenseById: the expense only when it exists and the caller owns it, else 404. */
    method GetExpenseById(caller: UserId, id: ExpenseId) returns (status: Status, expense: Option<Expense>)
      ensures status == Ok <==> OwnedBy(expenses, id, caller)
      ensures status == Ok ==> expense == Some(expenses[id])
      ensures status != Ok ==> status == NotFound && expense == None
    {
      if id !in expenses || expenses[id].user != caller {
        return NotFound, None;
      }
      status, expense := Ok, Some(expenses[id]);
    }

    /** updateExpense: 404 unless the caller owns the expense; otherwise the five fields are
        assigned one by one and the document saved; a result the schema refuses answers 500 and
        nothing is stored. */
    method UpdateExpense(caller: UserId, id: ExpenseId, body: ExpenseBody) returns (status: Status)
      requires Valid()
      modifies this
      ensures Valid() && nextId == old(nextId)
      ensures !OwnedBy(old(expenses), id, caller) ==> status == NotFound && expenses == old(expenses)
      ensures OwnedBy(old(expenses), id, caller) && !SchemaValid(ApplyUpdate(old(expenses)[id], body)) ==>
        status == ServerError && expenses == old(expenses)
      ensures OwnedBy(old(expenses), id, caller) && SchemaValid(ApplyUpdate(old(expenses)[id], body)) ==>
        status == Ok && expenses == old(expenses)[id := ApplyUpdate(old(expenses)[id], body)]
    {
      if id !in expenses || expenses[id].user != caller {
        return NotFound;
      }
      var expense := expenses[id];
      expense := expense.(name := Trim(OrText(body.name, expense.name)));
      expense := expense.(note := TrimNote(if TruthyText(body.note) then body.note else expense.note));
      expense := expense.(kind := OrText(body.kind, expense.kind));
      expense := expense.(amount := OrNumber(body.amount, expense.amount));
      expense := expense.(category := if body.category.Some? then body.category.value else expense.category);
      if !SchemaValid(expense) {
        return ServerError;
      }
      UpdateKeepsStored(expenses[id], body);
      expenses := expenses[id := expense];
      status := Ok;
    }

    /** deleteExpense: 404 unless the caller owns the expense. For the owner the handler calls
        `expense.remove()`, a document method Mongoose 7 dropped: the call throws, the `catch`
        answers 500, and nothing is deleted. Either way the table is left as it was. */
    method DeleteExpense(caller: UserId, id: ExpenseId) returns (status: Status)
      ensures status == ServerError <==> OwnedBy(expenses, id, caller)
      ensures status != ServerError ==> status == NotFound
    {
      if id !in expenses || expenses[id].user != caller {
        return NotFound;
      }
      status := ServerError;
    }
  }

  /** An owner's delete answers 500 and the expense stays stored. */
  method OwnerCannotDeleteExpense(caller: UserId) returns (store: ExpenseStore, id: ExpenseId, status: Status)
    ensures store.Valid() && id in store.expenses && store.expenses[id].user == caller
    ensures status == ServerError
  {
    store := new ExpenseStore();
    TrimOfTrimmed("Fuel");
    var body := ExpenseBody(Some("Fuel"), None, Some("debit"), Some(40), Some(0));
    var created;
    status, created := store.CreateExpense(caller, body);
    assert status == Created;
    id := created.value;
    status := store.DeleteExpense(caller, id);
  }
}
