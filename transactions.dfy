/** The transaction controller: plain id-keyed create, read, update and delete over a
    shared transaction table, with no ownership checks. */
module Transactions {
  import opened Common

  datatype Transaction = Transaction(budgetId: BudgetId, description: string, amount: int, kind: string, date: int)

  predicate IsTransactionType(t: string)
  {
    t == "credit" || t == "debit"
  }

  /** The schema checked by `save`: every field required (an empty description fails
      `required`; an amount of 0 does not), and a type in {credit, debit}. */
  predicate CreateAccepted(budgetId: Option<BudgetId>, description: Option<string>, amount: Option<int>, kind: Option<string>)
  {
    && budgetId.Some? && TruthyText(description) && amount.Some?
    && kind.Some? && IsTransactionType(kind.value)
  }

  /** `findByIdAndUpdate(id, { description, amount, type })`: absent keys are dropped from the
      update, present ones overwrite, and no validator runs; `budgetId` and `date` are untouched. */
  function Patched(t: Transaction, description: Option<string>, amount: Option<int>, kind: Option<string>): (r: Transaction)
    ensures r.budgetId == t.budgetId && r.date == t.date
    ensures r.description == (if description.Some? then description.value else t.description)
    ensures r.amount == (if amount.Some? then amount.value else t.amount)
    ensures r.kind == (if kind.Some? then kind.value else t.kind)
  {
    var t1 := if description.Some? then t.(description := description.value) else t;
    var t2 := if amount.Some? then t1.(amount := amount.value) else t1;
    if kind.Some? then t2.(kind := kind.value) else t2
  }

  /** An update that carries no field at all leaves the transaction as it was. */
  lemma EmptyPatchIsIdentity(t: Transaction)
    ensures Patched(t, None, None, None) == t
  {
  }

  class TransactionStore {
    var transactions: map<TransactionId, Transaction>
    var nextId: TransactionId

    ghost predicate Valid()
      reads this
    {
      forall id :: id in transactions ==> id < nextId
    }

    constructor ()
      ensures Valid() && transactions == map[]
    {
      transactions := map[];
      nextId := 0;
    }

    /** getTransactions: every stored transaction, whoever asks. */
    method GetTransactions() returns (all: map<TransactionId, Transaction>)
      ensures all == transactions
    {
      all := transactions;
    }

    /** createTransaction: a failed save (a missing field or an unknown type) answers 400 and
        stores nothing; otherwise a record with exactly the given fields, dated `now`. */
    method CreateTransaction(budgetId: Option<BudgetId>, description: Option<string>, amount: Option<int>,
                             kind: Option<string>, now: int)
      returns (status: Status, id: Option<TransactionId>)
      requires Valid()
      modifies this
      ensures Valid()
      ensures status == Created <==> CreateAccepted(budgetId, description, amount, kind)
      ensures status != Created ==> status == BadRequest && id == None && transactions == old(transactions)
      ensures status == Created ==>
        && id == Some(old(nextId)) && old(nextId) !in old(transactions)
        && transactions == old(transactions)[old(nextId) :=
             Transaction(budgetId.value, description.value, amount.value, kind.value, now)]
    {
      if !CreateAccepted(budgetId, description, amount, kind) {
        return BadRequest, None;
      }
      var t := Transaction(budgetId.value, description.value, amount.value, kind.value, now);
      id := Some(nextId);
      transactions := transactions[nextId := t];
      nextId := nextId + 1;
      status := Created;
    }

    /** updateTransaction: 404 for an unknown id with the table unchanged; otherwise only
        `description`, `amount` and `type` of that record are written. */
    method UpdateTransaction(id: TransactionId, description: Option<string>, amount: Option<int>, kind: Option<string>)
      returns (status: Status)
      requires Valid()
      modifies this
      ensures Valid() && nextId == old(nextId)
      ensures id !in old(transactions) ==> status == NotFound && transactions == old(transactions)
      ensures id in old(transactions) ==>
        status == Ok && transactions == old(transactions)[id := Patched(old(transactions)[id], description, amount, kind)]
    {
      if id !in transactions {
        return NotFound;
      }
      transactions := transactions[id := Patched(transactions[id], description, amount, kind)];
      status := Ok;
    }

    /** deleteTransaction: removes exactly the record with that id; an unknown id is 404
        with the table unchanged. */
    method DeleteTransaction(id: TransactionId) returns (status: Status)
      requires Valid()
      modifies this
      ensures Valid() && nextId == old(nextId)
      ensures id in old(transactions) ==> status == Ok && transactions == old(transactions) - {id}
      ensures id !in old(transactions) ==> status == NotFound && transactions == old(transactions)
    {
      if id !in transactions {
        return NotFound;
      }
      transactions := transactions - {id};
      status := Ok;
    }
  }
}
