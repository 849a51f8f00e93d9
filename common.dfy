/** Shared vocabulary of the server controllers: identifiers, optional request
    fields, HTTP statuses and JavaScript truthiness of request-body values. */
module Common {

  datatype Option<T> = None | Some(value: T)

  /** Document identifiers (MongoDB ObjectIds) are modelled as naturals. */
  type UserId = nat
  type GroupId = nat
  type CategoryId = nat
  type ExpenseId = nat
  type TransactionId = nat
  type BudgetId = nat

  /** The HTTP statuses the controllers answer with: 200, 201, 400, 403, 404 and 500. */
  datatype Status = Ok | Created | BadRequest | Forbidden | NotFound | ServerError

  /** A request-body string field: absent (`undefined`) is `None`.
      JavaScript treats it as truthy iff it is present and not empty. */
  predicate TruthyText(v: Option<string>)
  {
    v.Some? && v.value != ""
  }

  /** A request-body number field: truthy iff present and not zero. */
  predicate TruthyNumber(v: Option<int>)
  {
    v.Some? && v.value != 0
  }

  /** `v || fallback` for a string field. */
  function OrText(v: Option<string>, fallback: string): (r: string)
    ensures TruthyText(v) ==> r == v.value
    ensures !TruthyText(v) ==> r == fallback
  {
    if TruthyText(v) then v.value else fallback
  }

  /** `v || fallback` for a number field. */
  function OrNumber(v: Option<int>, fallback: int): (r: int)
    ensures TruthyNumber(v) ==> r == v.value
    ensures !TruthyNumber(v) ==> r == fallback
  {
    if TruthyNumber(v) then v.value else fallback
  }
}
