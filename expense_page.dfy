/** The expense page of the frontend: a table of expenses held in component state, a modal
    form that adds or edits a row, validation of its four fields, and deletion by position.
    The table is a JavaScript array, so an assignment past its end leaves holes. */
module ExpensePage {
  import opened Common
  import opened Lists

  /** A row's `id`: the form's empty text before a row is saved, a number afterwards. */
  datatype Id = Text(text: string) | Number(value: int)

  /** A row of the table; every field but the id is the text the form holds. */
  datatype Expense = Expense(id: Id, name: string, note: string, kind: string, amount: string)

  /** `{ id: '', name: '', note: '', type: '', amount: '' }`. */
  const EmptyForm: Expense := Expense(Text(""), "", "", "", "")

  /** The two rows the page starts with. */
  const SampleExpenses: seq<Expense> := [
    Expense(Number(1), "Car", "Others", "Expense", "500,000"),
    Expense(Number(2), "Groceries", "Food", "Expense", "5,000")]

  /** One place of the array behind the table: a row; a hole, the place an assignment past the
      end skips over; or an `undefined` element, what spreading the array turns a hole into. */
  datatype Slot = Row(row: Expense) | Hole | Undefined

  /** The sample rows as the array holds them. */
  const SampleRows: seq<Slot> := [Row(SampleExpenses[0]), Row(SampleExpenses[1])]

  /** The array has no holes. */
  predicate Dense(s: seq<Slot>)
  {
    forall i :: 0 <= i < |s| ==> !s[i].Hole?
  }

  /** The table renders: `expenses.map` skips holes but reads `exp.id` of an `undefined` element,
      which throws. */
  predicate Renders(s: seq<Slot>)
  {
    forall i :: 0 <= i < |s| ==> !s[i].Undefined?
  }

  /** `[...s]`: the same length, every hole read as `undefined`, every other place kept. */
  function Spread(s: seq<Slot>): (r: seq<Slot>)
    ensures |r| == |s| && Dense(r)
    ensures forall i :: 0 <= i < |s| ==> r[i] == (if s[i].Hole? then Undefined else s[i])
  {
    seq(|s|, i requires 0 <= i < |s| => if s[i].Hole? then Undefined else s[i])
  }

  /** Spreading an array without holes copies it. */
  lemma SpreadOfDense(s: seq<Slot>)
    requires Dense(s)
    ensures Spread(s) == s
  {
  }

  /** `s[index] = v`: inside the array the place is replaced; at or past the end the array grows
      to `index + 1`, with holes between the old end and `index`. */
  function SetAt(s: seq<Slot>, index: nat, v: Slot): (r: seq<Slot>)
    ensures |r| == if index < |s| then |s| else index + 1
    ensures r[index] == v
    ensures forall i :: 0 <= i < |s| && i != index ==> r[i] == s[i]
    ensures forall i :: |s| <= i < index ==> r[i].Hole?
  {
    if index < |s| then s[index := v] else s + seq(index - |s|, _ => Hole) + [v]
  }

  /** `s.filter((_, i) => i !== index)`: every place but `index` in order, except that `filter`
      visits no hole. */
  function FilterOut(s: seq<Slot>, index: int): (r: seq<Slot>)
    ensures |r| <= |s| && Dense(r)
    ensures forall i :: 0 <= i < |r| ==> r[i] in s
  {
    if s == [] then []
    else (if index == 0 || s[0].Hole? then [] else [s[0]]) + FilterOut(s[1..], index - 1)
  }

  /** On an array without holes, the filter is the removal by position of the list model. */
  lemma {:induction false} FilterOutOfDense(s: seq<Slot>, index: int)
    requires Dense(s)
    ensures FilterOut(s, index) == Without(s, index)
  {
    if s != [] {
      FilterOutOfDense(s[1..], index - 1);
    }
  }

  /** The form inputs that carry an `onChange` (the id input is disabled). */
  datatype FormField = Name | Note | Kind | Amount

  /** validateForm: one message per empty field, and only for those. */
  function FormErrors(form: Expense): (errors: map<FormField, string>)
    ensures Name in errors <==> form.name == ""
    ensures Note in errors <==> form.note == ""
    ensures Kind in errors <==> form.kind == ""
    ensures Amount in errors <==> form.amount == ""
    ensures Name in errors ==> errors[Name] == "Name is required"
    ensures Note in errors ==> errors[Note] == "Note is required"
    ensures Kind in errors ==> errors[Kind] == "Type is required"
    ensures Amount in errors ==> errors[Amount] == "Amount is required"
  {
    var e0: map<FormField, string> := map[];
    var e1 := if form.name == "" then e0[Name := "Name is required"] else e0;
    var e2 := if form.note == "" then e1[Note := "Note is required"] else e1;
    var e3 := if form.kind == "" then e2[Kind := "Type is required"] else e2;
    if form.amount == "" then e3[Amount := "Amount is required"] else e3
  }

  /** The form is accepted exactly when all four fields are filled in. */
  lemma FormAcceptedIff(form: Expense)
    ensures |FormErrors(form)| == 0 <==>
      form.name != "" && form.note != "" && form.kind != "" && form.amount != ""
  {
    var errors := FormErrors(form);
    if form.name == "" {
      assert Name in errors;
    } else if form.note == "" {
      assert Note in errors;
    } else if form.kind == "" {
      assert Kind in errors;
    } else if form.amount == "" {
      assert Amount in errors;
    } else {
      assert errors.Keys == {};
    }
  }

  /** The form after `[name]: value` for one of its inputs. */
  function WithField(form: Expense, field: FormField, value: string): (r: Expense)
    ensures r.id == form.id
    ensures r.name == (if field == Name then value else form.name)
    ensures r.note == (if field == Note then value else form.note)
    ensures r.kind == (if field == Kind then value else form.kind)
    ensures r.amount == (if field == Amount then value else form.amount)
  {
    match field
    case Name => form.(name := value)
    case Note => form.(note := value)
    case Kind => form.(kind := value)
    case Amount => form.(amount := value)
  }

  class Page {
    var showModal: bool
    var expense: Expense
    var expenses: seq<Slot>
    var editingIndex: Option<nat>
    var errors: map<FormField, string>

    // The page keeps no invariant over these fields: the table's buttons stay reachable by the
    // keyboard behind the modal's overlay, so a row can be deleted while another is being
    // edited, and the editing index may then point at a different row or past the end.

    constructor ()
      ensures !showModal && expense == EmptyForm && expenses == SampleRows
      ensures editingIndex == None && errors == map[]
    {
      showModal := false;
      expense := EmptyForm;
      expenses := SampleRows;
      editingIndex := None;
      errors := map[];
    }

    /** handleInputChange: the named field of the form takes the typed text; nothing else changes. */
    method HandleInputChange(field: FormField, value: string)
      modifies this
      ensures expense == WithField(old(expense), field, value)
      ensures showModal == old(showModal) && expenses == old(expenses)
      ensures editingIndex == old(editingIndex) && errors == old(errors)
    {
      expense := WithField(expense, field, value);
    }

    /** handleSubmit (its button is in the modal): a form with errors only shows them. Otherwise
        the form is written at the editing index of a copy of the table, or appended to it with
        the id `expenses.length + 1`; then the modal closes and form, editing and errors reset. */
    method HandleSubmit()
      requires showModal
      modifies this
      ensures |FormErrors(old(expense))| > 0 ==>
        && errors == FormErrors(old(expense))
        && expenses == old(expenses) && expense == old(expense)
        && showModal && editingIndex == old(editingIndex)
      ensures |FormErrors(old(expense))| == 0 ==>
        && expenses == (if old(editingIndex).Some?
                        then SetAt(Spread(old(expenses)), old(editingIndex).value, Row(old(expense)))
                        else Spread(old(expenses)) + [Row(old(expense).(id := Number(|old(expenses)| + 1)))])
        && !showModal && expense == EmptyForm && editingIndex == None && errors == map[]
      ensures (&& |FormErrors(old(expense))| == 0 && Dense(old(expenses))
               && old(editingIndex).Some? && old(editingIndex).value < |old(expenses)|) ==>
        expenses == old(expenses)[old(editingIndex).value := Row(old(expense))]
    {
      var formErrors := FormErrors(expense);
      if |formErrors| > 0 {
        errors := formErrors;
        return;
      }
      if Dense(expenses) {
        SpreadOfDense(expenses);
      }
      var updated := Spread(expenses);
      if editingIndex.Some? {
        expenses := SetAt(updated, editingIndex.value, Row(expense));
      } else {
        expenses := updated + [Row(expense.(id := Number(|expenses| + 1)))];
      }
      showModal := false;
      expense := EmptyForm;
      editingIndex := None;
      errors := map[];
    }

    /** handleNewExpense: an empty form in an open modal, not editing any row, no errors shown. */
    method HandleNewExpense()
      modifies this
      ensures expense == EmptyForm && editingIndex == None && showModal && errors == map[]
      ensures expenses == old(expenses)
    {
      expense := EmptyForm;
      editingIndex := None;
      showModal := true;
      errors := map[];
    }

    /** handleEdit (its button is on a rendered row, so `index` holds a row): that row becomes
        the form and the modal opens to edit it. */
    method HandleEdit(index: nat)
      requires index < |expenses| && expenses[index].Row?
      modifies this
      ensures editingIndex == Some(index) && expense == old(expenses)[index].row && showModal
      ensures expenses == old(expenses) && errors == old(errors)
    {
      editingIndex := Some(index);
      expense := expenses[index].row;
      showModal := true;
    }

    /** handleDelete, open modal or not: the place at `index` is filtered out, the others keep
        their order; on a table without holes that is removal at `index`. */
    method HandleDelete(index: int)
      modifies this
      ensures expenses == FilterOut(old(expenses), index)
      ensures Dense(old(expenses)) && 0 <= index < |old(expenses)| ==>
        expenses == old(expenses)[..index] + old(expenses)[index + 1..]
      ensures Dense(old(expenses)) && !(0 <= index < |old(expenses)|) ==> expenses == old(expenses)
      ensures showModal == old(showModal) && expense == old(expense)
      ensures editingIndex == old(editingIndex) && errors == old(errors)
    {
      if Dense(expenses) {
        FilterOutOfDense(expenses, index);
        WithoutIsRemoval(expenses, index);
      }
      expenses := FilterOut(expenses, index);
    }

    /** The Cancel button: the modal closes and nothing else changes. */
    method Cancel()
      modifies this
      ensures !showModal && expense == old(expense) && expenses == old(expenses)
      ensures editingIndex == old(editingIndex) && errors == old(errors)
    {
      showModal := false;
    }
  }

  /** The form a user fills in to add a fuel expense. */
  const FuelForm: Expense := Expense(Text(""), "Fuel", "Car", "Debit", "40")

  /** "New Expense", the four fields typed in, and "Add Expense": the row is appended with the
      id `expenses.length + 1`, and the modal is closed again. */
  method AddFuelExpense(page: Page)
    modifies page
    ensures page.expenses == Spread(old(page.expenses)) + [Row(FuelForm.(id := Number(|old(page.expenses)| + 1)))]
    ensures !page.showModal && page.editingIndex == None && page.expense == EmptyForm
  {
    page.HandleNewExpense();
    page.HandleInputChange(Name, "Fuel");
    page.HandleInputChange(Note, "Car");
    page.HandleInputChange(Kind, "Debit");
    page.HandleInputChange(Amount, "40");
    assert page.expense == FuelForm;
    page.HandleSubmit();
  }

  /** Numbering a new row by the length of the table reuses the id of a surviving row once an
      earlier row has been deleted: after deleting the first sample row and adding one, both
      rows carry id 2. */
  method DeleteThenAddRepeatsAnId() returns (page: Page)
    ensures |page.expenses| == 2 && page.expenses[0] == Row(SampleExpenses[1])
    ensures page.expenses[1].Row? && page.expenses[1].row.id == page.expenses[0].row.id == Number(2)
  {
    page := new Page();
    page.HandleDelete(0);
    assert page.expenses == [SampleRows[1]] by {
      assert SampleRows[1..] == [SampleRows[1]];
    }
    SpreadOfDense(page.expenses);
    AddFuelExpense(page);
  }

  /** The edit modal open on the sample row at `index`, and the first row then deleted by
      keyboard from behind the overlay. */
  method EditThenDeleteFirst(index: nat) returns (page: Page)
    requires index < 2
    ensures fresh(page)
    ensures page.showModal && page.editingIndex == Some(index) && page.expense == SampleExpenses[index]
    ensures page.expenses == [SampleRows[1]]
  {
    page := new Page();
    page.HandleEdit(index);
    page.HandleDelete(0);
    assert SampleRows[1..] == [SampleRows[1]];
  }

  /** Deleting the first row by keyboard while the second is being edited, then saving, writes
      the form one place past the end of the shortened table: the table then holds the second
      sample row twice, id 2 both times. */
  method KeyboardDeleteDuplicatesRow() returns (page: Page)
    ensures page.expenses == [Row(SampleExpenses[1]), Row(SampleExpenses[1])]
  {
    page := EditThenDeleteFirst(1);
    SpreadOfDense(page.expenses);
    assert |FormErrors(page.expense)| == 0 by {
      FormAcceptedIff(page.expense);
    }
    page.HandleSubmit();
  }

  /** Deleting by keyboard the very row being edited, then saving, writes the edited row over
      the row that moved into its place: the second sample row is lost. */
  method KeyboardDeleteOverwritesRow() returns (page: Page)
    ensures page.expenses == [Row(SampleExpenses[0])]
  {
    page := EditThenDeleteFirst(0);
    assert |FormErrors(page.expense)| == 0 by {
      FormAcceptedIff(page.expense);
    }
    page.HandleSubmit();
  }

  /** Adding a row to the sample table gives a third row, numbered 3, with every field filled in. */
  method AddThirdRow() returns (page: Page)
    ensures fresh(page)
    ensures |page.expenses| == 3 && Dense(page.expenses) && Renders(page.expenses)
    ensures page.expenses[2] == Row(FuelForm.(id := Number(3)))
  {
    page := new Page();
    SpreadOfDense(SampleRows);
    AddFuelExpense(page);
  }

  /** Editing the third row and deleting the first row twice by keyboard leaves the editing
      index two places past the end of the table. */
  method ReachStaleIndex() returns (page: Page)
    ensures page.showModal && Dense(page.expenses) && Renders(page.expenses)
    ensures page.editingIndex == Some(|page.expenses| + 1) && |FormErrors(page.expense)| == 0
  {
    page := AddThirdRow();
    var third := page.expenses[2];
    page.HandleEdit(2);
    page.HandleDelete(0);
    assert page.expenses[1] == third;
    page.HandleDelete(0);
    assert page.expenses == [third];
    FormAcceptedIff(page.expense);
  }

  /** With the editing index two places past the end (two rows deleted by keyboard during an
      edit), saving leaves a hole, which the table still renders; the next added row spreads the
      hole into an `undefined` element, and the table no longer renders. */
  method StaleIndexBreaksTable(page: Page)
    requires page.showModal && Dense(page.expenses) && Renders(page.expenses)
    requires page.editingIndex == Some(|page.expenses| + 1) && |FormErrors(page.expense)| == 0
    modifies page
    ensures !Renders(page.expenses)
  {
    var n := |page.expenses|;
    page.HandleSubmit();
    assert page.expenses[n].Hole? && Renders(page.expenses);
    AddFuelExpense(page);
    assert page.expenses[n].Undefined?;
  }

  /** Editing a row and saving the form untouched spreads the table: a table without holes is
      left as it was. */
  method EditAndSaveUnchanged(page: Page, index: nat)
    requires index < |page.expenses| && page.expenses[index].Row?
    requires |FormErrors(page.expenses[index].row)| == 0
    modifies page
    ensures page.expenses == Spread(old(page.expenses)) && !page.showModal && page.editingIndex == None
    ensures Dense(old(page.expenses)) ==> page.expenses == old(page.expenses)
  {
    var before := page.expenses;
    page.HandleEdit(index);
    page.HandleSubmit();
    assert Spread(before)[index] == before[index];
    assert SetAt(Spread(before), index, before[index]) == Spread(before);
    if Dense(before) {
      SpreadOfDense(before);
    }
  }
}
