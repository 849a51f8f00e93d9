/** The category page of the frontend: a list of category cards (label, budget, amount spent)
    held in component state, a modal form that adds or edits a card, validation of that
    form, deletion by position, and the two slices of each card's doughnut chart. */
module CategoryPage {
  import opened Common
  import opened Strings
  import opened Lists

  /** A budget as the page holds it: the text typed into the number input, a number
      (the sample cards, or a parsed budget), or NaN. */
  datatype Budget = Text(text: string) | Number(value: int) | NaN

  /** JavaScript truthiness of a budget: "" , 0 and NaN are falsy; any other text, "0" included, is truthy. */
  predicate Truthy(b: Budget)
  {
    match b
    case Text(s) => s != ""
    case Number(n) => n != 0
    case NaN => false
  }

  /** A card: its `label` (here `name`, `label` being a Dafny keyword), budget and amount spent. */
  datatype CategoryItem = CategoryItem(name: string, budget: Budget, expense: int)

  /** `{ label: '', budget: '', expense: 0 }`: the form when nothing has been typed. */
  const EmptyForm: CategoryItem := CategoryItem("", Text(""), 0)

  /** The three cards the page starts with. */
  const SampleData: seq<CategoryItem> := [
    CategoryItem("Rent", Number(1000), 800),
    CategoryItem("Groceries", Number(300), 150),
    CategoryItem("Utilities", Number(200), 180)]

  /** The two inputs of the form, by their `name` attribute. */
  datatype FormField = Label | BudgetField

  /** validateForm: one message per falsy field, and only for those. */
  function FormErrors(form: CategoryItem): (errors: map<FormField, string>)
    ensures Label in errors <==> form.name == ""
    ensures BudgetField in errors <==> !Truthy(form.budget)
    ensures Label in errors ==> errors[Label] == "Category name is required"
    ensures BudgetField in errors ==> errors[BudgetField] == "Budget is required"
  {
    var labelErrors := if form.name == "" then map[Label := "Category name is required"] else map[];
    if Truthy(form.budget) then labelErrors else labelErrors[BudgetField := "Budget is required"]
  }

  /** The form is accepted exactly when the label is non-empty and the budget truthy. */
  lemma FormAcceptedIff(form: CategoryItem)
    ensures |FormErrors(form)| == 0 <==> form.name != "" && Truthy(form.budget)
  {
    var errors := FormErrors(form);
    if form.name == "" {
      assert Label in errors;
    } else if !Truthy(form.budget) {
      assert BudgetField in errors;
    } else {
      assert errors.Keys == {};
    }
  }

  // ---------------------------------------------------------------------------
  // parseFloat

  /** The longest prefix of `s` made of decimal digits. */
  function DigitPrefix(s: string): (p: string)
    ensures |p| <= |s| && p == s[..|p|] && AllDigits(p)
    ensures |p| == |s| || !IsDigit(s[|p|])
  {
    if s == "" || !IsDigit(s[0]) then "" else [s[0]] + DigitPrefix(s[1..])
  }

  /** `parseFloat(s)` on integers: leading white space is skipped, an optional sign is read, then
      the longest run of digits; with no digit the result is NaN, and whatever follows is ignored. */
  function ParseFloatText(s: string): (b: Budget)
    ensures b.Number? || b.NaN?
  {
    var t := TrimStart(s);
    var signed := t != "" && (t[0] == '-' || t[0] == '+');
    var digits := DigitPrefix(if signed then t[1..] else t);
    if digits == "" then NaN
    else if signed && t[0] == '-' then Number(-(DigitsValue(digits) as int))
    else Number(DigitsValue(digits))
  }

  /** `parseFloat(budget)`: a number is read back through its decimal text, NaN stays NaN. */
  function ParseFloat(b: Budget): (r: Budget)
    ensures r.Number? || r.NaN?
    ensures b.Number? ==> r == b
  {
    match b
    case Text(s) => ParseFloatText(s)
    case Number(n) => Number(n)
    case NaN => NaN
  }

  lemma {:induction false} DigitPrefixOfDigits(d: string, rest: string)
    requires AllDigits(d) && (rest == "" || !IsDigit(rest[0]))
    ensures DigitPrefix(d + rest) == d
  {
    if d != "" {
      assert (d + rest)[1..] == d[1..] + rest;
      DigitPrefixOfDigits(d[1..], rest);
    } else {
      assert d + rest == rest;
    }
  }

  /** A string that starts with something other than white space has nothing to trim at its start. */
  lemma TrimStartOfNonWhitespace(s: string)
    requires s != "" && !IsWhitespace(s[0])
    ensures TrimStart(s) == s
  {
  }

  /** The decimal text of a natural, followed by anything that does not continue the digits,
      parses back to that natural. */
  lemma ParseFloatReadsLeadingNumber(n: nat, rest: string)
    requires rest == "" || !IsDigit(rest[0])
    ensures ParseFloatText(NatToString(n) + rest) == Number(n)
  {
    var d := NatToString(n);
    var s := d + rest;
    assert s[0] == d[0] && IsDigit(d[0]);
    TrimStartOfNonWhitespace(s);
    DigitPrefixOfDigits(d, rest);
    ParseNatToString(n);
    assert DigitsValue(d) == n;
  }

  /** A minus sign before the digits gives the negated number. */
  lemma ParseFloatReadsNegative(n: nat)
    requires n > 0
    ensures ParseFloatText("-" + NatToString(n)) == Number(-(n as int))
  {
    var d := NatToString(n);
    var s := "-" + d;
    TrimStartOfNonWhitespace(s);
    assert s[1..] == d + "";
    DigitPrefixOfDigits(d, "");
    ParseNatToString(n);
    assert DigitsValue(d) == n;
  }

  // ---------------------------------------------------------------------------
  // Chart

  /** getChartData: with a truthy budget the slices are the amount spent and what remains,
      which together make up the budget; with a budget of 0 the ring is shown full. */
  function GetChartData(expense: int, budget: int): (slices: seq<int>)
    ensures |slices| == 2
    ensures budget != 0 ==> slices[0] == expense && slices[0] + slices[1] == budget
    ensures budget == 0 ==> slices == [100, 0]
  {
    var remainingBudget := budget - expense;
    if budget != 0 then [expense, remainingBudget] else [100, 0]
  }

  /** Spending within the budget leaves a remaining slice between 0 and the budget. */
  lemma RemainingWithinBudget(expense: int, budget: int)
    requires 0 <= expense <= budget && budget != 0
    ensures 0 <= GetChartData(expense, budget)[1] <= budget
  {
  }

  // ---------------------------------------------------------------------------
  // The page state

  class Page {
    var isModalOpen: bool
    var newCategory: CategoryItem
    var data: seq<CategoryItem>
    var editingIndex: Option<nat>
    var errors: map<FormField, string>

    /** Only an open modal edits a card, and the card it edits exists. */
    ghost predicate Valid()
      reads this
    {
      editingIndex.Some? ==> editingIndex.value < |data| && isModalOpen
    }

    constructor ()
      ensures Valid()
      ensures !isModalOpen && newCategory == EmptyForm && data == SampleData
      ensures editingIndex == None && errors == map[]
    {
      isModalOpen := false;
      newCategory := EmptyForm;
      data := SampleData;
      editingIndex := None;
      errors := map[];
    }

    /** toggleModal: flips the modal and drops any card being edited. */
    method ToggleModal()
      modifies this
      ensures Valid()
      ensures isModalOpen == !old(isModalOpen) && editingIndex == None
      ensures newCategory == old(newCategory) && data == old(data) && errors == old(errors)
    {
      isModalOpen := !isModalOpen;
      editingIndex := None;
    }

    /** handleInputChange: the named field of the form takes the typed text; nothing else changes. */
    method HandleInputChange(field: FormField, value: string)
      requires Valid()
      modifies this
      ensures Valid()
      ensures newCategory == (match field
        case Label => old(newCategory).(name := value)
        case BudgetField => old(newCategory).(budget := Text(value)))
      ensures isModalOpen == old(isModalOpen) && data == old(data)
      ensures editingIndex == old(editingIndex) && errors == old(errors)
    {
      match field
      case Label => newCategory := newCategory.(name := value);
      case BudgetField => newCategory := newCategory.(budget := Text(value));
    }

    /** handleFormSubmit: a form with errors only shows them. Otherwise an edited card is replaced
        by the form as it stands, or a new card is appended with the parsed budget and nothing
        spent; then the form is reset, the modal toggled, editing and errors cleared. */
    method HandleFormSubmit()
      requires Valid()
      modifies this
      ensures Valid()
      ensures |FormErrors(old(newCategory))| > 0 ==>
        && errors == FormErrors(old(newCategory))
        && data == old(data) && newCategory == old(newCategory)
        && isModalOpen == old(isModalOpen) && editingIndex == old(editingIndex)
      ensures |FormErrors(old(newCategory))| == 0 ==>
        && data == (if old(editingIndex).Some?
                    then old(data)[old(editingIndex).value := old(newCategory)]
                    else old(data) + [CategoryItem(old(newCategory).name, ParseFloat(old(newCategory).budget), 0)])
        && newCategory == EmptyForm && isModalOpen == !old(isModalOpen)
        && editingIndex == None && errors == map[]
    {
      var formErrors := FormErrors(newCategory);
      if |formErrors| > 0 {
        errors := formErrors;
        return;
      }
      if editingIndex.Some? {
        data := data[editingIndex.value := newCategory];
      } else {
        data := data + [CategoryItem(newCategory.name, ParseFloat(newCategory.budget), 0)];
      }
      newCategory := EmptyForm;
      ToggleModal();
      editingIndex := None;
      errors := map[];
    }

    /** handleEditCategory: the card at `index` becomes the form and the modal opens to edit it. */
    method HandleEditCategory(index: nat)
      requires Valid() && index < |data|
      modifies this
      ensures Valid()
      ensures editingIndex == Some(index) && newCategory == old(data)[index] && isModalOpen
      ensures data == old(data) && errors == old(errors)
    {
      editingIndex := Some(index);
      newCategory := data[index];
      isModalOpen := true;
    }

    /** handleDeleteCategory: the card at `index` is removed, the others keep their order,
        and the modal is toggled. */
    method HandleDeleteCategory(index: int)
      modifies this
      ensures Valid()
      ensures data == Without(old(data), index)
      ensures 0 <= index < |old(data)| ==> data == old(data)[..index] + old(data)[index + 1..]
      ensures isModalOpen == !old(isModalOpen) && editingIndex == None
      ensures newCategory == old(newCategory) && errors == old(errors)
    {
      WithoutIsRemoval(data, index);
      data := Without(data, index);
      ToggleModal();
    }
  }

  /** Opening a card and saving it untouched leaves every card as it was and closes the modal. */
  method ReopenAndSave(page: Page, index: nat)
    requires page.Valid() && index < |page.data| && |FormErrors(page.data[index])| == 0
    modifies page
    ensures page.Valid()
    ensures page.data == old(page.data) && !page.isModalOpen && page.editingIndex == None
  {
    page.HandleEditCategory(index);
    page.HandleFormSubmit();
  }

  /** Adding a category through the form appends it with its typed budget read as a number. */
  method AddTravelCategory() returns (page: Page)
    ensures page.Valid()
    ensures page.data == SampleData + [CategoryItem("Travel", Number(250), 0)]
  {
    page := new Page();
    page.ToggleModal();
    page.HandleInputChange(Label, "Travel");
    page.HandleInputChange(BudgetField, "250");
    assert NatToString(250) == "250";
    ParseFloatReadsLeadingNumber(250, "");
    assert "250" + "" == "250";
    page.HandleFormSubmit();
  }
}
