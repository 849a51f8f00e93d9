# Expense tracker core, modelled in Dafny

A personal expense tracker: an Express/Mongoose server and a React frontend. This project models the core that decides what is stored and what is shown.

The server controllers:

- **groups** (`groupController.js`): create a group, join it, leave it, inspect it, list the caller's groups, and hand out share codes.
- **categories** (`categoryController.js`): per-user budget categories. Every lookup is keyed on (id, caller).
- **expenses** (`expenseController.js`): per-user expenses, with truthiness-based required fields and a truthiness-based partial update.
- **transactions** (`transcationController.js`): plain id-keyed create, read, update and delete, with no ownership check.

The frontend logic:

- **dashboard** (`DashboardHome.jsx`): expenses grouped and summed per `YYYY-M` month key, the chart labels and values read back from that object, and the balance card.
- **category page** (`Category/index.jsx`): the form validator, the submit, edit and delete handlers over the list in component state, `parseFloat` of the typed budget, and the doughnut slices.
- **expense page** (`Expense/index.jsx`): the form validator and the submit, new, edit, delete and cancel handlers, over the table as the JavaScript array it is (an assignment past the end leaves holes).

## How it is modelled

- **Server tables.** Each server table is a class over a `map` from id to record. A `nextId` counter produces fresh ObjectIds.
- **Callers and statuses.** The caller is a `UserId` parameter. Each handler returns the HTTP status it answers with.
- **Absent fields.** Request-body fields are `Option`s: `None` is a field the body does not carry.
- **Truthiness.** JavaScript truthiness is written out: `TruthyText`, `TruthyNumber` and `v || fallback`.
- **Mongoose behaviour** is followed as the code relies on it:
  - `trim: true` setters apply on `save` and on update queries.
  - `findOneAndUpdate` and `findByIdAndUpdate` run no validators.
  - Keys whose value is `undefined` are dropped from an update document.
  - A failed `save` goes to the handler's `catch`.
  - The Mongoose version taken is 7 or later, the one current when `gemini-2.0-flash` (`server/routes/geminiRoutes.js:17`) appeared: `Document.prototype.remove` no longer exists there, and undefined keys are still dropped from updates.
- **Component state.** React component state is a class whose fields are the `useState` variables. Each handler is a method with `modifies this` whose `ensures` states the whole new state.
- **Dashboard grouping.** The `forEach` loop of `groupExpensesByMonth` is a `for` loop over the expenses. Its invariant says the object built so far is the grouping of the expenses seen so far.
- **Reference definitions.** The grouping is tied to `MonthSum`, the sum over the expenses created in one year and month, and to `ExpenseSum`, the sum of all amounts.

### Where the code departs from the documented behaviour

- An update or delete of somebody else's expense answers 404, like an unknown id, not 403.
- Joining a group one already belongs to answers 400.
- `updateCategory` runs no schema validator.
  - A negative budget, which `createCategory` refuses, can therefore be stored.
  - `Categories.NegativeBudgetThroughUpdate` exhibits this.
- `updateTransaction` runs no validator either, so any `type` string can be stored.
- `deleteExpense` calls `expense.remove()`, which Mongoose 7 removed. An owner's delete therefore throws, answers 500 from the `catch`, and deletes nothing; `Expenses.OwnerCannotDeleteExpense` exhibits it. The model follows the code.
- `categoryController.js` imports `server/model/categoryModel.js`, which declares no `user` path.
  - As written, strict mode would drop the owner.
  - Here the model follows the controller's intent, not the code: ownership is modelled on `server/model/tables/categoryModel.js:16-20`.
- `groupModel.js` declares no `shareCode` path. Here too the model follows the controller's intent: the share code is recorded as the controller writes it.
- On the expense page, new rows are numbered `expenses.length + 1`. After a delete this repeats the id of a surviving row; `ExpensePage.DeleteThenAddRepeatsAnId` exhibits it.
- The expense page's overlay (`Expense/index.jsx:130`) neither traps focus nor makes the table inert, so the table's Delete buttons stay reachable by the keyboard while a row is being edited. The editing index is not adjusted by a delete. The model follows the code:
  - deleting the first row while editing the second, then saving, writes the form one place past the end: the second row appears twice (`ExpensePage.KeyboardDeleteDuplicatesRow`);
  - deleting the row being edited, then saving, overwrites the row that moved into its place (`ExpensePage.KeyboardDeleteOverwritesRow`);
  - with two rows deleted, saving leaves a hole in the array; the next added row turns it into `undefined`, whose `exp.id` the table's `map` cannot read (`ExpensePage.ReachStaleIndex`, `ExpensePage.StaleIndexBreaksTable`).

## Model

| member | source | states |
|---|---|---|
| Common.OrText | server/controller/expenseController.js:78-80 | `v \|\| fallback` for a string: the value when present and non-empty, the fallback otherwise |
| Common.OrNumber | server/controller/expenseController.js:81 | `v \|\| fallback` for a number: the value when present and non-zero, the fallback otherwise |
| Strings.Trim | server/model/groupModel.js:7 | the result is the infix of `s` after the leading whitespace; only whitespace lies on either side of it, and it neither starts nor ends with whitespace |
| Strings.TrimOfTrimmed | server/model/ExpenseModel.js:9 | trimming a string without surrounding whitespace returns it unchanged |
| Strings.TrimIdempotent | server/model/ExpenseModel.js:13 | trimming twice equals trimming once |
| Strings.TrimEmptyIff | server/controller/groupController.js:10 | `s.trim() === ''` exactly when every character of `s` is whitespace |
| Strings.NatToString | frontend/src/pages/dashboardhome/DashboardHome.jsx:99 | the decimal text of a natural is non-empty, all digits, and has no leading zero except for 0 |
| Strings.ParseNat | frontend/src/pages/dashboardhome/DashboardHome.jsx:112 | a piece reads as a number exactly when it is all digits |
| Strings.ParseNatToString | frontend/src/pages/dashboardhome/DashboardHome.jsx:99 | reading the decimal text of a natural gives the natural back |
| Strings.Split | frontend/src/pages/dashboardhome/DashboardHome.jsx:112 | `split` gives at least one piece, and no piece contains the separator |
| Strings.SplitJoin | frontend/src/pages/dashboardhome/DashboardHome.jsx:112 | splitting `a + sep + b` on `sep` gives `[a, b]` when neither part contains it |
| Strings.HexEncode | server/controller/groupController.js:75 | `toString('hex')` yields two lower-case hex digits per byte |
| Strings.HexRoundTrip | server/controller/groupController.js:75 | decoding the hex text gives the bytes back, so no two random byte strings share a code |
| Lists.IndexOf | server/controller/groupController.js:101 | `indexOf` is -1 exactly when the value is absent; otherwise it is the position of its first occurrence |
| Lists.Splice | server/controller/groupController.js:106 | `splice(i, 1)` drops position `i` and keeps the rest in order |
| Lists.SpliceNoDuplicates | server/controller/groupController.js:101-106 | splicing a value out of a duplicate-free list removes that value, keeps every other value, and leaves no duplicates |
| Lists.PushNoDuplicates | server/controller/groupController.js:47-51 | pushing a value that is not yet present keeps a list duplicate-free |
| Lists.Without | frontend/src/pages/Expense/index.jsx:64 | filtering by index never lengthens the list; `WithoutIsRemoval` gives its exact effect |
| Lists.WithoutIsRemoval | frontend/src/pages/Expense/index.jsx:64 | `filter((_, i) => i !== index)` is `s[..index] + s[index+1..]` for a position in range, and `s` itself for any other index |
| Lists.WithoutAt | frontend/src/pages/Category/index.jsx:77 | deleting at a valid position shortens the list by one and shifts the tail down by one |
| Groups.Joined | server/controller/groupController.js:51 | a push adds the caller once, last, and keeps the name, owner and share code |
| Groups.Left | server/controller/groupController.js:101-106 | the splice at `indexOf` removes one copy of the caller and no one else, and keeps the name, owner and share code |
| Groups.JoinPreserves | server/controller/groupController.js:47-52 | a join keeps earlier members in place, puts the caller last, and keeps the owner a member with no duplicates |
| Groups.LeavePreserves | server/controller/groupController.js:97-107 | a leave by a non-owner removes the caller and nobody else, shrinks the list by one, and keeps the group well formed |
| Groups.ShareCodeOf | server/controller/groupController.js:75 | a share code from 6 random bytes is 12 lower-case hex characters |
| Groups.GroupStore.CreateGroup | server/controller/groupController.js:10-21 | 400 with nothing stored exactly when the name is missing, empty or all whitespace; otherwise 201 and a fresh group with the trimmed name, owner = caller and members = [caller] |
| Groups.GroupStore.JoinGroup | server/controller/groupController.js:42-52 | unknown group gives 404 and an existing member gives 400, the store unchanged in both cases; otherwise the caller is appended and nothing else changes |
| Groups.GroupStore.GetShareCode | server/controller/groupController.js:64-81 | unknown group gives 404 and a non-owner gives 403, both with no code; the owner gets the hex code of the random bytes, recorded on that group only |
| Groups.GroupStore.LeaveGroup | server/controller/groupController.js:91-107 | checks in order 404, then 403 for the owner, then 400 for a non-member, the store unchanged on every failure; otherwise the caller's first occurrence is spliced out |
| Groups.GroupStore.GetGroupInfo | server/controller/groupController.js:119-132 | 200 with the stored group exactly when it exists and lists the caller; otherwise 404 or 403 |
| Groups.GroupStore.GetUserGroups | server/controller/groupController.js:140 | exactly the groups whose members include the caller, which includes every group the caller owns |
| Groups.TripScenario | server/controller/groupController.js:10-52 | create then join leaves members = [owner, joiner]; a second join is refused |
| Groups.LeaveTripScenario | server/controller/groupController.js:97-107 | the owner cannot leave; the joiner can, after which only the owner remains |
| Categories.CategoryStore.CreateCategory | server/controller/categoryController.js:10-26 | 201 exactly when the name is truthy, the budget present, the trimmed name non-empty and the budget ≥ 0 (a budget of 0 passes); otherwise 400 with nothing stored; the new record's owner is the caller |
| Categories.CategoryStore.GetAllCategories | server/controller/categoryController.js:34 | exactly the caller's categories, with their stored values |
| Categories.CategoryStore.GetCategoryById | server/controller/categoryController.js:45-49 | the record only when both the id and the owner match, else 404 |
| Categories.CategoryStore.UpdateCategory | server/controller/categoryController.js:64-76 | the same 400 check as create, then 404 unless (id, caller) matches; otherwise only that record's name (trimmed) and budget change |
| Categories.CategoryStore.DeleteCategory | server/controller/categoryController.js:92-96 | removes exactly the record matching (id, caller); anything else gives 404 with the table unchanged |
| Categories.NegativeBudgetThroughUpdate | server/controller/categoryController.js:68-72 | an update can leave a category with budget -5, which breaks the rule every create enforces |
| Categories.DeleteCategoryKeepsExpenses | server/controller/categoryController.js:2 | deleting a category leaves every expense as it was |
| Expenses.NewExpense | server/controller/expenseController.js:15-22 | the new document is owned by the caller, its name and note are trimmed, the note is present exactly when sent, and type, amount and category are as sent |
| Expenses.ApplyUpdate | server/controller/expenseController.js:78-82 | the owner never changes, name and note come out trimmed, a truthy type or amount replaces the old one, and a falsy amount keeps it |
| Expenses.TrimNote | server/model/ExpenseModel.js:13 | the note stays present or absent as given, and a present note is trimmed |
| Expenses.UpdateFieldByField | server/controller/expenseController.js:78-82 | each of the five fields is replaced exactly when the body's value is truthy (trimmed where the schema trims), an amount of 0 keeps the old one, and the owner never changes |
| Expenses.EmptyUpdateIsIdentity | server/controller/expenseController.js:76-84 | an empty body leaves a stored expense identical |
| Expenses.UpdateIdempotent | server/controller/expenseController.js:76-84 | applying the same body twice equals applying it once |
| Expenses.UpdateKeepsStored | server/controller/expenseController.js:84 | an update result that passes the schema is again a valid stored expense |
| Expenses.ExpenseStore.CreateExpense | server/controller/expenseController.js:10-32 | 400 for a falsy name, type, amount or category; 500 when the document fails the schema (bad type, negative amount, blank name); otherwise 201 and the caller owns the new expense; nothing stored on failure |
| Expenses.ExpenseStore.GetUserExpenses | server/controller/expenseController.js:39 | exactly the caller's expenses |
| Expenses.ExpenseStore.GetExpenseById | server/controller/expenseController.js:53-56 | the expense only when it exists and the caller owns it, else 404 |
| Expenses.ExpenseStore.UpdateExpense | server/controller/expenseController.js:71-84 | 404 unless the caller owns it; 500 with nothing stored when the merged record fails the schema; otherwise only that record becomes the field-by-field update |
| Expenses.ExpenseStore.DeleteExpense | server/controller/expenseController.js:100-112 | 500 exactly when the caller owns the expense (`remove` throws), 404 otherwise; the table never changes |
| Expenses.OwnerCannotDeleteExpense | server/controller/expenseController.js:105-112 | an owner's delete of a stored expense answers 500 and the expense stays stored |
| Transactions.Patched | server/controller/transcationController.js:38-42 | present fields overwrite and absent ones keep their value; `budgetId` and `date` are untouched |
| Transactions.EmptyPatchIsIdentity | server/controller/transcationController.js:38-42 | an update with no fields leaves the transaction unchanged |
| Transactions.TransactionStore.GetTransactions | server/controller/transcationController.js:6 | every stored transaction, with no filtering by caller |
| Transactions.TransactionStore.CreateTransaction | server/controller/transcationController.js:14-30 | 201 exactly when every required field is present, the description non-empty and the type credit or debit; the record holds exactly the given fields; otherwise 400 with nothing stored |
| Transactions.TransactionStore.UpdateTransaction | server/controller/transcationController.js:38-46 | unknown id gives 404 with the table unchanged; otherwise only that record is patched |
| Transactions.TransactionStore.DeleteTransaction | server/controller/transcationController.js:59-63 | removes exactly the record with that id; an unknown id gives 404 with the table unchanged |
| Dashboard.MonthKey | frontend/src/pages/dashboardhome/DashboardHome.jsx:99 | the key consists only of digits and '-' |
| Dashboard.MonthKeySplits | frontend/src/pages/dashboardhome/DashboardHome.jsx:112 | splitting a key on '-' gives exactly the year text and the month text |
| Dashboard.MonthKeyRoundTrip | frontend/src/pages/dashboardhome/DashboardHome.jsx:99-112 | parsing the key gives back the year and the month number 1..12 |
| Dashboard.MonthKeyInjective | frontend/src/pages/dashboardhome/DashboardHome.jsx:99 | two dates share a key exactly when they have the same year and month |
| Dashboard.LabelOfYearAndMonth | frontend/src/pages/dashboardhome/DashboardHome.jsx:112-113 | pieces that read as a year and a month 1..12 are labelled with that month's name and the year text |
| Dashboard.ParseMonthKey | frontend/src/pages/dashboardhome/DashboardHome.jsx:112 | a key reads as a year and a month exactly when it splits into at least two pieces, the first two all digits |
| Dashboard.LabelOfParts | frontend/src/pages/dashboardhome/DashboardHome.jsx:112-113 | the label ends with a space and the year piece as written; before it stands one of the twelve month names when both pieces are numbers, and "Invalid Date" otherwise |
| Dashboard.MonthLabel | frontend/src/pages/dashboardhome/DashboardHome.jsx:111-113 | a key's label ends with a space and the key's text before its first '-' |
| Dashboard.MonthLabelOfKey | frontend/src/pages/dashboardhome/DashboardHome.jsx:111-114 | the label of an expense's key is its own month name followed by its year |
| Dashboard.Assign | frontend/src/pages/dashboardhome/DashboardHome.jsx:101-104 | `object[key] = value` sets that key, keeps every other key's value, keeps the existing keys in place, and puts a new key last |
| Dashboard.AssignTwice | frontend/src/pages/dashboardhome/DashboardHome.jsx:101-104 | a second assignment to a key overwrites the first and leaves the key where the first put it |
| Dashboard.AddToMonth | frontend/src/pages/dashboardhome/DashboardHome.jsx:101-104 | after one step, the key holds its old total (absent counts 0) plus the amount |
| Dashboard.GroupStep | frontend/src/pages/dashboardhome/DashboardHome.jsx:95-105 | one loop step turns the grouping of the rows seen so far into the grouping of one more row |
| Dashboard.GroupExpensesByMonth | frontend/src/pages/dashboardhome/DashboardHome.jsx:92-108 | keys are the months holding an expense, in order of first appearance, and each maps to the sum over exactly that month's expenses |
| Dashboard.GroupedSumIsTotal | frontend/src/pages/dashboardhome/DashboardHome.jsx:95-105 | the month totals, summed over the distinct keys, equal the sum of all amounts |
| Dashboard.EntriesTotal | frontend/src/pages/dashboardhome/DashboardHome.jsx:104 | the grouping keeps every expense's amount |
| Dashboard.MonthTotalIsMonthSum | frontend/src/pages/dashboardhome/DashboardHome.jsx:92-108 | the total under a month's key is the sum over exactly the expenses created in that year and month |
| Dashboard.MonthKeyPresentIff | frontend/src/pages/dashboardhome/DashboardHome.jsx:101-104 | a month's key is present exactly when some expense was created in that month |
| Dashboard.ExpenseLabels | frontend/src/pages/dashboardhome/DashboardHome.jsx:111-114 | one label per key, in key order |
| Dashboard.ExpenseValues | frontend/src/pages/dashboardhome/DashboardHome.jsx:116 | one value per key, in the same key order |
| Dashboard.ChartSeries | frontend/src/pages/dashboardhome/DashboardHome.jsx:110-116 | for a grouping there are at most as many points as expenses, the i-th value is the i-th key's month total, and the values add up to the sum of all amounts |
| Dashboard.LabelsNameTheirMonths | frontend/src/pages/dashboardhome/DashboardHome.jsx:111-114 | every chart label names the month and year of an expense created in the month it labels |
| Dashboard.Balance | frontend/src/pages/dashboardhome/DashboardHome.jsx:144 | balance + debit = credit |
| Dashboard.BalanceIsNetSum | frontend/src/pages/dashboardhome/DashboardHome.jsx:144 | with credit and debit sums as the totals, the balance is the signed sum of the amounts |
| CategoryPage.FormErrors | frontend/src/pages/Category/index.jsx:33-38 | a label error exactly when the label is empty and a budget error exactly when the budget is falsy, with their messages |
| CategoryPage.FormAcceptedIff | frontend/src/pages/Category/index.jsx:44 | no errors exactly when the label is non-empty and the budget truthy |
| CategoryPage.ParseFloatText | frontend/src/pages/Category/index.jsx:58 | `parseFloat` of a text gives a number or NaN, never a text; `ParseFloatReadsLeadingNumber` and `ParseFloatReadsNegative` pin the value |
| CategoryPage.ParseFloat | frontend/src/pages/Category/index.jsx:58 | the result is a number or NaN; a number reads back as itself |
| CategoryPage.ParseFloatReadsLeadingNumber | frontend/src/pages/Category/index.jsx:58 | the digits of a natural, followed by anything that is not a digit, parse to that natural |
| CategoryPage.ParseFloatReadsNegative | frontend/src/pages/Category/index.jsx:58 | a leading minus sign before the digits gives the negated number |
| CategoryPage.GetChartData | frontend/src/pages/Category/index.jsx:83-96 | two slices: with a non-zero budget, the expense and the remainder, which add up to the budget; with a budget of 0, [100, 0] |
| CategoryPage.RemainingWithinBudget | frontend/src/pages/Category/index.jsx:84-89 | spending within the budget leaves a remaining slice between 0 and the budget |
| CategoryPage.Page.constructor | frontend/src/pages/Category/index.jsx:10-18 | the page starts closed, with an empty form, the three sample cards and no errors |
| CategoryPage.Page.ToggleModal | frontend/src/pages/Category/index.jsx:21-24 | toggling flips the modal and clears the edited index; nothing else changes |
| CategoryPage.Page.HandleInputChange | frontend/src/pages/Category/index.jsx:27-30 | only the named form field takes the typed text |
| CategoryPage.Page.HandleFormSubmit | frontend/src/pages/Category/index.jsx:41-66 | with errors, only the errors change; otherwise an edit replaces the card at the edited index, an add appends `{label, parseFloat(budget), 0}`, and then the form is reset, the modal toggled, and editing and errors cleared |
| CategoryPage.Page.HandleEditCategory | frontend/src/pages/Category/index.jsx:69-73 | the card at the index fills the form and the modal opens to edit it |
| CategoryPage.Page.HandleDeleteCategory | frontend/src/pages/Category/index.jsx:76-80 | removes exactly the card at the index, the rest in order, and toggles the modal |
| CategoryPage.ReopenAndSave | frontend/src/pages/Category/index.jsx:49-53 | opening a card and saving it untouched leaves every card as it was |
| CategoryPage.AddTravelCategory | frontend/src/pages/Category/index.jsx:55-59 | adding through the form appends the card with its typed budget read as a number and 0 spent |
| ExpensePage.FormErrors | frontend/src/pages/Expense/index.jsx:21-28 | an error for exactly the empty fields among name, note, type and amount, with their messages |
| ExpensePage.FormAcceptedIff | frontend/src/pages/Expense/index.jsx:32 | no errors exactly when all four fields are filled in |
| ExpensePage.WithField | frontend/src/pages/Expense/index.jsx:15-18 | `{...prev, [name]: value}` changes only the named field |
| ExpensePage.Spread | frontend/src/pages/Expense/index.jsx:38-42 | `[...s]` keeps the length and every place, with a hole read as `undefined` and none left |
| ExpensePage.SpreadOfDense | frontend/src/pages/Expense/index.jsx:38-42 | spreading an array without holes copies it |
| ExpensePage.SetAt | frontend/src/pages/Expense/index.jsx:39 | `s[index] = v` replaces a place inside the array; at or past the end it grows the array to `index + 1` with holes in between |
| ExpensePage.FilterOut | frontend/src/pages/Expense/index.jsx:64 | the filter never lengthens the array, leaves no hole, and keeps only places of the old array |
| ExpensePage.FilterOutOfDense | frontend/src/pages/Expense/index.jsx:64 | on an array without holes, the filter is the removal by position `Lists.Without` |
| ExpensePage.Page.constructor | frontend/src/pages/Expense/index.jsx:4-11 | the page starts closed, with an empty form, the two sample rows and no errors |
| ExpensePage.Page.HandleInputChange | frontend/src/pages/Expense/index.jsx:13-19 | only the named field of the form changes, in any state of the page |
| ExpensePage.Page.HandleSubmit | frontend/src/pages/Expense/index.jsx:30-48 | with errors, only the errors change; otherwise the form is written at the editing index of the spread table (replacing inside it, growing it at or past its end), or appended with id = old length + 1; then the modal closes and form, editing and errors reset; on a table without holes an edit in range is a plain replacement |
| ExpensePage.Page.HandleNewExpense | frontend/src/pages/Expense/index.jsx:50-55 | an empty form in an open modal, editing nothing, no errors, and the rows unchanged |
| ExpensePage.Page.HandleEdit | frontend/src/pages/Expense/index.jsx:57-61 | the row at the index fills the form and the modal opens to edit it |
| ExpensePage.Page.HandleDelete | frontend/src/pages/Expense/index.jsx:63-66 | with the modal open or closed, the place at the index is filtered out; on a table without holes that removes exactly that row, the rest in order, and an index out of range changes nothing |
| ExpensePage.Page.Cancel | frontend/src/pages/Expense/index.jsx:186 | the modal closes and nothing else changes, whatever the state |
| ExpensePage.AddFuelExpense | frontend/src/pages/Expense/index.jsx:42-47 | adding a filled-in form appends it to the spread table with id = old length + 1 |
| ExpensePage.DeleteThenAddRepeatsAnId | frontend/src/pages/Expense/index.jsx:42 | after deleting the first sample row and adding one, both rows carry id 2 |
| ExpensePage.EditThenDeleteFirst | frontend/src/pages/Expense/index.jsx:57-66 | an edit left open while the first row is deleted keeps its stale index and form |
| ExpensePage.KeyboardDeleteDuplicatesRow | frontend/src/pages/Expense/index.jsx:37-66 | editing the second row, deleting the first and saving leaves the second row twice |
| ExpensePage.KeyboardDeleteOverwritesRow | frontend/src/pages/Expense/index.jsx:37-66 | editing the first row, deleting it and saving overwrites the second row with the first |
| ExpensePage.AddThirdRow | frontend/src/pages/Expense/index.jsx:42 | adding to the sample table gives a third row, id 3, without holes |
| ExpensePage.ReachStaleIndex | frontend/src/pages/Expense/index.jsx:57-66 | an edit of the third row with two deletes leaves the editing index two places past the end |
| ExpensePage.StaleIndexBreaksTable | frontend/src/pages/Expense/index.jsx:37-98 | from such a state, saving leaves a hole and the next add leaves an `undefined` row, so the table no longer renders |
| ExpensePage.EditAndSaveUnchanged | frontend/src/pages/Expense/index.jsx:37-40 | editing a row and saving it untouched spreads the table, which leaves a table without holes as it was |

## Left out

- Authentication: the caller arrives as a `UserId`. The `req.user.id` versus `req.user._id` difference between controllers is not modelled.
- Token checks, sessions, routes and server start-up are not modelled.
- ObjectId casting is not modelled: a malformed id, which Mongoose rejects with a CastError and the handlers answer with 500 or 400, is not a case here.
- `populate` is not modelled: the member and category references stay ids.
- The import of `Transaction.js` in `transcationController.js`, against the file name `Transcation.js`, is ignored.
- Request-body values of another type than the field expects are not modelled: `null`, objects, a string where a number belongs, or a number where a string belongs (`createGroup` with `name: 5` throws on `name.trim` and answers 500).
- Every handler's `catch` branch for database failures (500) is not modelled: the in-memory tables cannot fail.
- Concurrency and the asynchronous `save` are not modelled: each handler runs to completion alone.
- Groups.GroupStore.GetShareCode: the random bytes are a parameter, because `crypto.randomBytes` is randomness. The share link of `createGroup`, built from the request host, is not returned.
- Mongoose's `timestamps` (`createdAt`, `updatedAt`) of groups, categories and expenses are not modelled; the dashboard receives `createdAt` as a (year, month) pair.
- Transactions.TransactionStore.CreateTransaction: `Date.now` is the `now` parameter.
- Amounts are modelled as integers; JavaScript numbers are floating point.
- CategoryPage.ParseFloatText reads an optional sign and the leading digits only. A fraction, an exponent, `Infinity` and `-0` are not modelled, because amounts are integers here.
- CategoryPage.GetChartData takes integers. At the call site, `item.budget || 0` turns NaN or an empty budget into 0 before the call, and that coercion is not modelled.
- Dates: an expense's `createdAt` is already a (year, month) pair.
  - Parsing, time zones and the locale month names of `new Date` and `toLocaleString` are not modelled; the English names stand for the default locale.
  - Years before 0 and years past the range of `Date` are not modelled.
- Dashboard.LabelOfParts reads only all-digit pieces as numbers. `new Date` also reads other numeric text, such as leading spaces or a sign, which only malformed keys contain; keys built by `MonthKey` never do.
- The dashboard's fetch calls, its error and welcome screens (`DashboardHome.jsx:69-88`), and all chart and page rendering are not modelled.
- On the category page, the Delete and Edit buttons inside the form carry no `type="button"`, so a click also submits the form. The React batching of those two state updates in one event is not modelled; each handler is modelled alone.
- The `required` attributes of the form inputs, which the browser checks before `onSubmit`, are not modelled; the validator is modelled as the handler runs it.
- The aggregate expense routes named in `server/routes/expenseRoutes.js` are not part of the shown controller and are not modelled.
- Strings compare and trim by code point. Unicode normalisation is not modelled.
- ExpensePage.Page.HandleEdit: takes an index that holds a row, since Edit buttons are rendered only for rows. Reading a hole or an `undefined` place into the form is not modelled.
- Rendering after the table holds an `undefined` element is not modelled: `Renders` states when it fails, and the handlers stay defined on such states although the page shows no buttons then.
