/** The dashboard's derived data: expenses grouped and summed per "YYYY-M" month key
    in a JavaScript object (keys kept in insertion order), the chart labels and values
    read back from that object, and the balance card. */
module Dashboard {
  import opened Common
  import opened Strings
  import opened Lists

  /** `Date.getMonth()`: 0 for January to 11 for December. */
  type Month0 = m: nat | m < 12

  /** An expense's `createdAt`, already read as a calendar year and month. */
  datatype YearMonth = YearMonth(year: nat, month: Month0)

  /** The two fields of an expense the grouping reads. */
  datatype ExpenseRow = ExpenseRow(createdAt: YearMonth, amount: int)

  /** `${year}-${month + 1}`: the month number runs from 1 to 12. */
  function MonthKey(d: YearMonth): (key: string)
    ensures forall i :: 0 <= i < |key| ==> key[i] == '-' || IsDigit(key[i])
  {
    NatToString(d.year) + "-" + NatToString(d.month + 1)
  }

  /** `const [year, month] = key.split('-')`, each piece read as a number. */
  function ParseMonthKey(key: string): (r: Option<(nat, nat)>)
    ensures var parts := Split(key, '-');
      r.Some? <==> |parts| >= 2 && ParseNat(parts[0]).Some? && ParseNat(parts[1]).Some?
  {
    var parts := Split(key, '-');
    if |parts| < 2 then None
    else
      match (ParseNat(parts[0]), ParseNat(parts[1]))
      case (Some(y), Some(m)) => Some((y, m))
      case _ => None
  }

  /** Splitting the key on '-' recovers the formatted parts. */
  lemma MonthKeySplits(d: YearMonth)
    ensures Split(MonthKey(d), '-') == [NatToString(d.year), NatToString(d.month + 1)]
  {
    var y, m := NatToString(d.year), NatToString(d.month + 1);
    assert forall i :: 0 <= i < |y| ==> y[i] != '-' by { assert AllDigits(y); }
    assert forall i :: 0 <= i < |m| ==> m[i] != '-' by { assert AllDigits(m); }
    SplitJoin(y, m, '-');
  }

  /** The key round-trips: parsing it gives back the year and the month number 1..12. */
  lemma MonthKeyRoundTrip(d: YearMonth)
    ensures ParseMonthKey(MonthKey(d)) == Some((d.year, d.month + 1))
  {
    MonthKeySplits(d);
    ParseNatToString(d.year);
    ParseNatToString(d.month + 1);
  }

  /** Two expenses share a key exactly when they fall in the same year and month. */
  lemma MonthKeyInjective(d1: YearMonth, d2: YearMonth)
    ensures MonthKey(d1) == MonthKey(d2) <==> d1 == d2
  {
    MonthKeyRoundTrip(d1);
    MonthKeyRoundTrip(d2);
  }

  const MonthNames: seq<string> := [
    "January", "February", "March", "April", "May", "June",
    "July", "August", "September", "October", "November", "December"]

  /** The chart label of a key: `new Date(year, month - 1)`'s month name, then the year text
      exactly as it stands in the key. */
  function MonthLabel(key: string): (text: string)
    ensures var year := Split(key, '-')[0];
      |text| > |year| && text[|text| - |year| - 1..] == " " + year
  {
    LabelOfParts(Split(key, '-'))
  }

  /** The label from the pieces of the key: a month number outside 1..12 rolls over as
      `Date` does; a piece that is not a number gives "Invalid Date". */
  function LabelOfParts(parts: seq<string>): (text: string)
    requires |parts| >= 1
    ensures |text| > |parts[0]| && text[|text| - |parts[0]| - 1..] == " " + parts[0]
    ensures |parts| >= 2 && ParseNat(parts[0]).Some? && ParseNat(parts[1]).Some? ==>
      text[..|text| - |parts[0]| - 1] in MonthNames
    ensures !(|parts| >= 2 && ParseNat(parts[0]).Some? && ParseNat(parts[1]).Some?) ==>
      text[..|text| - |parts[0]| - 1] == "Invalid Date"
  {
    var yearText := parts[0];
    var month := if |parts| >= 2 then ParseNat(parts[1]) else None;
    var name := if ParseNat(yearText).None? || month.None? then "Invalid Date"
      else MonthNames[(month.value - 1) % 12];
    assert (name + " " + yearText)[..|name|] == name;
    name + " " + yearText
  }

  /** The label of a year text and a month text that read as a year and a month number 1..12. */
  lemma LabelOfYearAndMonth(yearText: string, monthText: string, year: nat, month: nat)
    requires 1 <= month <= 12
    requires ParseNat(yearText) == Some(year) && ParseNat(monthText) == Some(month)
    ensures LabelOfParts([yearText, monthText]) == MonthNames[month - 1] + " " + yearText
  {
    var parts := [yearText, monthText];
    assert parts[0] == yearText && parts[1] == monthText;
    var m: nat := month - 1;
    assert m % 12 == m;
  }

  /** The label of an expense's key names its own month and year. */
  lemma MonthLabelOfKey(d: YearMonth)
    ensures MonthLabel(MonthKey(d)) == MonthNames[d.month] + " " + NatToString(d.year)
  {
    MonthKeySplits(d);
    ParseNatToString(d.year);
    ParseNatToString(d.month + 1);
    LabelOfYearAndMonth(NatToString(d.year), NatToString(d.month + 1), d.year, d.month + 1);
  }

  // ---------------------------------------------------------------------------
  // Grouping

  /** A JavaScript object from month keys to numbers: the keys in insertion order
      (what `Object.keys` lists) and the value of each. */
  datatype Grouped = Grouped(order: seq<string>, totals: map<string, int>)

  /** `object[key] = value`: a new key goes to the end of the order, an existing one keeps its place. */
  function Assign(g: Grouped, key: string, value: int): (r: Grouped)
    ensures r.totals.Keys == g.totals.Keys + {key} && r.totals[key] == value
    ensures forall k :: k in g.totals && k != key ==> r.totals[k] == g.totals[k]
    ensures |r.order| == |g.order| + (if key in g.totals then 0 else 1)
    ensures r.order[..|g.order|] == g.order
    ensures key !in g.totals ==> r.order[|g.order|] == key
  {
    Grouped(if key in g.totals then g.order else g.order + [key], g.totals[key := value])
  }

  /** A second assignment to the same key overwrites the first and leaves the key where the first put it. */
  lemma AssignTwice(g: Grouped, key: string, v: int, w: int)
    ensures Assign(Assign(g, key, v), key, w) == Assign(g, key, w)
  {
    assert g.totals[key := v][key := w] == g.totals[key := w];
  }

  /** An expense as the grouping sees it: its month key and its amount. */
  datatype Entry = Entry(key: string, amount: int)

  function EntryOf(e: ExpenseRow): Entry
  {
    Entry(MonthKey(e.createdAt), e.amount)
  }

  function Entries(es: seq<ExpenseRow>): (rows: seq<Entry>)
    ensures |rows| == |es|
  {
    if es == [] then [] else Entries(es[..|es| - 1]) + [EntryOf(es[|es| - 1])]
  }

  lemma EntriesSnoc(es: seq<ExpenseRow>, i: nat)
    requires i < |es|
    ensures Entries(es[..i + 1]) == Entries(es[..i]) + [Entry(MonthKey(es[i].createdAt), es[i].amount)]
  {
    assert es[..i + 1][..i] == es[..i];
  }

  function KeysOf(rows: seq<Entry>): (keys: seq<string>)
    ensures |keys| == |rows| && forall i :: 0 <= i < |rows| ==> keys[i] == rows[i].key
  {
    if rows == [] then [] else KeysOf(rows[..|rows| - 1]) + [rows[|rows| - 1].key]
  }

  /** The distinct elements of `s` in the order they first appear. */
  function FirstOccurrences(s: seq<string>): seq<string>
  {
    if s == [] then []
    else
      var last := s[|s| - 1];
      var prefix := FirstOccurrences(s[..|s| - 1]);
      if last in s[..|s| - 1] then prefix else prefix + [last]
  }

  /** The sum of the amounts of exactly the entries whose key is `key`. */
  function MonthTotal(rows: seq<Entry>, key: string): int
  {
    if rows == [] then 0
    else MonthTotal(rows[..|rows| - 1], key) + (if rows[|rows| - 1].key == key then rows[|rows| - 1].amount else 0)
  }

  /** The sum of all amounts. */
  function Total(rows: seq<Entry>): int
  {
    if rows == [] then 0 else Total(rows[..|rows| - 1]) + rows[|rows| - 1].amount
  }

  /** `g` is the grouping of `rows`: its keys are the months that hold an entry, in order of
      first appearance, and each maps to the sum over exactly that month's entries. */
  ghost predicate GroupsOf(g: Grouped, rows: seq<Entry>)
  {
    && g.order == FirstOccurrences(KeysOf(rows))
    && (forall k :: k in g.totals <==> k in KeysOf(rows))
    && (forall k :: k in g.totals ==> g.totals[k] == MonthTotal(rows, k))
  }

  lemma {:induction false} MonthTotalOfAbsentKey(rows: seq<Entry>, key: string)
    requires key !in KeysOf(rows)
    ensures MonthTotal(rows, key) == 0
  {
    if rows != [] {
      MonthTotalOfAbsentKey(rows[..|rows| - 1], key);
    }
  }

  /** Assigning an entry's key, whatever the value, lists the keys of one more entry. */
  lemma AssignKeepsKeyOrder(g: Grouped, rows: seq<Entry>, r: Entry, v: int)
    requires GroupsOf(g, rows)
    ensures Assign(g, r.key, v).order == FirstOccurrences(KeysOf(rows + [r]))
    ensures forall k :: k in Assign(g, r.key, v).totals <==> k in KeysOf(rows + [r])
  {
    assert (rows + [r])[..|rows|] == rows;
  }

  /** Adding the amount to its month's entry, a missing entry counting 0, gives the month totals
      of one more entry. */
  lemma AddKeepsMonthTotals(g: Grouped, rows: seq<Entry>, r: Entry)
    requires GroupsOf(g, rows)
    ensures var g' := Assign(g, r.key, (if r.key in g.totals then g.totals[r.key] else 0) + r.amount);
      forall k :: k in g'.totals ==> g'.totals[k] == MonthTotal(rows + [r], k)
  {
    assert (rows + [r])[..|rows|] == rows;
    if r.key !in g.totals {
      MonthTotalOfAbsentKey(rows, r.key);
    }
  }

  /** One pass of the loop on the object: a missing or 0 entry is first set to 0, then the amount is added. */
  ghost function AddEntry(g: Grouped, r: Entry): Grouped
  {
    var g1 := if r.key !in g.totals || g.totals[r.key] == 0 then Assign(g, r.key, 0) else g;
    Assign(g1, r.key, g1.totals[r.key] + r.amount)
  }

  /** Whichever branch the pass takes, it is one assignment of the old value (missing counts 0)
      plus the amount. */
  lemma AddEntryIsAssign(g: Grouped, r: Entry)
    ensures AddEntry(g, r) == Assign(g, r.key, (if r.key in g.totals then g.totals[r.key] else 0) + r.amount)
  {
    if r.key !in g.totals || g.totals[r.key] == 0 {
      AssignTwice(g, r.key, 0, r.amount);
    }
  }

  /** One pass of the loop turns the grouping of `rows` into the grouping of `rows + [r]`. */
  lemma GroupStep(g: Grouped, rows: seq<Entry>, r: Entry)
    requires GroupsOf(g, rows)
    ensures GroupsOf(AddEntry(g, r), rows + [r])
  {
    AddEntryIsAssign(g, r);
    AssignKeepsKeyOrder(g, rows, r, (if r.key in g.totals then g.totals[r.key] else 0) + r.amount);
    AddKeepsMonthTotals(g, rows, r);
  }

  /** The loop body of groupExpensesByMonth on the object: `if (!grouped[key]) grouped[key] = 0;`
      then `grouped[key] += amount` (an absent key and a 0 entry are both falsy). */
  method AddToMonth(grouped: Grouped, key: string, amount: int) returns (next: Grouped)
    ensures next == AddEntry(grouped, Entry(key, amount))
    ensures key in next.totals && next.totals[key] == (if key in grouped.totals then grouped.totals[key] else 0) + amount
  {
    next := grouped;
    if key !in next.totals || next.totals[key] == 0 {
      next := Assign(next, key, 0);
    }
    next := Assign(next, key, next.totals[key] + amount);
  }

  /** groupExpensesByMonth: the object's keys are the months that hold at least one expense,
      in order of first appearance, and each maps to the sum over exactly that month's expenses. */
  method GroupExpensesByMonth(expenses: seq<ExpenseRow>) returns (grouped: Grouped)
    ensures GroupsOf(grouped, Entries(expenses))
  {
    grouped := Grouped([], map[]);
    for i := 0 to |expenses|
      invariant GroupsOf(grouped, Entries(expenses[..i]))
    {
      var expense := expenses[i];
      var monthYear := MonthKey(expense.createdAt);
      GroupStep(grouped, Entries(expenses[..i]), Entry(monthYear, expense.amount));
      grouped := AddToMonth(grouped, monthYear, expense.amount);
      EntriesSnoc(expenses, i);
    }
    assert expenses[..|expenses|] == expenses;
  }

  lemma {:induction false} FirstOccurrencesElements(s: seq<string>)
    ensures forall x :: x in FirstOccurrences(s) <==> x in s
    ensures NoDuplicates(FirstOccurrences(s))
    ensures |FirstOccurrences(s)| <= |s|
  {
    if s != [] {
      var init := s[..|s| - 1];
      FirstOccurrencesElements(init);
      assert s == init + [s[|s| - 1]];
    }
  }

  /** Σ over `keys` of each key's month total. */
  function SumTotals(keys: seq<string>, rows: seq<Entry>): int
  {
    if keys == [] then 0 else SumTotals(keys[..|keys| - 1], rows) + MonthTotal(rows, keys[|keys| - 1])
  }

  /** One more entry adds its amount to the month total of its own key and to no other:
      over a duplicate-free list of keys the sum grows by the amount iff its key is listed. */
  lemma {:induction false} SumTotalsStep(keys: seq<string>, rows: seq<Entry>, r: Entry)
    requires NoDuplicates(keys)
    ensures SumTotals(keys, rows + [r]) == SumTotals(keys, rows) + (if r.key in keys then r.amount else 0)
  {
    assert (rows + [r])[..|rows|] == rows;
    if keys != [] {
      var init := keys[..|keys| - 1];
      assert keys == init + [keys[|keys| - 1]];
      SumTotalsStep(init, rows, r);
    }
  }

  /** The grouped values add up to the sum of all amounts. */
  lemma {:induction false} GroupedSumIsTotal(rows: seq<Entry>)
    ensures SumTotals(FirstOccurrences(KeysOf(rows)), rows) == Total(rows)
  {
    if rows != [] {
      var init, r := rows[..|rows| - 1], rows[|rows| - 1];
      var keys := KeysOf(rows);
      assert keys[..|keys| - 1] == KeysOf(init);
      assert rows == init + [r];
      var seen := FirstOccurrences(KeysOf(init));
      GroupedSumIsTotal(init);
      FirstOccurrencesElements(KeysOf(init));
      SumTotalsStep(seen, init, r);
      if r.key in KeysOf(init) {
        assert FirstOccurrences(keys) == seen;
      } else {
        var grown := seen + [r.key];
        assert FirstOccurrences(keys) == grown;
        assert grown[..|grown| - 1] == seen;
        MonthTotalOfAbsentKey(init, r.key);
        assert SumTotals(grown, rows) == SumTotals(seen, rows) + MonthTotal(rows, r.key);
      }
    }
  }

  /** Reducing the expenses to entries keeps every amount. */
  lemma {:induction false} EntriesTotal(es: seq<ExpenseRow>)
    ensures Total(Entries(es)) == ExpenseSum(es)
  {
    if es != [] {
      EntriesTotal(es[..|es| - 1]);
    }
  }

  /** The sum of the expenses' amounts. */
  function ExpenseSum(es: seq<ExpenseRow>): int
  {
    if es == [] then 0 else ExpenseSum(es[..|es| - 1]) + es[|es| - 1].amount
  }

  /** Reference definition: the sum of the amounts of the expenses created in year/month `d`. */
  function MonthSum(es: seq<ExpenseRow>, d: YearMonth): int
  {
    if es == [] then 0
    else MonthSum(es[..|es| - 1], d) + (if es[|es| - 1].createdAt == d then es[|es| - 1].amount else 0)
  }

  /** The total under an expense month's key is the sum over exactly the expenses of that
      year and month: distinct months never share a key. */
  lemma {:induction false} MonthTotalIsMonthSum(es: seq<ExpenseRow>, d: YearMonth)
    ensures MonthTotal(Entries(es), MonthKey(d)) == MonthSum(es, d)
  {
    if es != [] {
      var init, e := es[..|es| - 1], es[|es| - 1];
      MonthTotalIsMonthSum(init, d);
      MonthKeyInjective(e.createdAt, d);
      assert Entries(es)[..|es| - 1] == Entries(init);
    }
  }

  /** The i-th entry describes the i-th expense. */
  lemma {:induction false} EntriesAt(es: seq<ExpenseRow>, i: nat)
    requires i < |es|
    ensures Entries(es)[i] == EntryOf(es[i])
  {
    if i < |es| - 1 {
      EntriesAt(es[..|es| - 1], i);
      assert es[..|es| - 1][i] == es[i];
    }
  }

  /** A month has a key in the grouping exactly when some expense was created in it. */
  lemma MonthKeyPresentIff(es: seq<ExpenseRow>, d: YearMonth)
    ensures MonthKey(d) in KeysOf(Entries(es)) <==> exists j :: 0 <= j < |es| && es[j].createdAt == d
  {
    if MonthKey(d) in KeysOf(Entries(es)) {
      var j := KeyOfSomeExpense(es, MonthKey(d));
      MonthKeyInjective(es[j].createdAt, d);
    }
    if exists j :: 0 <= j < |es| && es[j].createdAt == d {
      var j :| 0 <= j < |es| && es[j].createdAt == d;
      EntriesAt(es, j);
      assert KeysOf(Entries(es))[j] == MonthKey(d);
    }
  }

  // ---------------------------------------------------------------------------
  // Chart series

  /** `Object.keys(grouped).map(label)`. */
  function ExpenseLabels(g: Grouped): (labels: seq<string>)
    ensures |labels| == |g.order|
    ensures forall i :: 0 <= i < |g.order| ==> labels[i] == MonthLabel(g.order[i])
  {
    seq(|g.order|, i requires 0 <= i < |g.order| => MonthLabel(g.order[i]))
  }

  /** `Object.values(grouped)`: the values in the same key order. */
  function ExpenseValues(g: Grouped): (values: seq<int>)
    requires forall k :: k in g.order ==> k in g.totals
    ensures |values| == |g.order|
    ensures forall i :: 0 <= i < |g.order| ==> values[i] == g.totals[g.order[i]]
  {
    seq(|g.order|, i requires 0 <= i < |g.order| => g.totals[g.order[i]])
  }

  function Sum(s: seq<int>): int
  {
    if s == [] then 0 else Sum(s[..|s| - 1]) + s[|s| - 1]
  }

  lemma {:induction false} SumOfValues(g: Grouped, keys: seq<string>, rows: seq<Entry>)
    requires keys == g.order
    requires forall k :: k in g.totals ==> g.totals[k] == MonthTotal(rows, k)
    requires forall k :: k in g.order ==> k in g.totals
    ensures Sum(ExpenseValues(g)) == SumTotals(keys, rows)
    decreases |keys|
  {
    if keys != [] {
      var g' := g.(order := keys[..|keys| - 1]);
      SumOfValues(g', g'.order, rows);
      assert ExpenseValues(g)[..|keys| - 1] == ExpenseValues(g');
    }
  }

  /** What the chart shows for a grouping: at most one point per entry,
      the i-th value the total of the i-th key's month, and the values adding up to the sum of
      all amounts. */
  lemma ChartSeries(rows: seq<Entry>, g: Grouped)
    requires GroupsOf(g, rows)
    ensures forall k :: k in g.order ==> k in g.totals
    ensures |ExpenseValues(g)| <= |rows|
    ensures forall i :: 0 <= i < |g.order| ==> ExpenseValues(g)[i] == MonthTotal(rows, g.order[i])
    ensures Sum(ExpenseValues(g)) == Total(rows)
  {
    FirstOccurrencesElements(KeysOf(rows));
    SumOfValues(g, g.order, rows);
    GroupedSumIsTotal(rows);
  }

  /** Every key of the entries is the month key of some expense: the one at position `j`. */
  lemma KeyOfSomeExpense(es: seq<ExpenseRow>, k: string) returns (j: nat)
    requires k in KeysOf(Entries(es))
    ensures j < |es| && k == MonthKey(es[j].createdAt)
  {
    j := IndexOf(KeysOf(Entries(es)), k);
    EntriesAt(es, j);
  }

  /** The label of a month key names the month and year of an expense created in that month. */
  predicate LabelsSomeExpense(es: seq<ExpenseRow>, k: string, text: string)
  {
    exists j :: 0 <= j < |es| && k == MonthKey(es[j].createdAt)
      && text == MonthNames[es[j].createdAt.month] + " " + NatToString(es[j].createdAt.year)
  }

  /** Every chart label names the month and year of some expense, the one whose key it labels. */
  lemma LabelsNameTheirMonths(es: seq<ExpenseRow>, g: Grouped)
    requires GroupsOf(g, Entries(es))
    ensures forall i :: 0 <= i < |g.order| ==> LabelsSomeExpense(es, g.order[i], ExpenseLabels(g)[i])
  {
    FirstOccurrencesElements(KeysOf(Entries(es)));
    forall i | 0 <= i < |g.order|
      ensures LabelsSomeExpense(es, g.order[i], ExpenseLabels(g)[i])
    {
      var j := KeyOfSomeExpense(es, g.order[i]);
      MonthLabelOfKey(es[j].createdAt);
    }
  }

  // ---------------------------------------------------------------------------
  // Balance

  /** The credit and debit totals the dashboard receives. */
  datatype Totals = Totals(totalCredit: int, totalDebit: int)

  /** The balance card: `totalCredit - totalDebit`. */
  function Balance(t: Totals): (balance: int)
    ensures balance + t.totalDebit == t.totalCredit
  {
    t.totalCredit - t.totalDebit
  }

  /** An amount with its credit/debit type. */
  datatype TypedAmount = TypedAmount(kind: string, amount: int)

  function CreditSum(xs: seq<TypedAmount>): int
  {
    if xs == [] then 0 else CreditSum(xs[..|xs| - 1]) + (if xs[|xs| - 1].kind == "credit" then xs[|xs| - 1].amount else 0)
  }

  function DebitSum(xs: seq<TypedAmount>): int
  {
    if xs == [] then 0 else DebitSum(xs[..|xs| - 1]) + (if xs[|xs| - 1].kind == "debit" then xs[|xs| - 1].amount else 0)
  }

  /** Each amount with its sign: credits add, debits subtract, anything else counts 0. */
  function NetSum(xs: seq<TypedAmount>): int
  {
    if xs == [] then 0
    else
      var x := xs[|xs| - 1];
      NetSum(xs[..|xs| - 1]) + (if x.kind == "credit" then x.amount else if x.kind == "debit" then -x.amount else 0)
  }

  /** When the totals are the credit and debit sums of a list of amounts, the balance is
      the signed sum of that list. */
  lemma {:induction false} BalanceIsNetSum(xs: seq<TypedAmount>)
    ensures Balance(Totals(CreditSum(xs), DebitSum(xs))) == NetSum(xs)
  {
    if xs != [] {
      BalanceIsNetSum(xs[..|xs| - 1]);
    }
  }
}
