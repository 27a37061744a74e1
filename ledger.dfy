/**
  The budget ledger of src/App.jsx: its records, the start-up defaults, the
  year-month key and label, and the month view the page derives from the
  ledger (the month's entries sorted by date, and the month's totals).
 */
module Ledger {
  import opened Wrappers
  import opened Text
  import opened Ordering

  /** `Number(text)`: a decimal reading of `text`, `None` when the result is NaN or infinite. */
  type NumberParser = string -> Option<real>

  /** The `type` of the entry form: "expense" or "income". */
  datatype EntryType = ExpenseType | IncomeType

  /** The `group` of an expense: "fixed" or "variable". */
  datatype Group = Fixed | Variable

  /**
    What an entry records besides date, amount and description: an expense carries a group and a
    category key; an income carries a free-text category.
   */
  datatype Kind = Expense(group: Group, category: string) | Income(category: string)

  /** One ledger record. Entries are never changed after they are created. */
  datatype Entry = Entry(id: string, date: string, kind: Kind, description: string, amount: real)

  datatype Category = Category(key: string, caption: string)

  /** Target shares of income, in percent. */
  datatype BudgetModel = BudgetModel(fixed: real, variable: real, savings: real)

  const DefaultCategories: seq<Category> := [
    Category("home", "Жилище"),
    Category("food", "Храна"),
    Category("transport", "Транспорт"),
    Category("health", "Здраве"),
    Category("utilities", "Сметки"),
    Category("fun", "Свободно време"),
    Category("shopping", "Покупки"),
    Category("other", "Други")
  ]

  const DefaultModel: BudgetModel := BudgetModel(80.0, 10.0, 10.0)

  /** Category text of an income entry whose form left it empty, and the CSV type label of income. */
  const IncomeLabel: string := "Приход"

  /** The keys of `cats`, in order. */
  function CategoryKeys(cats: seq<Category>): (keys: seq<string>)
    ensures |keys| == |cats|
    ensures forall i :: 0 <= i < |cats| ==> keys[i] == cats[i].key
  {
    seq(|cats|, i requires 0 <= i < |cats| => cats[i].key)
  }

  /** `ymKey`: the first seven characters of a date, its "YYYY-MM" part. */
  function YmKey(date: string): (r: string)
    ensures |r| == if |date| < 7 then |date| else 7
    ensures r <= date
  {
    if |date| <= 7 then date else date[..7]
  }

  const MonthNames: seq<string> := ["ян.", "февр.", "март", "апр.", "май", "юни", "юли", "авг.", "септ.", "окт.", "ноем.", "дек."]

  /** `names[(m || 1) - 1]`, written as text: `undefined` for an index outside the table. */
  function MonthName(m: Option<real>): string {
    var idx := if m.Some? && m.value != 0.0 then m.value else 1.0;
    if idx == idx.Floor as real && 1 <= idx.Floor <= 12 then MonthNames[idx.Floor - 1] else "undefined"
  }

  /** `monthBG`: the month name and the year of a "YYYY-MM" key; `show` stands for JavaScript's number-to-text. */
  function MonthLabel(ym: string, parse: NumberParser, show: real -> string): string {
    var parts := Split(ym, '-');
    var month := if |parts| > 1 then parse(parts[1]) else None;
    var year := if parse(parts[0]).Some? then show(parse(parts[0]).value) else "NaN";
    MonthName(month) + " " + year
  }

  /** For a key "Y-MM" whose month reads as 1..12 the label is that month's name, then the year. */
  lemma MonthLabelOfKey(y: string, mm: string, parse: NumberParser, show: real -> string, k: int)
    requires '-' !in y && '-' !in mm
    requires 1 <= k <= 12 && parse(mm) == Some(k as real)
    ensures MonthLabel(y + "-" + mm, parse, show)
         == MonthNames[k - 1] + " " + (if parse(y).Some? then show(parse(y).value) else "NaN")
  {
    SplitAt(y, '-', mm);
    assert Split(mm, '-') == [mm];
  }

  /** Which entries a filter of the month view keeps. */
  datatype Selector = AllExpenses | AllIncome | ExpensesIn(group: Group) | DatedIn(month: string)

  predicate Matches(sel: Selector, e: Entry) {
    match sel
    case AllExpenses => e.kind.Expense?
    case AllIncome => e.kind.Income?
    case ExpensesIn(g) => e.kind.Expense? && e.kind.group == g
    case DatedIn(m) => YmKey(e.date) == m
  }

  /** `s.filter(...)`: the entries of `s` that `sel` keeps, in their order. */
  function Select(s: seq<Entry>, sel: Selector): (r: seq<Entry>)
    ensures |r| <= |s|
    ensures forall i :: 0 <= i < |r| ==> Matches(sel, r[i])
  {
    if s == [] then []
    else if Matches(sel, s[|s| - 1]) then Select(s[..|s| - 1], sel) + [s[|s| - 1]]
    else Select(s[..|s| - 1], sel)
  }

  /** Filtering a sequence extended by one entry: the entry follows the filtered prefix if it is kept. */
  lemma SelectSnoc(s: seq<Entry>, x: Entry, sel: Selector)
    ensures Select(s + [x], sel) == Select(s, sel) + (if Matches(sel, x) then [x] else [])
  {
    assert (s + [x])[..|s|] == s;
  }

  /** Filtering a concatenation filters each part: the filter keeps the ledger's order. */
  lemma {:induction false} SelectAppend(a: seq<Entry>, b: seq<Entry>, sel: Selector)
    ensures Select(a + b, sel) == Select(a, sel) + Select(b, sel)
    decreases |b|
  {
    if b == [] {
      assert a + b == a;
    } else {
      var b', x := b[..|b| - 1], b[|b| - 1];
      SelectAppend(a, b', sel);
      assert a + b == (a + b') + [x] by { assert b == b' + [x]; }
      assert b == b' + [x];
      SelectSnoc(a + b', x, sel);
      SelectSnoc(b', x, sel);
      AppendAssoc(Select(a, sel), Select(b', sel), if Matches(sel, x) then [x] else []);
    }
  }

  lemma AppendAssoc(p: seq<Entry>, q: seq<Entry>, r: seq<Entry>)
    ensures p + q + r == p + (q + r)
  {
  }

  lemma SelectSingle(x: Entry, sel: Selector)
    ensures Select([x], sel) == if Matches(sel, x) then [x] else []
  {
    assert [x][..0] == [];
  }

  lemma SelectOfThree(x: Entry, y: Entry, z: Entry, sel: Selector)
    ensures Select([x, y, z], sel) == (if Matches(sel, x) then [x] else [])
                                    + (if Matches(sel, y) then [y] else [])
                                    + (if Matches(sel, z) then [z] else [])
  {
    assert [x, y, z] == [x] + [y] + [z];
    SelectAppend([x] + [y], [z], sel);
    SelectAppend([x], [y], sel);
    SelectSingle(x, sel);
    SelectSingle(y, sel);
    SelectSingle(z, sel);
  }

  /** The filter keeps every kept entry as often as it occurs, and nothing else. */
  lemma {:induction false} SelectCount(s: seq<Entry>, sel: Selector, x: Entry)
    ensures multiset(Select(s, sel))[x] == if Matches(sel, x) then multiset(s)[x] else 0
  {
    if s != [] {
      SelectCount(s[..|s| - 1], sel, x);
      assert s == s[..|s| - 1] + [s[|s| - 1]];
    }
  }

  lemma SelectMembers(s: seq<Entry>, sel: Selector)
    ensures forall e :: e in Select(s, sel) <==> e in s && Matches(sel, e)
  {
    forall e ensures e in Select(s, sel) <==> e in s && Matches(sel, e) {
      SelectCount(s, sel, e);
    }
  }

  /** Filters of two orderings of the same entries hold the same entries. */
  lemma SelectPermutation(a: seq<Entry>, b: seq<Entry>, sel: Selector)
    requires multiset(a) == multiset(b)
    ensures multiset(Select(a, sel)) == multiset(Select(b, sel))
  {
    forall x ensures multiset(Select(a, sel))[x] == multiset(Select(b, sel))[x] {
      SelectCount(a, sel, x);
      SelectCount(b, sel, x);
    }
  }

  /** `reduce((a, b) => a + b.amount, 0)`. */
  function Sum(s: seq<Entry>): real {
    if s == [] then 0.0 else Sum(s[..|s| - 1]) + s[|s| - 1].amount
  }

  lemma SumSnoc(s: seq<Entry>, x: Entry)
    ensures Sum(s + [x]) == Sum(s) + x.amount
  {
    assert (s + [x])[..|s|] == s;
  }

  lemma {:induction false} SumAppend(a: seq<Entry>, b: seq<Entry>)
    ensures Sum(a + b) == Sum(a) + Sum(b)
    decreases |b|
  {
    if b == [] {
      assert a + b == a;
    } else {
      var b' := b[..|b| - 1];
      SumAppend(a, b');
      assert a + b == (a + b') + [b[|b| - 1]];
      SumSnoc(a + b', b[|b| - 1]);
      assert Sum(b) == Sum(b') + b[|b| - 1].amount;
    }
  }

  /** A sum of amounts does not depend on the order of the entries. */
  lemma {:induction false} SumPermutation(a: seq<Entry>, b: seq<Entry>)
    requires multiset(a) == multiset(b)
    ensures Sum(a) == Sum(b)
    decreases |a|
  {
    if a == [] {
      assert |b| == |multiset(b)| == 0;
    } else {
      var x, a' := a[|a| - 1], a[..|a| - 1];
      assert a == a' + [x];
      assert multiset(a') == multiset(a) - multiset{x};
      assert x in multiset(b);
      var k :| 0 <= k < |b| && b[k] == x;
      var b' := b[..k] + b[k + 1..];
      MultisetRemoveAt(b, k);
      SumPermutation(a', b');
      SumSnoc(a', x);
      SumRemoveAt(b, k);
    }
  }

  /** Taking out the element at `k` takes one copy of it out of the multiset. */
  lemma MultisetRemoveAt(b: seq<Entry>, k: int)
    requires 0 <= k < |b|
    ensures multiset(b[..k] + b[k + 1..]) == multiset(b) - multiset{b[k]}
  {
    assert b == b[..k] + [b[k]] + b[k + 1..];
  }

  /** Taking out the element at `k` takes its amount out of the sum. */
  lemma SumRemoveAt(b: seq<Entry>, k: int)
    requires 0 <= k < |b|
    ensures Sum(b) == Sum(b[..k] + b[k + 1..]) + b[k].amount
  {
    var pre, post := b[..k], b[k + 1..];
    SplitAround(b, k);
    SumAppend(pre + [b[k]], post);
    SumSnoc(pre, b[k]);
    SumAppend(pre, post);
  }


  lemma {:induction false} SumNonNegative(s: seq<Entry>)
    requires forall i :: 0 <= i < |s| ==> s[i].amount >= 0.0
    ensures Sum(s) >= 0.0
  {
    if s != [] {
      SumNonNegative(s[..|s| - 1]);
    }
  }

  function DateOf(e: Entry): string {
    e.date
  }

  /**
    `monthEntries`: the entries dated in `month`, as a permutation of the ledger's entries of that
    month, ordered by date.
   */
  function MonthEntries(entries: seq<Entry>, month: string): (r: seq<Entry>)
    ensures forall e :: e in r <==> e in entries && YmKey(e.date) == month
    ensures multiset(r) == multiset(Select(entries, DatedIn(month)))
    ensures SortedBy(r, DateOf)
  {
    var kept := Select(entries, DatedIn(month));
    SelectMembers(entries, DatedIn(month));
    SortBySorted(kept, DateOf);
    assert forall e :: e in SortBy(kept, DateOf) <==> e in multiset(kept);
    SortBy(kept, DateOf)
  }

  /** `totals`: expense, income and net totals and the expense totals per group. */
  datatype Totals = Totals(exp: real, inc: real, net: real, fixed: real, variable: real)

  function MonthTotals(ms: seq<Entry>): (t: Totals)
    ensures t.net == t.inc - t.exp
    ensures t.exp == t.fixed + t.variable
  {
    ExpensesSplitByGroup(ms);
    var exp := Sum(Select(ms, AllExpenses));
    var inc := Sum(Select(ms, AllIncome));
    Totals(exp, inc, inc - exp, Sum(Select(ms, ExpensesIn(Fixed))), Sum(Select(ms, ExpensesIn(Variable))))
  }

  /** Every expense is fixed or variable, so the expense total is the sum of the two group totals. */
  lemma {:induction false} ExpensesSplitByGroup(s: seq<Entry>)
    ensures Sum(Select(s, AllExpenses)) == Sum(Select(s, ExpensesIn(Fixed))) + Sum(Select(s, ExpensesIn(Variable)))
  {
    if s != [] {
      var x := s[|s| - 1];
      ExpensesSplitByGroup(s[..|s| - 1]);
      if x.kind.Expense? {
        SumSnoc(Select(s[..|s| - 1], AllExpenses), x);
        if x.kind.group == Fixed {
          SumSnoc(Select(s[..|s| - 1], ExpensesIn(Fixed)), x);
        } else {
          SumSnoc(Select(s[..|s| - 1], ExpensesIn(Variable)), x);
        }
      }
    }
  }

  /** The totals depend only on which entries there are, not on their order. */
  lemma TotalsPermutation(a: seq<Entry>, b: seq<Entry>)
    requires multiset(a) == multiset(b)
    ensures MonthTotals(a) == MonthTotals(b)
  {
    SelectPermutation(a, b, AllExpenses);
    SumPermutation(Select(a, AllExpenses), Select(b, AllExpenses));
    SelectPermutation(a, b, AllIncome);
    SumPermutation(Select(a, AllIncome), Select(b, AllIncome));
    SelectPermutation(a, b, ExpensesIn(Fixed));
    SumPermutation(Select(a, ExpensesIn(Fixed)), Select(b, ExpensesIn(Fixed)));
    SelectPermutation(a, b, ExpensesIn(Variable));
    SumPermutation(Select(a, ExpensesIn(Variable)), Select(b, ExpensesIn(Variable)));
  }

  /** With positive amounts, every total except the net is at least zero. */
  lemma TotalsNonNegative(ms: seq<Entry>)
    requires forall i :: 0 <= i < |ms| ==> ms[i].amount > 0.0
    ensures var t := MonthTotals(ms); t.exp >= 0.0 && t.inc >= 0.0 && t.fixed >= 0.0 && t.variable >= 0.0
  {
    forall sel: Selector ensures Sum(Select(ms, sel)) >= 0.0 {
      SelectMembers(ms, sel);
      var r := Select(ms, sel);
      forall i | 0 <= i < |r| ensures r[i].amount >= 0.0 {
        assert r[i] in ms;
      }
      SumNonNegative(r);
    }
  }

  /** Worked example: two expenses (500 fixed "home", 120 variable "food") and an income of 2000, all in March 2024. */
  const MarchLedger: seq<Entry> := [
    Entry("a", "2024-03-05", Expense(Fixed, "home"), "rent", 500.0),
    Entry("b", "2024-03-10", Expense(Variable, "food"), "market", 120.0),
    Entry("c", "2024-03-01", Income(IncomeLabel), "salary", 2000.0)
  ]

  lemma MarchLedgerInMonth()
    ensures Select(MarchLedger, DatedIn("2024-03")) == MarchLedger
  {
    var l := MarchLedger;
    var sel := DatedIn("2024-03");
    assert Matches(sel, l[0]) && Matches(sel, l[1]) && Matches(sel, l[2]);
    SelectOfThree(l[0], l[1], l[2], sel);
  }

  /** The month's totals are those of the month's entries in ledger order: sorting changes nothing. */
  lemma MonthTotalsIgnoreOrder(entries: seq<Entry>, month: string)
    ensures MonthTotals(MonthEntries(entries, month)) == MonthTotals(Select(entries, DatedIn(month)))
  {
    TotalsPermutation(MonthEntries(entries, month), Select(entries, DatedIn(month)));
  }

  lemma MarchLedgerTotals()
    ensures MonthTotals(MarchLedger) == Totals(620.0, 2000.0, 1380.0, 500.0, 120.0)
  {
    var l := MarchLedger;
    assert l == [l[0], l[1], l[2]];
    SumSelectThree(l[0], l[1], l[2], AllExpenses);
    SumSelectThree(l[0], l[1], l[2], AllIncome);
    SumSelectThree(l[0], l[1], l[2], ExpensesIn(Fixed));
    SumSelectThree(l[0], l[1], l[2], ExpensesIn(Variable));
  }

  /** The amount an entry adds to the sum of a filter: its own when it matches, and nothing otherwise. */
  lemma SumSelectOne(x: Entry, sel: Selector)
    ensures Sum(if Matches(sel, x) then [x] else []) == if Matches(sel, x) then x.amount else 0.0
  {
    SumSnoc([], x);
    assert [] + [x] == [x];
  }

  /** The sum of a filter of three entries adds up what each of them contributes. */
  lemma SumSelectThree(x: Entry, y: Entry, z: Entry, sel: Selector)
    ensures Sum(Select([x, y, z], sel)) == (if Matches(sel, x) then x.amount else 0.0)
                                         + (if Matches(sel, y) then y.amount else 0.0)
                                         + (if Matches(sel, z) then z.amount else 0.0)
  {
    var a := if Matches(sel, x) then [x] else [];
    var b := if Matches(sel, y) then [y] else [];
    var c := if Matches(sel, z) then [z] else [];
    SelectOfThree(x, y, z, sel);
    SumAppend(a + b, c);
    SumAppend(a, b);
    SumSelectOne(x, sel);
    SumSelectOne(y, sel);
    SumSelectOne(z, sel);
  }

  /** The March example gives expenses 620, income 2000, net 1380, fixed 500 and variable 120. */
  lemma MarchTotals()
    ensures MonthTotals(MonthEntries(MarchLedger, "2024-03")) == Totals(620.0, 2000.0, 1380.0, 500.0, 120.0)
  {
    MonthTotalsIgnoreOrder(MarchLedger, "2024-03");
    MarchLedgerInMonth();
    MarchLedgerTotals();
  }
}
