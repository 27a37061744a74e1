/**
  The two views of src/App.jsx that accumulate amounts in a JavaScript `Map`:
  `byCategory` (one row per category, then one per unknown expense category)
  and the per-day expense series of the bar chart. A `Map` keeps its keys in
  first-insertion order; it is modelled by that key sequence and a `map`.
 */
module Breakdown {
  import opened Text
  import opened Ordering
  import opened Ledger

  /** What an accumulation groups entries by. */
  datatype GroupKey = ByCategory | ByDate

  function KeyOf(grouping: GroupKey, e: Entry): string {
    match grouping
    case ByCategory => e.kind.category
    case ByDate => e.date
  }

  /** The keys of the entries of `s`, in order. */
  function KeysOf(s: seq<Entry>, grouping: GroupKey): (ks: seq<string>)
    ensures |ks| == |s|
    ensures forall i :: 0 <= i < |s| ==> ks[i] == KeyOf(grouping, s[i])
  {
    seq(|s|, i requires 0 <= i < |s| => KeyOf(grouping, s[i]))
  }

  /** The amounts of the entries of `s` whose key is `k`, added up. */
  function KeyTotal(s: seq<Entry>, grouping: GroupKey, k: string): real {
    if s == [] then 0.0
    else KeyTotal(s[..|s| - 1], grouping, k) + (if KeyOf(grouping, s[|s| - 1]) == k then s[|s| - 1].amount else 0.0)
  }

  /** A key that no entry carries accumulates nothing. */
  lemma {:induction false} KeyTotalAbsent(s: seq<Entry>, grouping: GroupKey, k: string)
    requires k !in KeysOf(s, grouping)
    ensures KeyTotal(s, grouping, k) == 0.0
  {
    if s != [] {
      assert KeysOf(s[..|s| - 1], grouping) == KeysOf(s, grouping)[..|s| - 1];
      KeyTotalAbsent(s[..|s| - 1], grouping, k);
      assert KeysOf(s, grouping)[|s| - 1] == KeyOf(grouping, s[|s| - 1]);
    }
  }

  lemma KeyTotalSnoc(s: seq<Entry>, x: Entry, grouping: GroupKey, k: string)
    ensures KeyTotal(s + [x], grouping, k) == KeyTotal(s, grouping, k) + (if KeyOf(grouping, x) == k then x.amount else 0.0)
  {
    assert (s + [x])[..|s|] == s;
  }

  /** The key order of a `Map` filled with `acc` and then with `ks`: new keys go last, known keys stay put. */
  function AddNew(acc: seq<string>, ks: seq<string>): (r: seq<string>)
    ensures acc <= r
    ensures Distinct(acc) ==> Distinct(r)
  {
    if ks == [] then acc
    else
      var r := AddNew(acc, ks[..|ks| - 1]);
      if ks[|ks| - 1] in r then r else r + [ks[|ks| - 1]]
  }

  /** The keys of the `Map` are those of `acc` and those of `ks`. */
  lemma {:induction false} AddNewMembers(acc: seq<string>, ks: seq<string>)
    ensures forall k :: k in AddNew(acc, ks) <==> k in acc || k in ks
  {
    if ks != [] {
      AddNewMembers(acc, ks[..|ks| - 1]);
      assert ks == ks[..|ks| - 1] + [ks[|ks| - 1]];
    }
  }

  /** One more key is appended when it is new and ignored when it is known. */
  lemma AddNewSnoc(acc: seq<string>, ks: seq<string>, k: string)
    ensures AddNew(acc, ks + [k]) == if k in AddNew(acc, ks) then AddNew(acc, ks) else AddNew(acc, ks) + [k]
  {
    assert (ks + [k])[..|ks|] == ks;
  }

  /** Keys without repetition come out in their own order. */
  lemma {:induction false} AddNewDistinct(ks: seq<string>)
    requires Distinct(ks)
    ensures AddNew([], ks) == ks
  {
    if ks != [] {
      AddNewDistinct(ks[..|ks| - 1]);
      assert ks[|ks| - 1] !in ks[..|ks| - 1];
    }
  }

  /** `byCategory`'s key order: the category keys, then the other categories of the month's expenses. */
  function BreakdownKeys(ms: seq<Entry>, cats: seq<Category>): seq<string> {
    AddNew(AddNew([], CategoryKeys(cats)), KeysOf(Select(ms, AllExpenses), ByCategory))
  }

  /** `categories.find((c) => c.key === key)?.label || key`. */
  function LabelFor(cats: seq<Category>, key: string): (r: string)
    ensures key !in CategoryKeys(cats) ==> r == key
    ensures forall i :: 0 <= i < |cats| && cats[i].key == key && key !in CategoryKeys(cats[..i]) ==>
              r == if cats[i].caption != "" then cats[i].caption else key
  {
    if cats == [] then key
    else if cats[0].key == key then (if cats[0].caption != "" then cats[0].caption else key)
    else
      assert forall i :: 1 <= i <= |cats| ==> CategoryKeys(cats[..i]) == [cats[0].key] + CategoryKeys(cats[1..][..i - 1]);
      assert CategoryKeys(cats) == [cats[0].key] + CategoryKeys(cats[1..]);
      LabelFor(cats[1..], key)
  }

  datatype CategoryRow = CategoryRow(key: string, value: real, caption: string)

  function Values(rows: seq<CategoryRow>): (vs: seq<real>)
    ensures |vs| == |rows| && forall i :: 0 <= i < |rows| ==> vs[i] == rows[i].value
  {
    seq(|rows|, i requires 0 <= i < |rows| => rows[i].value)
  }

  function SumReals(xs: seq<real>): real {
    if xs == [] then 0.0 else SumReals(xs[..|xs| - 1]) + xs[|xs| - 1]
  }

  /** The accumulated values under `keys`, added up. */
  function TotalOver(s: seq<Entry>, grouping: GroupKey, keys: seq<string>): real {
    if keys == [] then 0.0 else TotalOver(s, grouping, keys[..|keys| - 1]) + KeyTotal(s, grouping, keys[|keys| - 1])
  }

  lemma {:induction false} TotalOverEmpty(grouping: GroupKey, keys: seq<string>)
    ensures TotalOver([], grouping, keys) == 0.0
  {
    if keys != [] {
      TotalOverEmpty(grouping, keys[..|keys| - 1]);
    }
  }

  /** One more entry adds its amount once to the values under distinct keys, if its key is among them. */
  lemma {:induction false} TotalOverSnoc(s: seq<Entry>, x: Entry, grouping: GroupKey, keys: seq<string>)
    requires Distinct(keys)
    ensures TotalOver(s + [x], grouping, keys) == TotalOver(s, grouping, keys) + (if KeyOf(grouping, x) in keys then x.amount else 0.0)
  {
    if keys != [] {
      var init := keys[..|keys| - 1];
      TotalOverSnoc(s, x, grouping, init);
      KeyTotalSnoc(s, x, grouping, keys[|keys| - 1]);
      assert keys == init + [keys[|keys| - 1]];
      assert keys[|keys| - 1] !in init;
    }
  }

  /** Distinct keys that cover every entry's key share out the whole sum of amounts. */
  lemma {:induction false} TotalOverCovers(s: seq<Entry>, grouping: GroupKey, keys: seq<string>)
    requires Distinct(keys)
    requires forall i :: 0 <= i < |s| ==> KeyOf(grouping, s[i]) in keys
    ensures TotalOver(s, grouping, keys) == Sum(s)
  {
    if s == [] {
      TotalOverEmpty(grouping, keys);
    } else {
      var init := s[..|s| - 1];
      TotalOverCovers(init, grouping, keys);
      assert s == init + [s[|s| - 1]];
      TotalOverSnoc(init, s[|s| - 1], grouping, keys);
    }
  }

  lemma {:induction false} SumRealsOfKeyTotals(xs: seq<real>, s: seq<Entry>, grouping: GroupKey, keys: seq<string>)
    requires |xs| == |keys|
    requires forall i :: 0 <= i < |xs| ==> xs[i] == KeyTotal(s, grouping, keys[i])
    ensures SumReals(xs) == TotalOver(s, grouping, keys)
  {
    if xs != [] {
      SumRealsOfKeyTotals(xs[..|xs| - 1], s, grouping, keys[..|keys| - 1]);
    }
  }

  /** `categories.forEach((c) => map.set(c.key, 0))`: every key of `seed` at 0, in first-seen order. */
  method SeedKeys(seed: seq<string>) returns (keys: seq<string>, sums: map<string, real>)
    ensures keys == AddNew([], seed)
    ensures forall k :: k in sums <==> k in keys
    ensures forall k :: k in sums ==> sums[k] == 0.0
  {
    keys, sums := [], map[];
    var i := 0;
    while i < |seed|
      invariant 0 <= i <= |seed|
      invariant keys == AddNew([], seed[..i])
      invariant forall k :: k in sums <==> k in keys
      invariant forall k :: k in sums ==> sums[k] == 0.0
    {
      assert seed[..i + 1] == seed[..i] + [seed[i]];
      AddNewSnoc([], seed[..i], seed[i]);
      if seed[i] !in sums {
        keys := keys + [seed[i]];
      }
      sums := sums[seed[i] := 0.0];
      i := i + 1;
    }
    assert seed[..|seed|] == seed;
  }

  /** `sums`, read with `map.get(k) || 0`, holds the total of every key over `s`. */
  ghost predicate Tallied(sums: map<string, real>, s: seq<Entry>, grouping: GroupKey) {
    forall k :: KeyTotal(s, grouping, k) == if k in sums then sums[k] else 0.0
  }

  /** Adding one entry's amount under its key keeps the map tallied over the longer sequence. */
  lemma TalliedSnoc(sums: map<string, real>, s: seq<Entry>, x: Entry, grouping: GroupKey)
    requires Tallied(sums, s, grouping)
    ensures var k := KeyOf(grouping, x);
            Tallied(sums[k := (if k in sums then sums[k] else 0.0) + x.amount], s + [x], grouping)
  {
    var k := KeyOf(grouping, x);
    var next := sums[k := (if k in sums then sums[k] else 0.0) + x.amount];
    forall k' ensures KeyTotal(s + [x], grouping, k') == if k' in next then next[k'] else 0.0 {
      KeyTotalSnoc(s, x, grouping, k');
      assert KeyTotal(s, grouping, k') == if k' in sums then sums[k'] else 0.0;
    }
  }

  /** One round of `AddAmounts` on the key order: the `j`-th entry's key is appended when new. */
  lemma AddKeyStep(keys0: seq<string>, s: seq<Entry>, grouping: GroupKey, j: int, keys: seq<string>, known: bool)
    requires 0 <= j < |s|
    requires keys == AddNew(keys0, KeysOf(s, grouping)[..j])
    requires known <==> KeyOf(grouping, s[j]) in keys
    ensures (if known then keys else keys + [KeyOf(grouping, s[j])]) == AddNew(keys0, KeysOf(s, grouping)[..j + 1])
  {
    var ks := KeysOf(s, grouping);
    assert ks[..j + 1] == ks[..j] + [KeyOf(grouping, s[j])];
    AddNewSnoc(keys0, ks[..j], KeyOf(grouping, s[j]));
  }

  /** One round of `AddAmounts` on the sums: the `j`-th entry's amount is added under its key. */
  lemma TallyStep(s: seq<Entry>, grouping: GroupKey, j: int, sums: map<string, real>)
    requires 0 <= j < |s|
    requires Tallied(sums, s[..j], grouping)
    ensures var k := KeyOf(grouping, s[j]);
            Tallied(sums[k := (if k in sums then sums[k] else 0.0) + s[j].amount], s[..j + 1], grouping)
  {
    TalliedSnoc(sums, s[..j], s[j], grouping);
    assert s[..j + 1] == s[..j] + [s[j]];
  }

  /**
    `forEach((e) => map.set(key, (map.get(key) || 0) + e.amount))` on a map that starts with `keys0`
    at 0: afterwards each key holds the total of the entries with that key.
   */
  method AddAmounts(keys0: seq<string>, sums0: map<string, real>, s: seq<Entry>, grouping: GroupKey)
    returns (keys: seq<string>, sums: map<string, real>)
    requires forall k :: k in sums0 <==> k in keys0
    requires forall k :: k in sums0 ==> sums0[k] == 0.0
    ensures keys == AddNew(keys0, KeysOf(s, grouping))
    ensures forall k :: k in sums <==> k in keys
    ensures Tallied(sums, s, grouping)
  {
    keys, sums := keys0, sums0;
    var ks := KeysOf(s, grouping);
    var j := 0;
    assert Tallied(sums, s[..0], grouping);
    while j < |s|
      invariant 0 <= j <= |s|
      invariant keys == AddNew(keys0, ks[..j])
      invariant forall k :: k in sums <==> k in keys
      invariant Tallied(sums, s[..j], grouping)
    {
      var k := KeyOf(grouping, s[j]);
      AddKeyStep(keys0, s, grouping, j, keys, k in sums);
      TallyStep(s, grouping, j, sums);
      var before := if k in sums then sums[k] else 0.0;
      if k !in sums {
        keys := keys + [k];
      }
      sums := sums[k := before + s[j].amount];
      j := j + 1;
    }
    assert s[..|s|] == s;
    assert ks[..|s|] == ks;
  }

  /** Seeds a `Map` with `seed` and adds the entries of `s` under their keys. */
  method Accumulate(seed: seq<string>, s: seq<Entry>, grouping: GroupKey) returns (keys: seq<string>, sums: map<string, real>)
    ensures keys == AddNew(AddNew([], seed), KeysOf(s, grouping))
    ensures forall k :: k in sums <==> k in keys
    ensures Tallied(sums, s, grouping)
  {
    keys, sums := SeedKeys(seed);
    keys, sums := AddAmounts(keys, sums, s, grouping);
  }

  /** The keys of a month's expenses are the keys of exactly those entries of the month that are expenses. */
  lemma ExpenseKeys(ms: seq<Entry>, grouping: GroupKey)
    ensures forall k :: k in KeysOf(Select(ms, AllExpenses), grouping) <==>
              exists e :: e in ms && e.kind.Expense? && KeyOf(grouping, e) == k
  {
    var ex := Select(ms, AllExpenses);
    var ks := KeysOf(ex, grouping);
    SelectMembers(ms, AllExpenses);
    forall k ensures k in ks <==> exists e :: e in ms && e.kind.Expense? && KeyOf(grouping, e) == k {
      if k in ks {
        var i :| 0 <= i < |ex| && ks[i] == k;
        assert ex[i] in ex;
      }
      if exists e :: e in ms && e.kind.Expense? && KeyOf(grouping, e) == k {
        var e :| e in ms && e.kind.Expense? && KeyOf(grouping, e) == k;
        var i :| 0 <= i < |ex| && ex[i] == e;
        assert ks[i] == k;
      }
    }
  }

  /** Keys of an accumulation over `s` without repetition, covering every entry of `s`. */
  lemma AccumulatedKeys(seed: seq<string>, s: seq<Entry>, grouping: GroupKey)
    ensures Distinct(AddNew(AddNew([], seed), KeysOf(s, grouping)))
    ensures forall i :: 0 <= i < |s| ==> KeyOf(grouping, s[i]) in AddNew(AddNew([], seed), KeysOf(s, grouping))
  {
    assert Distinct<string>([]);
    var ks := KeysOf(s, grouping);
    AddNewMembers(AddNew([], seed), ks);
    forall i | 0 <= i < |s| ensures KeyOf(grouping, s[i]) in ks {
      assert ks[i] == KeyOf(grouping, s[i]);
    }
  }

  /** Values holding the total of each of distinct keys that cover every expense add up to the expense total. */
  lemma ExpenseShares(ms: seq<Entry>, grouping: GroupKey, keys: seq<string>, xs: seq<real>)
    requires Distinct(keys) && |xs| == |keys|
    requires forall i :: 0 <= i < |Select(ms, AllExpenses)| ==> KeyOf(grouping, Select(ms, AllExpenses)[i]) in keys
    requires forall i :: 0 <= i < |keys| ==> xs[i] == KeyTotal(Select(ms, AllExpenses), grouping, keys[i])
    ensures SumReals(xs) == MonthTotals(ms).exp
  {
    var expenses := Select(ms, AllExpenses);
    SumRealsOfKeyTotals(xs, expenses, grouping, keys);
    TotalOverCovers(expenses, grouping, keys);
  }

  /**
    `byCategory`: one row per key of `BreakdownKeys`, holding the month's expenses under that key and
    its label; the row values add up to the month's expense total.
   */
  method CategoryBreakdown(ms: seq<Entry>, cats: seq<Category>) returns (rows: seq<CategoryRow>)
    ensures |rows| == |BreakdownKeys(ms, cats)|
    ensures forall i :: 0 <= i < |rows| ==>
              var k := BreakdownKeys(ms, cats)[i];
              rows[i] == CategoryRow(k, KeyTotal(Select(ms, AllExpenses), ByCategory, k), LabelFor(cats, k))
    ensures SumReals(Values(rows)) == MonthTotals(ms).exp
  {
    var expenses := Select(ms, AllExpenses);
    var keys, sums := Accumulate(CategoryKeys(cats), expenses, ByCategory);
    rows := seq(|keys|, i requires 0 <= i < |keys| => CategoryRow(keys[i], sums[keys[i]], LabelFor(cats, keys[i])));
    forall i | 0 <= i < |keys| ensures sums[keys[i]] == KeyTotal(expenses, ByCategory, keys[i]) {
      assert KeyTotal(expenses, ByCategory, keys[i]) == if keys[i] in sums then sums[keys[i]] else 0.0;
    }
    AccumulatedKeys(CategoryKeys(cats), expenses, ByCategory);
    ExpenseShares(ms, ByCategory, keys, Values(rows));
  }

  /**
    Shape of `byCategory`'s keys: no key twice; exactly the category keys and the categories of
    the month's expenses; and, when the category keys are distinct, the category keys come first
    in category order.
   */
  lemma BreakdownKeysLayout(ms: seq<Entry>, cats: seq<Category>)
    ensures Distinct(BreakdownKeys(ms, cats))
    ensures forall k :: k in BreakdownKeys(ms, cats) <==>
              k in CategoryKeys(cats) || exists e :: e in ms && e.kind.Expense? && e.kind.category == k
    ensures Distinct(CategoryKeys(cats)) ==>
              |cats| <= |BreakdownKeys(ms, cats)| && BreakdownKeys(ms, cats)[..|cats|] == CategoryKeys(cats)
  {
    var ex := Select(ms, AllExpenses);
    AccumulatedKeys(CategoryKeys(cats), ex, ByCategory);
    AddNewMembers([], CategoryKeys(cats));
    AddNewMembers(AddNew([], CategoryKeys(cats)), KeysOf(ex, ByCategory));
    ExpenseKeys(ms, ByCategory);
    if Distinct(CategoryKeys(cats)) {
      AddNewDistinct(CategoryKeys(cats));
    }
  }

  /** A category with no expense in the month has value 0; a row whose key is not a category is labelled with its key. */
  lemma BreakdownRowValues(ms: seq<Entry>, cats: seq<Category>, k: string)
    ensures (forall e :: e in ms && e.kind.Expense? ==> e.kind.category != k) ==>
              KeyTotal(Select(ms, AllExpenses), ByCategory, k) == 0.0
    ensures k !in CategoryKeys(cats) ==> LabelFor(cats, k) == k
  {
    var ex := Select(ms, AllExpenses);
    SelectMembers(ms, AllExpenses);
    if forall e :: e in ms && e.kind.Expense? ==> e.kind.category != k {
      KeyTotalAbsent(ex, ByCategory, k);
    }
  }

  /** A sequence without repetitions holds each element at most once. */
  lemma {:induction false} DistinctCount<T>(a: seq<T>, x: T)
    requires Distinct(a)
    ensures multiset(a)[x] <= 1
  {
    if a != [] {
      var init := a[..|a| - 1];
      assert a == init + [a[|a| - 1]];
      DistinctCount(init, x);
      assert a[|a| - 1] !in init;
    }
  }

  /** Reordering keeps a sequence free of repetitions. */
  lemma DistinctPermutation<T>(a: seq<T>, b: seq<T>)
    requires multiset(a) == multiset(b) && Distinct(a)
    ensures Distinct(b)
  {
    forall i, j | 0 <= i < j < |b| ensures b[i] != b[j] {
      if b[i] == b[j] {
        assert b == b[..j] + [b[j]] + b[j + 1..];
        assert b[i] in b[..j];
        assert multiset(b)[b[j]] >= 2;
        DistinctCount(a, b[j]);
        assert false;
      }
    }
  }

  /** Sorting keys keeps exactly the same keys, without repetition, now ascending. */
  lemma SortedKeys(keys: seq<string>)
    requires Distinct(keys)
    ensures Distinct(SortBy(keys, Self)) && SortedBy(SortBy(keys, Self), Self)
    ensures forall d :: d in SortBy(keys, Self) <==> d in keys
  {
    var days := SortBy(keys, Self);
    SortBySorted(keys, Self);
    assert forall d :: d in days <==> d in multiset(keys);
    DistinctPermutation(keys, days);
  }

  /** The dates of the chart: the accumulated date keys sorted, ascending, without repetition, covering every expense. */
  lemma DailyDays(ms: seq<Entry>, keys: seq<string>)
    requires keys == AddNew(AddNew([], []), KeysOf(Select(ms, AllExpenses), ByDate))
    ensures Distinct(SortBy(keys, Self)) && SortedBy(SortBy(keys, Self), Self)
    ensures forall d :: d in SortBy(keys, Self) <==> d in keys
    ensures forall d :: d in SortBy(keys, Self) <==> exists e :: e in ms && e.kind.Expense? && e.date == d
    ensures forall i :: 0 <= i < |Select(ms, AllExpenses)| ==> KeyOf(ByDate, Select(ms, AllExpenses)[i]) in SortBy(keys, Self)
  {
    var expenses := Select(ms, AllExpenses);
    AccumulatedKeys([], expenses, ByDate);
    assert AddNew([], []) == [];
    AddNewMembers([], KeysOf(expenses, ByDate));
    ExpenseKeys(ms, ByDate);
    SortedKeys(keys);
  }

  /** Every sorted date is a key of the map, since the map holds exactly the accumulated keys. */
  lemma DayKeysTallied(days: seq<string>, keys: seq<string>, sums: map<string, real>)
    requires forall d :: d in days <==> d in keys
    requires forall k :: k in sums <==> k in keys
    ensures forall i :: 0 <= i < |days| ==> days[i] in sums
  {
  }

  /** Reading each date from a tallied map gives that date's expense total. */
  lemma DailyAmounts(expenses: seq<Entry>, sums: map<string, real>, days: seq<string>, amounts: seq<real>)
    requires Tallied(sums, expenses, ByDate)
    requires |amounts| == |days|
    requires forall i :: 0 <= i < |days| ==> days[i] in sums && amounts[i] == sums[days[i]]
    ensures forall i :: 0 <= i < |days| ==> amounts[i] == KeyTotal(expenses, ByDate, days[i])
  {
    forall i | 0 <= i < |days| ensures amounts[i] == KeyTotal(expenses, ByDate, days[i]) {
      assert KeyTotal(expenses, ByDate, days[i]) == if days[i] in sums then sums[days[i]] else 0.0;
    }
  }

  /**
    The bar chart's series: the dates that carry expenses, ascending and without repetition, with the
    total of each date's expenses; the values add up to the month's expense total.
   */
  method DailyExpenses(ms: seq<Entry>) returns (days: seq<string>, amounts: seq<real>)
    ensures |days| == |amounts|
    ensures Distinct(days) && SortedBy(days, Self)
    ensures forall d :: d in days <==> exists e :: e in ms && e.kind.Expense? && e.date == d
    ensures forall i :: 0 <= i < |days| ==> amounts[i] == KeyTotal(Select(ms, AllExpenses), ByDate, days[i])
    ensures SumReals(amounts) == MonthTotals(ms).exp
  {
    var expenses := Select(ms, AllExpenses);
    var keys, sums := Accumulate([], expenses, ByDate);
    DailyDays(ms, keys);
    days := SortBy(keys, Self);
    DayKeysTallied(days, keys, sums);
    amounts := seq(|days|, i requires 0 <= i < |days| => sums[days[i]]);
    DailyAmounts(expenses, sums, days, amounts);
    ExpenseShares(ms, ByDate, days, amounts);
  }
}
