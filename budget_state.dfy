/**
  The state of the budget page of src/App.jsx and its four handlers: adding
  an entry from the entry form, deleting entries by id, adding a category and
  setting a category's spending limit. React's state setters become fields
  that the methods reassign.
 */
module BudgetEngine {
  import opened Wrappers
  import opened Text
  import opened Ledger

  /** The entry form, with the text of its inputs. */
  datatype Form = Form(
    date: string,
    entryType: EntryType,
    group: Group,
    category: string,
    incomeCategoryText: string,
    description: string,
    amount: string)

  /** `Number(String(text).replace(",", "."))`: only the first comma becomes a decimal point. */
  function ParseAmount(text: string, parse: NumberParser): (r: Option<real>)
    ensures ',' !in text ==> r == parse(text)
  {
    parse(ReplaceFirst(text, ',', '.'))
  }

  /** The checks of `addEntry`: a description, a date, and an amount that reads as a finite number above 0. */
  predicate Accepts(form: Form, parse: NumberParser) {
    form.description != "" && form.date != ""
    && ParseAmount(form.amount, parse).Some? && ParseAmount(form.amount, parse).value > 0.0
  }

  /** `form.incomeCategoryText?.trim() || "Приход"`: the trimmed text, or the income label when nothing is left. */
  function IncomeCategory(text: string): (r: string)
    ensures r != [] && !IsSpace(r[0]) && !IsSpace(r[|r| - 1])
  {
    var t := Trim(text);
    TrimEdges(text);
    if t != "" then t
    else
      IncomeLabelEdges();
      IncomeLabel
  }

  /** The income label has no white space at either end. */
  lemma IncomeLabelEdges()
    ensures IncomeLabel != [] && !IsSpace(IncomeLabel[0]) && !IsSpace(IncomeLabel[|IncomeLabel| - 1])
  {
    assert |IncomeLabel| == 6;
    assert IncomeLabel[0] == 'П';
    assert IncomeLabel[5] == 'д';
  }

  /** A blank category text gives the income label; any other gives the text without its surrounding white space. */
  lemma IncomeCategoryText(text: string)
    ensures AllSpace(text) ==> IncomeCategory(text) == IncomeLabel
    ensures !AllSpace(text) ==> IncomeCategory(text) == Trim(text)
  {
    TrimEdges(text);
  }

  /** The record `addEntry` builds: an expense takes the form's group and category, an income its own category text. */
  function MakeEntry(id: string, form: Form, amount: real): (e: Entry)
    ensures e.id == id && e.date == form.date && e.description == form.description && e.amount == amount
    ensures form.entryType == ExpenseType ==> e.kind == Expense(form.group, form.category)
    ensures form.entryType == IncomeType ==> e.kind == Income(IncomeCategory(form.incomeCategoryText))
  {
    var kind := if form.entryType == ExpenseType then Expense(form.group, form.category)
                else Income(IncomeCategory(form.incomeCategoryText));
    Entry(id, form.date, kind, form.description, amount)
  }

  /** The form after a successful `addEntry`: description, amount and income text cleared, the rest kept. */
  function ClearedForm(form: Form): (f: Form)
    ensures f.description == "" && f.amount == "" && f.incomeCategoryText == ""
    ensures f.date == form.date && f.entryType == form.entryType && f.group == form.group && f.category == form.category
  {
    form.(description := "", amount := "", incomeCategoryText := "")
  }

  /** `entries.filter((x) => x.id !== id)`. */
  function WithoutId(s: seq<Entry>, id: string): (r: seq<Entry>)
    ensures |r| <= |s|
    ensures forall i :: 0 <= i < |r| ==> r[i].id != id && r[i] in s
  {
    if s == [] then []
    else
      var init := WithoutId(s[..|s| - 1], id);
      var x := s[|s| - 1];
      assert forall e :: e in s[..|s| - 1] ==> e in s;
      if x.id != id then init + [x] else init
  }

  /** Deleting an id that no entry has changes nothing. */
  lemma {:induction false} WithoutIdAbsent(s: seq<Entry>, id: string)
    requires forall i :: 0 <= i < |s| ==> s[i].id != id
    ensures WithoutId(s, id) == s
  {
    if s != [] {
      WithoutIdAbsent(s[..|s| - 1], id);
    }
  }

  /** The filter works piece by piece, so the kept entries stay in their order. */
  lemma {:induction false} WithoutIdAppend(a: seq<Entry>, b: seq<Entry>, id: string)
    ensures WithoutId(a + b, id) == WithoutId(a, id) + WithoutId(b, id)
    decreases |b|
  {
    if b == [] {
      assert a + b == a;
    } else {
      var b' := b[..|b| - 1];
      assert (a + b)[..|a + b| - 1] == a + b';
      WithoutIdAppend(a, b', id);
    }
  }

  /** Exactly the entries with that id go: every other entry keeps its number of copies. */
  lemma {:induction false} WithoutIdCount(s: seq<Entry>, id: string, x: Entry)
    ensures multiset(WithoutId(s, id))[x] == if x.id == id then 0 else multiset(s)[x]
  {
    if s != [] {
      var init, last := s[..|s| - 1], s[|s| - 1];
      WithoutIdCount(init, id, x);
      assert s == init + [last];
      assert multiset(s) == multiset(init) + multiset{last};
      if last.id != id {
        assert WithoutId(s, id) == WithoutId(init, id) + [last];
        assert multiset(WithoutId(s, id)) == multiset(WithoutId(init, id)) + multiset{last};
      } else {
        assert WithoutId(s, id) == WithoutId(init, id);
      }
    }
  }

  /** Deleting an id twice is deleting it once. */
  lemma {:induction false} WithoutIdIdempotent(s: seq<Entry>, id: string)
    ensures WithoutId(WithoutId(s, id), id) == WithoutId(s, id)
  {
    WithoutIdAbsent(WithoutId(s, id), id);
  }

  /** `label.trim().toLowerCase().replace(/\s+/g, "_")`, with the case mapping given as `lower`. */
  function CategoryKey(name: string, lower: char -> char): string {
    ReplaceSpaceRuns(seq(|Trim(name)|, i requires 0 <= i < |Trim(name)| => lower(Trim(name)[i])))
  }

  /** A derived key holds no white space, and it is empty just when the label is all white space. */
  lemma CategoryKeyShape(name: string, lower: char -> char)
    ensures NoSpace(CategoryKey(name, lower))
    ensures CategoryKey(name, lower) == "" <==> AllSpace(name)
  {
    TrimShape(name);
  }

  /** `Math.max(0, Number(String(text).replace(",", ".")) || 0)`: never negative, 0 for text that is not a finite number. */
  function LimitValue(text: string, parse: NumberParser): (r: real)
    ensures r >= 0.0
    ensures ParseAmount(text, parse).None? ==> r == 0.0
    ensures ParseAmount(text, parse).Some? ==> r == if ParseAmount(text, parse).value > 0.0 then ParseAmount(text, parse).value else 0.0
  {
    var x := ParseAmount(text, parse).GetOr(0.0);
    if 0.0 > x then 0.0 else x
  }

  /** No two entries share an id. */
  predicate UniqueIds(s: seq<Entry>) {
    forall i, j :: 0 <= i < j < |s| ==> s[i].id != s[j].id
  }

  /** An entry whose id is new keeps the ids unique when it goes in front. */
  lemma UniqueIdsPrepend(e: Entry, s: seq<Entry>)
    ensures UniqueIds(s) && (forall i :: 0 <= i < |s| ==> s[i].id != e.id) ==> UniqueIds([e] + s)
  {
    if UniqueIds(s) && (forall i :: 0 <= i < |s| ==> s[i].id != e.id) {
      var t := [e] + s;
      forall i, j | 0 <= i < j < |t| ensures t[i].id != t[j].id {
        assert t[j] == s[j - 1];
        if i > 0 {
          assert t[i] == s[i - 1];
        }
      }
    }
  }

  /** Every entry has a date, a description and a positive amount, as `addEntry` checks. */
  predicate WellFormed(s: seq<Entry>) {
    forall i :: 0 <= i < |s| ==> s[i].date != "" && s[i].description != "" && s[i].amount > 0.0
  }

  /** An entry that passed the checks keeps the ledger well formed when it goes in front. */
  lemma WellFormedPrepend(e: Entry, s: seq<Entry>)
    requires e.date != "" && e.description != "" && e.amount > 0.0
    ensures WellFormed(s) ==> WellFormed([e] + s)
  {
    if WellFormed(s) {
      forall i | 0 <= i < |[e] + s| ensures ([e] + s)[i].date != "" && ([e] + s)[i].description != "" && ([e] + s)[i].amount > 0.0 {
        if i > 0 {
          assert ([e] + s)[i] == s[i - 1];
        }
      }
    }
  }

  /** Adding a category adds its key at the end of the key list. */
  lemma CategoryKeysSnoc(cats: seq<Category>, c: Category)
    ensures CategoryKeys(cats + [c]) == CategoryKeys(cats) + [c.key]
  {
  }

  /** A key that is new keeps the keys distinct when it is appended. */
  lemma DistinctSnoc(keys: seq<string>, k: string)
    requires Distinct(keys) && k !in keys
    ensures Distinct(keys + [k])
  {
    forall i, j | 0 <= i < j < |keys + [k]| ensures (keys + [k])[i] != (keys + [k])[j] {
      assert (keys + [k])[i] == keys[i];
    }
  }

  /** The page state: the ledger, the categories, the limits and model of the settings, the month shown and the form. */
  class BudgetState {
    var entries: seq<Entry>
    var categories: seq<Category>
    var limits: map<string, real>
    var model: BudgetModel
    var month: string
    var form: Form

    /**
      What the handlers keep true: category keys are unique, limits are not negative, and every
      entry has a date, a description and a positive amount.
     */
    ghost predicate Valid()
      reads this
    {
      Distinct(CategoryKeys(categories))
      && (forall k :: k in limits ==> limits[k] >= 0.0)
      && WellFormed(entries)
    }

    /** The start-up state: empty ledger, default categories, no limits, model 80/10/10, an expense form dated `today`. */
    constructor (today: string, currentMonth: string)
      ensures entries == [] && categories == DefaultCategories && limits == map[] && model == DefaultModel
      ensures month == currentMonth
      ensures form == Form(today, ExpenseType, Fixed, DefaultCategories[0].key, "", "", "")
      ensures Valid()
    {
      entries := [];
      categories := DefaultCategories;
      limits := map[];
      model := DefaultModel;
      month := currentMonth;
      form := Form(today, ExpenseType, Fixed, DefaultCategories[0].key, "", "", "");
      assert CategoryKeys(DefaultCategories) == ["home", "food", "transport", "health", "utilities", "fun", "shopping", "other"];
    }

    /** `setEntries((prev) => [e, ...prev])`: a well-formed entry goes in front of the ledger; nothing else changes. */
    method Prepend(e: Entry)
      requires e.date != "" && e.description != "" && e.amount > 0.0
      modifies this
      ensures entries == [e] + old(entries)
      ensures categories == old(categories) && limits == old(limits) && model == old(model)
      ensures month == old(month) && form == old(form)
      ensures old(Valid()) ==> Valid()
      ensures old(UniqueIds(entries)) && (forall i :: 0 <= i < |old(entries)| ==> old(entries)[i].id != e.id) ==> UniqueIds(entries)
    {
      UniqueIdsPrepend(e, entries);
      WellFormedPrepend(e, entries);
      entries := [e] + entries;
    }

    /**
      `addEntry`: when the form passes the checks, one entry built from it goes in front of the ledger and
      the form is cleared; otherwise nothing changes. The categories, limits, model and month are untouched.
     */
    method AddEntry(id: string, parse: NumberParser) returns (added: bool)
      modifies this
      ensures added <==> Accepts(old(form), parse)
      ensures added ==> entries == [MakeEntry(id, old(form), ParseAmount(old(form).amount, parse).value)] + old(entries)
      ensures added ==> form == ClearedForm(old(form))
      ensures !added ==> entries == old(entries) && form == old(form)
      ensures categories == old(categories) && limits == old(limits) && model == old(model) && month == old(month)
      ensures old(Valid()) ==> Valid()
      ensures old(UniqueIds(entries)) && (forall i :: 0 <= i < |old(entries)| ==> old(entries)[i].id != id) ==> UniqueIds(entries)
    {
      var amount := ParseAmount(form.amount, parse);
      if form.description == "" || form.date == "" || amount.None? || amount.value <= 0.0 {
        return false;
      }
      Prepend(MakeEntry(id, form, amount.value));
      form := ClearedForm(form);
      added := true;
    }

    /** `deleteEntry`: the entries with that id leave the ledger; everything else stays as it was. */
    method DeleteEntry(id: string)
      modifies this
      ensures entries == WithoutId(old(entries), id)
      ensures categories == old(categories) && limits == old(limits) && model == old(model)
      ensures month == old(month) && form == old(form)
      ensures old(Valid()) ==> Valid()
    {
      entries := WithoutId(entries, id);
    }

    /** `setCategories((prev) => [...prev, c])` for a category whose key is new; nothing else changes. */
    method Append(c: Category)
      requires c.key !in CategoryKeys(categories)
      modifies this
      ensures categories == old(categories) + [c]
      ensures entries == old(entries) && limits == old(limits) && model == old(model)
      ensures month == old(month) && form == old(form)
      ensures Distinct(CategoryKeys(old(categories))) ==> Distinct(CategoryKeys(categories))
      ensures old(Valid()) ==> Valid()
    {
      CategoryKeysSnoc(categories, c);
      if Distinct(CategoryKeys(categories)) {
        DistinctSnoc(CategoryKeys(categories), c.key);
      }
      categories := categories + [c];
    }

    /**
      `addCategory`: the key derived from the label is added with the label as typed, unless the key is
      empty or already taken; category keys stay unique.
     */
    method AddCategory(name: string, lower: char -> char) returns (added: bool)
      modifies this
      ensures var key := CategoryKey(name, lower);
              added <==> key != "" && key !in CategoryKeys(old(categories))
      ensures added ==> categories == old(categories) + [Category(CategoryKey(name, lower), name)]
      ensures !added ==> categories == old(categories)
      ensures entries == old(entries) && limits == old(limits) && model == old(model)
      ensures month == old(month) && form == old(form)
      ensures Distinct(CategoryKeys(old(categories))) ==> Distinct(CategoryKeys(categories))
      ensures old(Valid()) ==> Valid()
    {
      var key := CategoryKey(name, lower);
      if key == "" {
        return false;
      }
      if key in CategoryKeys(categories) {
        return false;
      }
      Append(Category(key, name));
      added := true;
    }

    /** `setLimit`: the limit of `catKey` becomes the value read from `text`; other limits and the model are kept. */
    method SetLimit(catKey: string, text: string, parse: NumberParser)
      modifies this
      ensures limits == old(limits)[catKey := LimitValue(text, parse)]
      ensures entries == old(entries) && categories == old(categories) && model == old(model)
      ensures month == old(month) && form == old(form)
      ensures old(Valid()) ==> Valid()
    {
      limits := limits[catKey := LimitValue(text, parse)];
    }
  }

  /** A form whose amount text has two commas is read with only the first one turned into a point. */
  lemma OnlyFirstComma(parse: NumberParser)
    ensures ParseAmount("1,000,50", parse) == parse("1.000,50")
  {
    var s := "1,000,50";
    assert s[0] != ',' && s[1] == ',';
    assert IndexOf(s, ',') == 1;
    assert ReplaceFirst(s, ',', '.') == s[..1] + ['.'] + s[2..];
    assert s[..1] + ['.'] + s[2..] == "1.000,50";
  }

  /** Deleting every id of the ledger, one after another, empties it. */
  function DeleteAll(s: seq<Entry>, ids: seq<string>): seq<Entry>
    decreases |ids|
  {
    if ids == [] then s else DeleteAll(WithoutId(s, ids[0]), ids[1..])
  }

  lemma {:induction false} DeleteEveryId(s: seq<Entry>, ids: seq<string>)
    requires forall i :: 0 <= i < |s| ==> s[i].id in ids
    ensures DeleteAll(s, ids) == []
    decreases |ids|
  {
    if s != [] {
      assert s[0].id in ids;
    }
    if ids != [] {
      var t := WithoutId(s, ids[0]);
      forall i | 0 <= i < |t| ensures t[i].id in ids[1..] {
        var j :| 0 <= j < |s| && s[j] == t[i];
        assert s[j].id in ids && s[j].id != ids[0];
      }
      DeleteEveryId(t, ids[1..]);
    }
  }
}
