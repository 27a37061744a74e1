/**
  The budget-model checks of src/App.jsx: whether the model's percentages are
  usable, the income the month's spending calls for under the model, the
  colour band of each category's spending against its limit, and the
  over-limit highlight of a category row.
 */
module Projection {
  import opened Wrappers
  import opened Ledger
  import opened Breakdown

  /** `modelValid`: the three shares add up to 100 and none is negative. */
  predicate ModelValid(m: BudgetModel) {
    m.fixed + m.variable + m.savings == 100.0 && m.fixed >= 0.0 && m.variable >= 0.0 && m.savings >= 0.0
  }

  /** `Math.max(0.0001, pct / 100)`: a share as a fraction, never below 0.0001. */
  function Share(pct: real): (r: real)
    ensures r >= 0.0001
    ensures r >= pct / 100.0
    ensures r == pct / 100.0 || r == 0.0001
  {
    if 0.0001 > pct / 100.0 then 0.0001 else pct / 100.0
  }

  /**
    Income `y` pays for each positive total at its share of the model: the fixed expenses at the
    fixed share, the variable expenses at the variable share, and all expenses at the two together.
   */
  predicate Covers(m: BudgetModel, t: Totals, y: real) {
    (t.fixed > 0.0 ==> t.fixed <= y * Share(m.fixed))
    && (t.variable > 0.0 ==> t.variable <= y * Share(m.variable))
    && (t.exp > 0.0 ==> t.exp <= y * (Share(m.fixed) + Share(m.variable)))
  }

  /** The candidate of one total: `total > 0 ? total / share : 0`. */
  function Need(total: real, share: real): (r: real)
    requires share > 0.0
    ensures r >= 0.0
    ensures total > 0.0 ==> total <= r * share
    ensures total <= 0.0 ==> r == 0.0
  {
    if total > 0.0 then
      assert total / share * share == total;
      total / share
    else 0.0
  }

  /** Multiplying by a positive factor keeps the order of two reals. */
  lemma ScaleLe(a: real, b: real, c: real)
    requires c > 0.0
    ensures a <= b <==> a * c <= b * c
  {
    if a * c <= b * c {
      assert (b - a) * c >= 0.0;
    }
  }

  /** No smaller income pays for a positive total at the same share. */
  lemma NeedIsLeast(total: real, share: real, y: real)
    requires share > 0.0 && total > 0.0 && total <= y * share
    ensures Need(total, share) <= y
  {
    ScaleLe(Need(total, share), y, share);
    assert Need(total, share) * share == total;
  }

  /** An income above one that covers a total at some share covers it too. */
  lemma CoverUp(total: real, n: real, r: real, share: real)
    requires share > 0.0 && n <= r
    requires total > 0.0 ==> total <= n * share
    ensures total > 0.0 ==> total <= r * share
  {
    ScaleLe(n, r, share);
  }

  /** `Math.max` of two reals. */
  function Max(a: real, b: real): (r: real)
    ensures r >= a && r >= b && (r == a || r == b)
  {
    if a >= b then a else b
  }

  /**
    `desiredIncome`: the least income, not negative, that covers every positive total at its share
    of the model (the combined share `Math.max(0.0001, f + v)` is always `f + v`, since each share is
    at least 0.0001).
   */
  function DesiredIncome(m: BudgetModel, t: Totals): (r: real)
    ensures r >= 0.0
    ensures Covers(m, t, r)
  {
    var f := Share(m.fixed);
    var v := Share(m.variable);
    var totalPct := Max(0.0001, f + v);
    assert totalPct == f + v;
    var n1, n2, n3 := Need(t.fixed, f), Need(t.variable, v), Need(t.exp, totalPct);
    var r := Max(Max(n1, n2), n3);
    CoversAbove(m, t, n1, n2, n3, r);
    r
  }

  /** An income at least each of the three candidates covers the three totals. */
  lemma CoversAbove(m: BudgetModel, t: Totals, n1: real, n2: real, n3: real, r: real)
    requires t.fixed > 0.0 ==> t.fixed <= n1 * Share(m.fixed)
    requires t.variable > 0.0 ==> t.variable <= n2 * Share(m.variable)
    requires t.exp > 0.0 ==> t.exp <= n3 * (Share(m.fixed) + Share(m.variable))
    requires n1 <= r && n2 <= r && n3 <= r
    ensures Covers(m, t, r)
  {
    var f, v := Share(m.fixed), Share(m.variable);
    CoverUp(t.fixed, n1, r, f);
    CoverUp(t.variable, n2, r, v);
    CoverUp(t.exp, n3, r, f + v);
  }

  /** No smaller non-negative income covers the totals: `desiredIncome` is the least cover. */
  lemma DesiredIncomeIsLeast(m: BudgetModel, t: Totals, y: real)
    requires y >= 0.0 && Covers(m, t, y)
    ensures DesiredIncome(m, t) <= y
  {
    var f, v := Share(m.fixed), Share(m.variable);
    assert Max(0.0001, f + v) == f + v;
    if t.fixed > 0.0 { NeedIsLeast(t.fixed, f, y); }
    if t.variable > 0.0 { NeedIsLeast(t.variable, v, y); }
    if t.exp > 0.0 { NeedIsLeast(t.exp, f + v, y); }
    assert t.fixed <= 0.0 ==> Need(t.fixed, f) == 0.0;
    assert t.variable <= 0.0 ==> Need(t.variable, v) == 0.0;
    assert t.exp <= 0.0 ==> Need(t.exp, f + v) == 0.0;
  }

  /** The projection line under the model settings: a figure only when the model is valid. */
  function ProjectedIncome(m: BudgetModel, t: Totals): (r: Option<real>)
    ensures r.Some? <==> ModelValid(m)
    ensures r.Some? ==> r.value == DesiredIncome(m, t)
  {
    if ModelValid(m) then Some(DesiredIncome(m, t)) else None
  }

  /** An income that covers larger totals covers smaller ones. */
  lemma CoversSmaller(m: BudgetModel, t: Totals, u: Totals, y: real)
    requires t.fixed <= u.fixed && t.variable <= u.variable && t.exp <= u.exp
    requires Covers(m, u, y)
    ensures Covers(m, t, y)
  {
    var f, v := Share(m.fixed), Share(m.variable);
    assert t.fixed > 0.0 ==> t.fixed <= u.fixed <= y * f;
    assert t.variable > 0.0 ==> t.variable <= u.variable <= y * v;
    assert t.exp > 0.0 ==> t.exp <= u.exp <= y * (f + v);
  }

  /** Spending more in every total never lowers the income the model asks for. */
  lemma DesiredIncomeMonotone(m: BudgetModel, t: Totals, u: Totals)
    requires t.fixed <= u.fixed && t.variable <= u.variable && t.exp <= u.exp
    ensures DesiredIncome(m, t) <= DesiredIncome(m, u)
  {
    var y := DesiredIncome(m, u);
    CoversSmaller(m, t, u, y);
    DesiredIncomeIsLeast(m, t, y);
  }

  /** A month with no positive total asks for no income. */
  lemma DesiredIncomeOfNothing(m: BudgetModel, t: Totals)
    requires t.fixed <= 0.0 && t.variable <= 0.0 && t.exp <= 0.0
    ensures DesiredIncome(m, t) == 0.0
  {
    DesiredIncomeIsLeast(m, t, 0.0);
  }

  /** Model 80/10/10 with fixed 500, variable 120 and all expenses 620 asks for 1200: the variable share decides. */
  lemma DesiredIncomeExample()
    ensures DesiredIncome(DefaultModel, MonthTotals(MonthEntries(MarchLedger, "2024-03"))) == 1200.0
    ensures ProjectedIncome(DefaultModel, MonthTotals(MonthEntries(MarchLedger, "2024-03"))) == Some(1200.0)
  {
    MarchTotals();
    var t := Totals(620.0, 2000.0, 1380.0, 500.0, 120.0);
    assert Share(80.0) == 0.8 && Share(10.0) == 0.1;
    assert Covers(DefaultModel, t, 1200.0);
    DesiredIncomeIsLeast(DefaultModel, t, 1200.0);
    var r := DesiredIncome(DefaultModel, t);
    assert 120.0 <= r * 0.1;
    ScaleLe(1200.0, r, 0.1);
  }

  /** The three colours of the limit panel. */
  datatype Band = Under | Near | Over

  /** Against a positive limit, the ratio thresholds 1 and 0.8 are the thresholds `limit` and `0.8 * limit` on the amount used. */
  lemma RatioThresholds(used: real, limit: real)
    ensures limit > 0.0 ==> (used / limit >= 1.0 <==> used >= limit)
    ensures limit > 0.0 ==> (used / limit >= 0.8 <==> used >= 0.8 * limit)
  {
    if limit > 0.0 {
      ScaledThreshold(used / limit, limit, used, 1.0);
      ScaledThreshold(used / limit, limit, used, 0.8);
    }
  }

  /** `used / limit >= x` is `used >= x * limit` for a positive limit. */
  lemma ScaledThreshold(ratio: real, limit: real, used: real, x: real)
    requires limit > 0.0 && ratio * limit == used
    ensures ratio >= x <==> used >= x * limit
  {
    ScaleLe(x, ratio, limit);
  }

  /** The colour of `used` against `limit`, read from `ratio = used / limit` when the limit is positive. */
  function Classify(used: real, limit: real): (b: Band)
    ensures b == Over <==> limit > 0.0 && used >= limit
    ensures b == Near <==> limit > 0.0 && 0.8 * limit <= used < limit
    ensures b == Under <==> limit <= 0.0 || used < 0.8 * limit
  {
    var ratio := if limit > 0.0 then used / limit else 0.0;
    RatioThresholds(used, limit);
    if limit > 0.0 && ratio >= 1.0 then Over
    else if limit > 0.0 && ratio >= 0.8 && ratio < 1.0 then Near
    else Under
  }

  /** Boundaries: 80 of 100 is already near, 100 of 100 is already over, and nothing is judged without a limit. */
  lemma ClassifyBoundaries(used: real)
    ensures Classify(80.0, 100.0) == Near
    ensures Classify(79.99, 100.0) == Under
    ensures Classify(100.0, 100.0) == Over
    ensures Classify(used, 0.0) == Under
  {
  }

  /** `Number(settings.limits?.[key] ?? 0) || 0`: the stored limit of `key`, 0 when there is none. */
  function LimitOf(limits: map<string, real>, key: string): (r: real)
    ensures key !in limits ==> r == 0.0
    ensures key in limits ==> r == limits[key]
  {
    if key in limits then limits[key] else 0.0
  }

  /** One line of the limit panel. */
  datatype LimitRow = LimitRow(key: string, value: real, caption: string, limit: real, used: real, ratio: real, band: Band)

  /** The panel line of one `byCategory` row. */
  function StatusOf(c: CategoryRow, limits: map<string, real>): (s: LimitRow)
    ensures s.key == c.key && s.value == c.value && s.caption == c.caption && s.used == c.value
    ensures s.limit == LimitOf(limits, c.key)
    ensures s.limit > 0.0 ==> s.ratio * s.limit == s.used
    ensures s.limit <= 0.0 ==> s.ratio == 0.0
    ensures s.band == Classify(c.value, s.limit)
  {
    var limit := LimitOf(limits, c.key);
    var ratio := if limit > 0.0 then c.value / limit else 0.0;
    LimitRow(c.key, c.value, c.caption, limit, c.value, ratio, Classify(c.value, limit))
  }

  /** `limitStatus`: one panel line per `byCategory` row, in the same order. */
  function LimitStatus(rows: seq<CategoryRow>, limits: map<string, real>): (r: seq<LimitRow>)
    ensures |r| == |rows|
    ensures forall i :: 0 <= i < |rows| ==> r[i] == StatusOf(rows[i], limits)
  {
    seq(|rows|, i requires 0 <= i < |rows| => StatusOf(rows[i], limits))
  }

  /** `byCategory.find((c) => c.key === key)?.value || 0`. */
  function FirstValue(rows: seq<CategoryRow>, key: string): (r: real)
    ensures (forall i :: 0 <= i < |rows| ==> rows[i].key != key) ==> r == 0.0
    ensures forall i :: 0 <= i < |rows| && rows[i].key == key && (forall j :: 0 <= j < i ==> rows[j].key != key) ==>
              r == rows[i].value
  {
    if rows == [] then 0.0
    else if rows[0].key == key then rows[0].value
    else
      var r := FirstValue(rows[1..], key);
      assert forall i :: 1 <= i < |rows| ==> rows[i] == rows[1..][i - 1];
      r
  }

  /** `rowBgForCategory`: a category row is tinted when it has a nonzero limit and strictly exceeds it. */
  predicate RowHighlighted(limits: map<string, real>, rows: seq<CategoryRow>, key: string) {
    var lim := LimitOf(limits, key);
    lim != 0.0 && FirstValue(rows, key) > lim
  }

  /** With a limit that is not negative, a tinted row is in the over band of its panel line. */
  lemma HighlightedIsOver(limits: map<string, real>, rows: seq<CategoryRow>, key: string)
    requires LimitOf(limits, key) >= 0.0
    requires RowHighlighted(limits, rows, key)
    ensures Classify(FirstValue(rows, key), LimitOf(limits, key)) == Over
  {
  }

  /** A category spending exactly its positive limit is over in the panel but its row is not tinted. */
  lemma AtLimitOverButNotHighlighted(limits: map<string, real>, rows: seq<CategoryRow>, key: string)
    requires LimitOf(limits, key) > 0.0 && FirstValue(rows, key) == LimitOf(limits, key)
    ensures Classify(FirstValue(rows, key), LimitOf(limits, key)) == Over
    ensures !RowHighlighted(limits, rows, key)
  {
  }

  /** Over the `byCategory` rows, the highlight reads the value of the row with that key. */
  lemma HighlightReadsRow(limits: map<string, real>, ms: seq<Entry>, cats: seq<Category>, rows: seq<CategoryRow>, i: int)
    requires |rows| == |BreakdownKeys(ms, cats)|
    requires forall j :: 0 <= j < |rows| ==> rows[j].key == BreakdownKeys(ms, cats)[j]
    requires 0 <= i < |rows|
    ensures FirstValue(rows, rows[i].key) == rows[i].value
  {
    BreakdownKeysLayout(ms, cats);
    assert forall j :: 0 <= j < i ==> rows[j].key != rows[i].key;
  }
}
