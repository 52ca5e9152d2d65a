/**
 * Expense-based income replacement (`calculate_retirement_income_replacement`):
 * monthly expenses are totalled per lower-cased category, each category is
 * scaled by its retirement adjustment factor, and the ratio of the two
 * totals is the income replacement ratio.
 */
module IncomeReplacement {
  import opened Outcomes
  import opened Numeric

  // ---------------------------------------------------------------------
  // Ledgers: dictionaries from category to amount, in insertion order
  // ---------------------------------------------------------------------

  type Ledger = seq<(string, real)>

  function Keys(l: Ledger): set<string> {
    set i | 0 <= i < |l| :: l[i].0
  }

  predicate UniqueKeys(l: Ledger) {
    forall i, j :: 0 <= i < j < |l| ==> l[i].0 != l[j].0
  }

  /** The amount stored under `k`, 0 when absent (`d.get(k, 0)`). */
  function Get(l: Ledger, k: string): real {
    if l == [] then 0.0 else if l[0].0 == k then l[0].1 else Get(l[1..], k)
  }

  /** `d[k] = v`: replaces the amount in place, or appends a new entry. */
  function Put(l: Ledger, k: string, v: real): Ledger {
    if l == [] then [(k, v)]
    else if l[0].0 == k then [(k, v)] + l[1..]
    else [l[0]] + Put(l[1..], k, v)
  }

  /** `sum(d.values())`. */
  function Total(l: Ledger): real {
    if l == [] then 0.0 else l[0].1 + Total(l[1..])
  }

  lemma {:induction false} GetAbsent(l: Ledger, k: string)
    requires k !in Keys(l)
    ensures Get(l, k) == 0.0
  {
    if l != [] {
      assert l[0].0 in Keys(l);
      assert Keys(l[1..]) <= Keys(l) by {
        forall c | c in Keys(l[1..]) ensures c in Keys(l) {
          var i :| 0 <= i < |l[1..]| && l[1..][i].0 == c;
          assert l[i + 1].0 == c;
        }
      }
      GetAbsent(l[1..], k);
    }
  }

  lemma KeysCons(l: Ledger)
    requires l != []
    ensures Keys(l) == {l[0].0} + Keys(l[1..])
  {
    forall c | c in Keys(l) ensures c in {l[0].0} + Keys(l[1..]) {
      var i :| 0 <= i < |l| && l[i].0 == c;
      if i > 0 {
        assert l[1..][i - 1].0 == c;
      }
    }
    forall c | c in Keys(l[1..]) ensures c in Keys(l) {
      var i :| 0 <= i < |l[1..]| && l[1..][i].0 == c;
      assert l[i + 1].0 == c;
    }
  }

  /** Storing under a key adds that key to the keys, and no other. */
  lemma {:induction false} PutKeys(l: Ledger, k: string, v: real)
    ensures Keys(Put(l, k, v)) == Keys(l) + {k}
  {
    if l == [] {
      assert Keys([(k, v)]) == {k} by {
        assert [(k, v)][0].0 == k;
      }
    } else {
      KeysCons(l);
      var p := Put(l, k, v);
      KeysCons(p);
      if l[0].0 == k {
        assert p[1..] == l[1..];
      } else {
        PutKeys(l[1..], k, v);
        assert p[1..] == Put(l[1..], k, v);
      }
    }
  }

  /** Storing under a key leaves every other key's amount as it was. */
  lemma {:induction false} GetPutOther(l: Ledger, k: string, v: real, c: string)
    requires c != k
    ensures Get(Put(l, k, v), c) == Get(l, c)
  {
    if l != [] {
      var p := Put(l, k, v);
      if l[0].0 == k {
        assert p[1..] == l[1..];
      } else {
        GetPutOther(l[1..], k, v, c);
        assert p[1..] == Put(l[1..], k, v);
      }
    }
  }

  /** Storing under a key moves the total by the difference between the new and the old amount. */
  lemma {:induction false} PutTotal(l: Ledger, k: string, v: real)
    ensures Total(Put(l, k, v)) == Total(l) - Get(l, k) + v
  {
    if l == [] {
      assert [(k, v)][1..] == [];
    } else {
      var p := Put(l, k, v);
      if l[0].0 == k {
        assert p[1..] == l[1..];
      } else {
        PutTotal(l[1..], k, v);
        assert p[1..] == Put(l[1..], k, v);
      }
    }
  }

  /** Storing under a key never makes a key occur twice. */
  lemma {:induction false} PutUnique(l: Ledger, k: string, v: real)
    requires UniqueKeys(l)
    ensures UniqueKeys(Put(l, k, v))
  {
    if l != [] {
      var p := Put(l, k, v);
      if l[0].0 == k {
        assert p[1..] == l[1..];
        forall i, j | 0 <= i < j < |p| ensures p[i].0 != p[j].0 {
          assert p[j] == l[j];
          if i > 0 {
            assert p[i] == l[i];
          }
        }
      } else {
        var rest := l[1..];
        assert UniqueKeys(rest) by {
          forall i, j | 0 <= i < j < |rest| ensures rest[i].0 != rest[j].0 {
            assert rest[i] == l[i + 1] && rest[j] == l[j + 1];
          }
        }
        PutUnique(rest, k, v);
        PutKeys(rest, k, v);
        assert p[1..] == Put(rest, k, v);
        assert l[0].0 !in Keys(rest) by {
          forall i | 0 <= i < |rest| ensures rest[i].0 != l[0].0 {
            assert rest[i] == l[i + 1];
          }
        }
        forall i, j | 0 <= i < j < |p| ensures p[i].0 != p[j].0 {
          if i == 0 {
            assert p[j] == p[1..][j - 1];
            assert p[1..][j - 1].0 in Keys(p[1..]);
          } else {
            assert p[i] == p[1..][i - 1] && p[j] == p[1..][j - 1];
          }
        }
      }
    }
  }

  // ---------------------------------------------------------------------
  // Categories
  // ---------------------------------------------------------------------

  /** ASCII lower-casing of one character. */
  function LowerChar(ch: char): char {
    if 'A' <= ch <= 'Z' then (ch as int + 32) as char else ch
  }

  /** `s.lower()` on ASCII text. */
  function Lower(s: string): string {
    if s == [] then [] else [LowerChar(s[0])] + Lower(s[1..])
  }

  /** Lower-casing keeps the length, maps each character, and a second time changes nothing. */
  lemma {:induction false} LowerFacts(s: string)
    ensures |Lower(s)| == |s|
    ensures forall i :: 0 <= i < |s| ==> Lower(s)[i] == LowerChar(s[i]) && !('A' <= Lower(s)[i] <= 'Z')
    ensures Lower(Lower(s)) == Lower(s)
  {
    if s != [] {
      LowerFacts(s[1..]);
      assert Lower(s)[1..] == Lower(s[1..]);
    }
  }

  /** One expense record; either field may be missing. */
  datatype Expense = Expense(category: Option<string>, amount: Option<real>)

  /** The category an expense is filed under: lower-cased, `other` when missing. */
  function CategoryOf(e: Expense): string {
    if e.category.Some? then Lower(e.category.value) else "other"
  }

  function AmountOf(e: Expense): real {
    if e.amount.Some? then e.amount.value else 0.0
  }

  /** The adjustment factors used when none (or an empty set) are given. */
  const DefaultAdjustments: map<string, real> := map[
    "housing" := 0.8, "transportation" := 0.6, "food" := 0.9,
    "healthcare" := 1.5, "entertainment" := 1.2, "other" := 1.0]

  function EffectiveAdjustments(adjustments: Option<map<string, real>>): map<string, real> {
    if adjustments.None? || adjustments.value == map[] then DefaultAdjustments else adjustments.value
  }

  /** The factor for a category, 1.0 when it has none. */
  function Factor(adjustments: map<string, real>, c: string): real {
    if c in adjustments then adjustments[c] else 1.0
  }

  // ---------------------------------------------------------------------
  // Specification of the loop
  // ---------------------------------------------------------------------

  /** The per-category totals after filing `es` in order. */
  function CurrentLedger(es: seq<Expense>): Ledger {
    if es == [] then []
    else
      var prev := CurrentLedger(es[..|es| - 1]);
      var e := es[|es| - 1];
      Put(prev, CategoryOf(e), Filed(prev, e))
  }

  /** The amount a category holds once expense `e` is filed into ledger `l`. */
  function Filed(l: Ledger, e: Expense): real {
    Get(l, CategoryOf(e)) + AmountOf(e)
  }

  /** A category's retirement amount: today's amount times its factor. */
  function ScaledAmount(adjustments: map<string, real>, c: string, amount: real): real {
    amount * Factor(adjustments, c)
  }

  /** Every category scaled by its factor, keys and order kept. */
  function Scaled(l: Ledger, adjustments: map<string, real>): Ledger {
    if l == [] then [] else [(l[0].0, ScaledAmount(adjustments, l[0].0, l[0].1))] + Scaled(l[1..], adjustments)
  }

  lemma ScaledCons(l: Ledger, adjustments: map<string, real>)
    requires l != []
    ensures Scaled(l, adjustments) != []
    ensures Scaled(l, adjustments)[0] == (l[0].0, ScaledAmount(adjustments, l[0].0, l[0].1))
    ensures Scaled(l, adjustments)[1..] == Scaled(l[1..], adjustments)
  {
    var s := Scaled(l, adjustments);
    assert s == [(l[0].0, ScaledAmount(adjustments, l[0].0, l[0].1))] + Scaled(l[1..], adjustments);
  }

  /** Rescaling after storing is storing the rescaled amount. */
  lemma {:induction false} ScaledPut(l: Ledger, k: string, v: real, adjustments: map<string, real>)
    ensures Scaled(Put(l, k, v), adjustments) == Put(Scaled(l, adjustments), k, ScaledAmount(adjustments, k, v))
  {
    var p := Put(l, k, v);
    var scaled := ScaledAmount(adjustments, k, v);
    assert p != [];
    ScaledCons(p, adjustments);
    var sp := Scaled(p, adjustments);
    assert sp == [sp[0]] + sp[1..];
    if l != [] {
      ScaledCons(l, adjustments);
      var s := Scaled(l, adjustments);
      if l[0].0 == k {
        assert p == [(k, v)] + l[1..];
        assert p[1..] == l[1..];
        assert Put(s, k, scaled) == [(k, scaled)] + s[1..];
      } else {
        ScaledPut(l[1..], k, v, adjustments);
        assert p == [l[0]] + Put(l[1..], k, v);
        assert p[1..] == Put(l[1..], k, v);
        assert Put(s, k, scaled) == [s[0]] + Put(s[1..], k, scaled);
      }
    } else {
      assert p == [(k, v)];
      assert p[1..] == [];
    }
  }

  lemma {:induction false} ScaledKeys(l: Ledger, adjustments: map<string, real>)
    ensures Keys(Scaled(l, adjustments)) == Keys(l)
  {
    if l != [] {
      var s := Scaled(l, adjustments);
      ScaledKeys(l[1..], adjustments);
      assert s[1..] == Scaled(l[1..], adjustments);
      KeysCons(l);
      KeysCons(s);
    }
  }

  lemma {:induction false} ScaledGet(l: Ledger, adjustments: map<string, real>, c: string)
    ensures Get(Scaled(l, adjustments), c) == ScaledAmount(adjustments, c, Get(l, c))
  {
    if l != [] {
      ScaledGet(l[1..], adjustments, c);
      assert Scaled(l, adjustments)[1..] == Scaled(l[1..], adjustments);
    }
  }

  function SumAmounts(es: seq<Expense>): real {
    if es == [] then 0.0 else SumAmounts(es[..|es| - 1]) + AmountOf(es[|es| - 1])
  }

  /** The amounts filed under category `c`. */
  function CategoryTotal(es: seq<Expense>, c: string): real {
    if es == [] then 0.0
    else CategoryTotal(es[..|es| - 1], c) + (if CategoryOf(es[|es| - 1]) == c then AmountOf(es[|es| - 1]) else 0.0)
  }

  function Categories(es: seq<Expense>): set<string> {
    set i | 0 <= i < |es| :: CategoryOf(es[i])
  }

  lemma CategoriesSnoc(es: seq<Expense>)
    requires es != []
    ensures Categories(es) == Categories(es[..|es| - 1]) + {CategoryOf(es[|es| - 1])}
  {
    var prefix := es[..|es| - 1];
    forall c | c in Categories(es) ensures c in Categories(prefix) + {CategoryOf(es[|es| - 1])} {
      var i :| 0 <= i < |es| && CategoryOf(es[i]) == c;
      if i < |es| - 1 {
        assert prefix[i] == es[i];
      }
    }
    forall c | c in Categories(prefix) ensures c in Categories(es) {
      var i :| 0 <= i < |prefix| && CategoryOf(prefix[i]) == c;
      assert es[i] == prefix[i];
    }
  }

  /** The ledger never holds a category twice. */
  lemma {:induction false} CurrentLedgerUnique(es: seq<Expense>)
    ensures UniqueKeys(CurrentLedger(es))
  {
    if es != [] {
      var prev := CurrentLedger(es[..|es| - 1]);
      var e := es[|es| - 1];
      CurrentLedgerUnique(es[..|es| - 1]);
      PutUnique(prev, CategoryOf(e), Filed(prev, e));
    }
  }

  /** Under each category the ledger holds the amounts filed under it. */
  lemma {:induction false} CurrentLedgerGet(es: seq<Expense>, c: string)
    ensures Get(CurrentLedger(es), c) == CategoryTotal(es, c)
  {
    if es != [] {
      var prev := CurrentLedger(es[..|es| - 1]);
      var e := es[|es| - 1];
      CurrentLedgerGet(es[..|es| - 1], c);
      if CategoryOf(e) == c {
        GetPut(prev, c, Filed(prev, e));
      } else {
        GetPutOther(prev, CategoryOf(e), Filed(prev, e), c);
      }
    }
  }

  /** The ledger has exactly the categories that occur. */
  lemma {:induction false} CurrentLedgerKeys(es: seq<Expense>)
    ensures Keys(CurrentLedger(es)) == Categories(es)
  {
    if es != [] {
      var prev := CurrentLedger(es[..|es| - 1]);
      var e := es[|es| - 1];
      CurrentLedgerKeys(es[..|es| - 1]);
      PutKeys(prev, CategoryOf(e), Filed(prev, e));
      CategoriesSnoc(es);
    }
  }

  /** The ledger's total is the sum of all amounts. */
  lemma {:induction false} CurrentLedgerTotal(es: seq<Expense>)
    ensures Total(CurrentLedger(es)) == SumAmounts(es)
  {
    if es != [] {
      var prev := CurrentLedger(es[..|es| - 1]);
      var e := es[|es| - 1];
      CurrentLedgerTotal(es[..|es| - 1]);
      PutTotal(prev, CategoryOf(e), Filed(prev, e));
    }
  }

  // ---------------------------------------------------------------------
  // The calculation
  // ---------------------------------------------------------------------

  datatype Replacement = Replacement(
    currentMonthlyExpenses: real,
    retirementMonthlyExpenses: real,
    annualRetirementExpenses: real,
    replacementRatio: real,
    expenseBreakdown: Ledger)

  /** Filing expense `i` extends the ledger of the expenses before it. */
  lemma CurrentLedgerSnoc(es: seq<Expense>, i: int)
    requires 0 <= i < |es|
    ensures CurrentLedger(es[..i + 1]) ==
      Put(CurrentLedger(es[..i]), CategoryOf(es[i]), Filed(CurrentLedger(es[..i]), es[i]))
  {
    var s := es[..i + 1];
    assert s[..|s| - 1] == es[..i];
    assert s[|s| - 1] == es[i];
    var prev := CurrentLedger(s[..|s| - 1]);
    assert CurrentLedger(s) == Put(prev, CategoryOf(s[|s| - 1]), Filed(prev, s[|s| - 1]));
  }

  /** Filing expense `i` into the ledger of the expenses before it gives the ledger of one more expense. */
  lemma LedgerStep(expenses: seq<Expense>, i: int, current: Ledger, next: Ledger)
    requires 0 <= i < |expenses| && current == CurrentLedger(expenses[..i])
    requires next == Put(current, CategoryOf(expenses[i]), Filed(current, expenses[i]))
    ensures next == CurrentLedger(expenses[..i + 1])
  {
    CurrentLedgerSnoc(expenses, i);
  }

  /** Storing `v` under `k` and rescaling is storing the rescaled amount read back from the new ledger. */
  lemma ScaledStore(l: Ledger, k: string, v: real, next: Ledger, adjustments: map<string, real>)
    requires next == Put(l, k, v)
    ensures Put(Scaled(l, adjustments), k, ScaledAmount(adjustments, k, Get(next, k))) == Scaled(next, adjustments)
  {
    GetPut(l, k, v);
    ScaledPut(l, k, v, adjustments);
  }

  /** Reading back a stored key gives the stored amount. */
  lemma {:induction false} GetPut(l: Ledger, k: string, v: real)
    ensures Get(Put(l, k, v), k) == v
  {
    if l != [] && l[0].0 != k {
      GetPut(l[1..], k, v);
      assert Put(l, k, v)[1..] == Put(l[1..], k, v);
    }
  }

  /**
   * The loop of the source, updating the two dictionaries expense by
   * expense: today's total per category, and that total scaled by the
   * category's factor.
   */
  method FileExpenses(expenses: seq<Expense>, factors: map<string, real>) returns (current: Ledger, retirement: Ledger)
    ensures current == CurrentLedger(expenses)
    ensures retirement == Scaled(current, factors)
  {
    current := [];
    retirement := [];
    var i := 0;
    while i < |expenses|
      invariant 0 <= i <= |expenses|
      invariant current == CurrentLedger(expenses[..i])
      invariant retirement == Scaled(current, factors)
    {
      var category := CategoryOf(expenses[i]);
      var amount := AmountOf(expenses[i]);
      ghost var before := current;
      var total := Get(current, category) + amount;
      current := Put(current, category, total);
      retirement := Put(retirement, category, ScaledAmount(factors, category, Get(current, category)));
      LedgerStep(expenses, i, before, current);
      ScaledStore(before, category, total, current, factors);
      i := i + 1;
    }
    assert expenses[..i] == expenses;
  }

  /** `total_retirement / total_current`, or 0 when nothing is spent today. */
  function ReplacementRatio(totalRetirement: real, totalCurrent: real): (ratio: real)
    ensures totalCurrent > 0.0 ==> ratio * totalCurrent == totalRetirement
    ensures totalCurrent <= 0.0 ==> ratio == 0.0
  {
    if totalCurrent > 0.0 then
      RatioTimesBase(totalRetirement, totalCurrent);
      totalRetirement / totalCurrent
    else 0.0
  }

  /**
   * The income replacement of an expense list. The breakdown holds each
   * category's total scaled by its factor, the current total is the sum of
   * all amounts, and the ratio is that of the two totals.
   */
  method CalculateIncomeReplacement(expenses: seq<Expense>, adjustments: Option<map<string, real>>)
    returns (r: Replacement)
    ensures r.expenseBreakdown == Scaled(CurrentLedger(expenses), EffectiveAdjustments(adjustments))
    ensures r.currentMonthlyExpenses == Total(CurrentLedger(expenses))
    ensures r.retirementMonthlyExpenses == Total(r.expenseBreakdown)
    ensures r.annualRetirementExpenses == r.retirementMonthlyExpenses * 12.0
    ensures r.replacementRatio == ReplacementRatio(r.retirementMonthlyExpenses, r.currentMonthlyExpenses)
  {
    var factors := EffectiveAdjustments(adjustments);
    var current, retirement := FileExpenses(expenses, factors);
    var totalCurrent := Total(current);
    var totalRetirement := Total(retirement);
    var ratio := ReplacementRatio(totalRetirement, totalCurrent);
    r := Replacement(totalCurrent, totalRetirement, totalRetirement * 12.0, ratio, retirement);
  }

  lemma RatioTimesBase(part: real, base: real)
    requires base > 0.0
    ensures (part / base) * base == part
  {
  }

  /**
   * The breakdown has one entry per category that occurs, holding that
   * category's spending scaled by its factor (1.0 for a category without
   * one), and the current total is the sum of all amounts.
   */
  lemma BreakdownPerCategory(expenses: seq<Expense>, adjustments: map<string, real>, c: string)
    ensures Keys(Scaled(CurrentLedger(expenses), adjustments)) == Categories(expenses)
    ensures Get(Scaled(CurrentLedger(expenses), adjustments), c) == ScaledAmount(adjustments, c, CategoryTotal(expenses, c))
    ensures Total(CurrentLedger(expenses)) == SumAmounts(expenses)
  {
    var l := CurrentLedger(expenses);
    CurrentLedgerKeys(expenses);
    CurrentLedgerTotal(expenses);
    ScaledKeys(l, adjustments);
    ScaledGet(l, adjustments, c);
    CurrentLedgerGet(expenses, c);
  }

  /**
   * With non-negative amounts and factors between `lo` and `hi`, the scaled
   * total lies between `lo` and `hi` times the total.
   */
  lemma {:induction false} ScaledTotalBounds(l: Ledger, adjustments: map<string, real>, lo: real, hi: real)
    requires forall i :: 0 <= i < |l| ==> l[i].1 >= 0.0
    requires forall c :: lo <= Factor(adjustments, c) <= hi
    ensures Within(Total(Scaled(l, adjustments)), lo, hi, Total(l))
  {
    if l == [] {
      assert Total(l) == 0.0 && Total(Scaled(l, adjustments)) == 0.0;
    } else {
      ScaledTotalBounds(l[1..], adjustments, lo, hi);
      ScaledTotalCons(l, adjustments);
      BoundStep(l[0].1, Factor(adjustments, l[0].0), ScaledAmount(adjustments, l[0].0, l[0].1), lo, hi,
                Total(l[1..]), Total(Scaled(l[1..], adjustments)), Total(l), Total(Scaled(l, adjustments)));
    }
  }

  /** `x` lies between `lo` and `hi` times `base`. */
  predicate Within(x: real, lo: real, hi: real, base: real) {
    lo * base <= x <= hi * base
  }

  lemma ScaledTotalCons(l: Ledger, adjustments: map<string, real>)
    requires l != []
    ensures Total(l) == l[0].1 + Total(l[1..])
    ensures Total(Scaled(l, adjustments)) == ScaledAmount(adjustments, l[0].0, l[0].1) + Total(Scaled(l[1..], adjustments))
  {
    ScaledCons(l, adjustments);
  }

  lemma BoundStep(x: real, f: real, sx: real, lo: real, hi: real, rest: real, scaledRest: real,
                  total: real, scaledTotal: real)
    requires x >= 0.0 && lo <= f <= hi && sx == x * f
    requires Within(scaledRest, lo, hi, rest)
    requires total == x + rest && scaledTotal == sx + scaledRest
    ensures Within(scaledTotal, lo, hi, total)
  {
    MulMonotone(x, lo, f);
    MulMonotone(x, f, hi);
  }

  /**
   * With the default factors and no negative amount, retirement spending is
   * between 60% and 150% of today's spending.
   */
  lemma DefaultReplacementBetween(expenses: seq<Expense>)
    requires forall i :: 0 <= i < |expenses| ==> AmountOf(expenses[i]) >= 0.0
    ensures var l := CurrentLedger(expenses);
      0.6 * Total(l) <= Total(Scaled(l, DefaultAdjustments)) <= 1.5 * Total(l)
  {
    CurrentLedgerNonNegative(expenses);
    DefaultFactorsBetween();
    ScaledTotalBounds(CurrentLedger(expenses), DefaultAdjustments, 0.6, 1.5);
  }

  lemma {:induction false} CurrentLedgerNonNegative(es: seq<Expense>)
    requires forall i :: 0 <= i < |es| ==> AmountOf(es[i]) >= 0.0
    ensures forall c :: Get(CurrentLedger(es), c) >= 0.0
    ensures forall i :: 0 <= i < |CurrentLedger(es)| ==> CurrentLedger(es)[i].1 >= 0.0
  {
    if es != [] {
      var prefix := es[..|es| - 1];
      assert forall i :: 0 <= i < |prefix| ==> AmountOf(prefix[i]) >= 0.0 by {
        forall i | 0 <= i < |prefix| ensures AmountOf(prefix[i]) >= 0.0 {
          assert prefix[i] == es[i];
        }
      }
      CurrentLedgerNonNegative(prefix);
      PutNonNegative(CurrentLedger(prefix), CategoryOf(es[|es| - 1]), Filed(CurrentLedger(prefix), es[|es| - 1]));
      forall c ensures Get(CurrentLedger(es), c) >= 0.0 {
        GetIsEntry(CurrentLedger(es), c);
      }
    }
  }

  lemma {:induction false} PutNonNegative(l: Ledger, k: string, v: real)
    requires forall i :: 0 <= i < |l| ==> l[i].1 >= 0.0
    requires v >= 0.0
    ensures forall i :: 0 <= i < |Put(l, k, v)| ==> Put(l, k, v)[i].1 >= 0.0
  {
    if l != [] && l[0].0 != k {
      PutNonNegative(l[1..], k, v);
      assert Put(l, k, v)[1..] == Put(l[1..], k, v);
    }
  }

  /** A stored amount is one of the entries, or 0. */
  lemma {:induction false} GetIsEntry(l: Ledger, c: string)
    ensures Get(l, c) == 0.0 || exists i :: 0 <= i < |l| && l[i].1 == Get(l, c)
  {
    if l != [] && l[0].0 != c {
      GetIsEntry(l[1..], c);
      if Get(l, c) != 0.0 {
        var i :| 0 <= i < |l[1..]| && l[1..][i].1 == Get(l, c);
        assert l[i + 1].1 == Get(l, c);
      }
    }
  }

  lemma DefaultFactorsBetween()
    ensures forall c :: 0.6 <= Factor(DefaultAdjustments, c) <= 1.5
  {
  }
}
