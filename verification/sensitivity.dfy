/**
 * One-at-a-time sensitivity sweep (`perform_sensitivity_analysis`): each of
 * four inputs is moved by five fixed amounts, everything else kept, and the
 * total projected savings of each variant is compared with the baseline.
 */
module Sensitivity {
  import opened Outcomes
  import opened Numeric
  import opened Engine

  /** The swept inputs, in the order the sweep visits them. */
  datatype Variable = PreRetirementReturnRate | InflationRate | RetirementAge | MonthlyContribution

  const Variables: seq<Variable> := [PreRetirementReturnRate, InflationRate, RetirementAge, MonthlyContribution]

  /** Position of a variable in the sweep order. */
  function IndexOf(v: Variable): (i: nat)
    ensures i < |Variables| && Variables[i] == v
  {
    match v
    case PreRetirementReturnRate => 0
    case InflationRate => 1
    case RetirementAge => 2
    case MonthlyContribution => 3
  }

  /** The five changes tried for each variable; the retirement-age ones are whole years. */
  function Changes(v: Variable): (cs: seq<real>)
    ensures |cs| == 5 && cs[2] == 0.0
    ensures forall i, j :: 0 <= i < j < |cs| ==> cs[i] < cs[j]
  {
    match v
    case PreRetirementReturnRate => [-0.02, -0.01, 0.0, 0.01, 0.02]
    case InflationRate => [-0.01, -0.005, 0.0, 0.005, 0.01]
    case RetirementAge => [-5.0, -2.0, 0.0, 2.0, 5.0]
    case MonthlyContribution => [-200.0, -100.0, 0.0, 100.0, 200.0]
  }

  /**
   * The inputs with one variable moved: the retirement age is floored at 50
   * and the monthly contribution at 0; the two rates are moved as they are.
   */
  function Modified(inp: RetirementInputs, v: Variable, change: real): RetirementInputs {
    match v
    case PreRetirementReturnRate => inp.(preRetirementReturnRate := inp.preRetirementReturnRate + change)
    case InflationRate => inp.(inflationRate := inp.inflationRate + change)
    case RetirementAge =>
      var age := inp.retirementAge + change.Floor;
      inp.(retirementAge := if 50 >= age then 50 else age)
    case MonthlyContribution => inp.(monthlyContribution := Max(0.0, inp.monthlyContribution + change))
  }

  /** One row of a variable's sweep. */
  datatype Entry = Entry(change: real, totalProjected: real, gapChange: real, percentageChange: real)

  datatype VariableSweep = VariableSweep(variable: Variable, entries: seq<Entry>)

  /**
   * The row for a variant whose projected savings are `projected`, against
   * a baseline of `base`: the change in savings, and that change as a
   * percentage of the baseline, reported as 0 when the baseline is not positive.
   */
  function EntryOf(change: real, projected: real, base: real): (e: Entry)
    ensures e.change == change && e.totalProjected == projected
    ensures e.gapChange + base == projected
    ensures base > 0.0 ==> e.percentageChange * base == e.gapChange * 100.0
    ensures base <= 0.0 ==> e.percentageChange == 0.0
  {
    var pct := if base > 0.0 then (projected / base - 1.0) * 100.0 else 0.0;
    if base > 0.0 then
      PercentOfBase(projected, base);
      Entry(change, projected, projected - base, pct)
    else Entry(change, projected, projected - base, pct)
  }

  lemma PercentOfBase(projected: real, base: real)
    requires base > 0.0
    ensures ((projected / base - 1.0) * 100.0) * base == (projected - base) * 100.0
  {
    var q := projected / base;
    assert q * base == projected;
    assert (q - 1.0) * base == projected - base;
  }

  /** Whether the variant for this change has a projection. */
  predicate ChangeDefined(inp: RetirementInputs, v: Variable, change: real) {
    CalculateSavingsProjections(Modified(inp, v, change)).Ok?
  }

  /** The baseline and all twenty variants have projections. */
  predicate SweepDefined(inp: RetirementInputs) {
    && CalculateSavingsProjections(inp).Ok?
    && forall v: Variable, j :: 0 <= j < 5 ==> ChangeDefined(inp, v, Changes(v)[j])
  }

  /** The row the sweep reports for moving `v` by `change`. */
  function SweepEntry(inp: RetirementInputs, v: Variable, change: real): Entry
    requires CalculateSavingsProjections(inp).Ok? && ChangeDefined(inp, v, change)
  {
    EntryOf(change, CalculateSavingsProjections(Modified(inp, v, change)).value.totalProjectedSavings,
            CalculateSavingsProjections(inp).value.totalProjectedSavings)
  }

  /** The sweep of `v`: its five changes, each with a variant and the row computed from it. */
  predicate SweptRows(inp: RetirementInputs, v: Variable, sweep: VariableSweep)
    requires CalculateSavingsProjections(inp).Ok?
  {
    && sweep.variable == v
    && |sweep.entries| == 5
    && forall j :: 0 <= j < 5 ==>
         ChangeDefined(inp, v, Changes(v)[j]) && sweep.entries[j] == SweepEntry(inp, v, Changes(v)[j])
  }

  /**
   * The inner loop of the source: the five rows of one variable, each from
   * its own variant. Raises (ZeroDivisionError) exactly when some variant
   * cannot be projected.
   */
  method SweepVariable(inp: RetirementInputs, v: Variable, base: real) returns (r: Result<seq<Entry>>)
    requires CalculateSavingsProjections(inp).Ok? && base == CalculateSavingsProjections(inp).value.totalProjectedSavings
    ensures r.Ok? <==> forall j :: 0 <= j < 5 ==> ChangeDefined(inp, v, Changes(v)[j])
    ensures r.Err? ==> r.error == ZeroDivisionError
    ensures r.Ok? ==> |r.value| == 5 && forall j :: 0 <= j < 5 ==> r.value[j] == SweepEntry(inp, v, Changes(v)[j])
  {
    var changes := Changes(v);
    var entries: seq<Entry> := [];
    var j := 0;
    while j < |changes|
      invariant 0 <= j <= |changes|
      invariant |entries| == j
      invariant forall k :: 0 <= k < j ==>
        ChangeDefined(inp, v, changes[k]) && entries[k] == SweepEntry(inp, v, changes[k])
    {
      var variant := CalculateSavingsProjections(Modified(inp, v, changes[j]));
      if variant.Err? {
        assert !ChangeDefined(inp, v, Changes(v)[j]);
        return Err(variant.error);
      }
      entries := entries + [EntryOf(changes[j], variant.value.totalProjectedSavings, base)];
      j := j + 1;
    }
    return Ok(entries);
  }

  /**
   * The sweep of the source: four variables in order, five rows each, every
   * row computed from its variant. Raises (ZeroDivisionError) exactly when
   * the baseline or some variant cannot be projected.
   */
  method PerformSensitivityAnalysis(inp: RetirementInputs) returns (r: Result<seq<VariableSweep>>)
    ensures r.Ok? <==> SweepDefined(inp)
    ensures r.Err? ==> r.error == ZeroDivisionError
    ensures r.Ok? ==>
      && |r.value| == |Variables|
      && forall i :: 0 <= i < |r.value| ==> SweptRows(inp, Variables[i], r.value[i])
  {
    var baseline := CalculateSavingsProjections(inp);
    if baseline.Err? {
      return Err(baseline.error);
    }
    var base := baseline.value.totalProjectedSavings;
    var results: seq<VariableSweep> := [];
    var i := 0;
    while i < |Variables|
      invariant 0 <= i <= |Variables|
      invariant |results| == i
      invariant forall k :: 0 <= k < i ==> SweptRows(inp, Variables[k], results[k])
    {
      var v := Variables[i];
      var entries := SweepVariable(inp, v, base);
      if entries.Err? {
        return Err(entries.error);
      }
      assert SweptRows(inp, v, VariableSweep(v, entries.value));
      results := results + [VariableSweep(v, entries.value)];
      i := i + 1;
    }
    forall v: Variable, j | 0 <= j < 5
      ensures ChangeDefined(inp, v, Changes(v)[j])
    {
      assert SweptRows(inp, Variables[IndexOf(v)], results[IndexOf(v)]);
    }
    return Ok(results);
  }

  /**
   * The variant changes only the swept variable; the retirement age never
   * drops below 50 and the monthly contribution never below 0.
   */
  lemma ModifiedChangesOnlyItsVariable(inp: RetirementInputs, v: Variable, change: real)
    ensures var m := Modified(inp, v, change);
      && (v != PreRetirementReturnRate ==> m.preRetirementReturnRate == inp.preRetirementReturnRate)
      && (v != InflationRate ==> m.inflationRate == inp.inflationRate)
      && (v != RetirementAge ==> m.retirementAge == inp.retirementAge)
      && (v != MonthlyContribution ==> m.monthlyContribution == inp.monthlyContribution)
      && m.(preRetirementReturnRate := inp.preRetirementReturnRate, inflationRate := inp.inflationRate,
            retirementAge := inp.retirementAge, monthlyContribution := inp.monthlyContribution) == inp
      && (v == RetirementAge ==> m.retirementAge >= 50 && m.retirementAge >= inp.retirementAge + change.Floor)
      && (v == MonthlyContribution ==> m.monthlyContribution >= 0.0)
  {
  }

  /**
   * The zero-change row reproduces the baseline (no gap change, no
   * percentage change) unless the floor itself moves the input: a retirement
   * age below 50 or a negative monthly contribution.
   */
  lemma ZeroChangeReproducesBaseline(inp: RetirementInputs, v: Variable)
    requires CalculateSavingsProjections(inp).Ok?
    requires v == RetirementAge ==> inp.retirementAge >= 50
    requires v == MonthlyContribution ==> inp.monthlyContribution >= 0.0
    ensures ChangeDefined(inp, v, 0.0)
    ensures SweepEntry(inp, v, 0.0).gapChange == 0.0
    ensures SweepEntry(inp, v, 0.0).percentageChange == 0.0
  {
    assert (0.0).Floor == 0;
    assert Modified(inp, v, 0.0) == inp;
  }

  /**
   * With a positive salary, a non-negative match rate and return, and
   * retirement not yet past, a larger contribution change never projects
   * less: the contribution rows are non-decreasing.
   */
  lemma ContributionRowsNonDecreasing(inp: RetirementInputs, c1: real, c2: real)
    requires inp.currentAnnualIncome > 0.0 && inp.employerMatchRate >= 0.0
    requires inp.preRetirementReturnRate >= 0.0 && YearsToRetirement(inp) >= 0
    requires c1 <= c2
    ensures CalculateSavingsProjections(inp).Ok?
    ensures ChangeDefined(inp, MonthlyContribution, c1) && ChangeDefined(inp, MonthlyContribution, c2)
    ensures SweepEntry(inp, MonthlyContribution, c1).totalProjected
         <= SweepEntry(inp, MonthlyContribution, c2).totalProjected
  {
    ProjectionsDefined(inp);
    var low := Modified(inp, MonthlyContribution, c1);
    var more := Max(0.0, inp.monthlyContribution + c2);
    assert low.(monthlyContribution := more) == Modified(inp, MonthlyContribution, c2);
    ProjectedSavingsMonotoneInContribution(low, more);
  }
}
