/**
 * Catch-up strategies for a retirement shortfall (`calculate_catch_up_strategies`).
 * The source discounts by `1.07 ** (n / 2)`, a power with a fractional
 * exponent; here that factor is the caller's `discount(n)`, any positive
 * function of the number of years.
 */
module CatchUp {
  import opened Outcomes

  datatype Feasibility = High | Medium | Low

  datatype Strategy =
    | IncreaseMonthlySavings(additionalMonthly: real, totalAdditional: real, feasibility: Feasibility)
    | WorkLonger(extraYears: int, additionalMonthly: real, feasibility: Feasibility)
    | ReduceExpenses(reduction: real, additionalMonthly: real, feasibility: Feasibility)

  const ExtraYears: seq<int> := [1, 2, 3]
  const Reductions: seq<real> := [0.1, 0.15, 0.2]

  /** The "rough discount" monthly amount that closes `amount` over `years`. */
  function MonthlyNeed(amount: real, years: int, discount: int -> real): real
    requires years != 0 && discount(years) > 0.0
  {
    amount / ((years * 12) as real) / discount(years)
  }

  function IncreaseStrategy(shortfall: real, years: int, currentMonthly: real, discount: int -> real): Strategy
    requires years > 0 && discount(years) > 0.0
  {
    var additional := MonthlyNeed(shortfall, years, discount);
    IncreaseMonthlySavings(additional, additional * 12.0 * (years as real),
                           if additional < currentMonthly * 0.5 then High else Medium)
  }

  function WorkLongerStrategy(shortfall: real, years: int, extra: int, additional: real, discount: int -> real): Strategy
    requires years + extra > 0 && discount(years + extra) > 0.0
  {
    var monthly := MonthlyNeed(shortfall, years + extra, discount);
    WorkLonger(extra, monthly, if monthly < additional * 0.7 then High else Medium)
  }

  function ReduceStrategy(shortfall: real, years: int, reduction: real, discount: int -> real): Strategy
    requires years != 0 && discount(years) > 0.0
  {
    ReduceExpenses(reduction, MonthlyNeed(shortfall * (1.0 - reduction), years, discount),
                   if reduction <= 0.15 then Medium else Low)
  }

  function WorkLongerAll(shortfall: real, years: int, additional: real, discount: int -> real): seq<Strategy>
    requires years > 0 && forall n :: discount(n) > 0.0
  {
    seq(3, j requires 0 <= j < 3 => WorkLongerStrategy(shortfall, years, ExtraYears[j], additional, discount))
  }

  function ReduceAll(shortfall: real, years: int, discount: int -> real): seq<Strategy>
    requires years != 0 && forall n :: discount(n) > 0.0
  {
    seq(3, j requires 0 <= j < 3 => ReduceStrategy(shortfall, years, Reductions[j], discount))
  }

  /**
   * The strategies: none without a shortfall; with years left, raising
   * savings, three ways of working longer and three expense reductions;
   * with no years left but one of the extra years reaching past today, the
   * source reads `additional_monthly` before it was ever assigned; with at
   * least three years overdue, only the reductions.
   */
  function CatchUpPlan(shortfall: real, years: int, currentMonthly: real, discount: int -> real)
    : Result<seq<Strategy>>
    requires forall n :: discount(n) > 0.0
  {
    if shortfall <= 0.0 then Ok([])
    else if years > 0 then
      var increase := IncreaseStrategy(shortfall, years, currentMonthly, discount);
      Ok([increase] + WorkLongerAll(shortfall, years, increase.additionalMonthly, discount)
                    + ReduceAll(shortfall, years, discount))
    else if years + 3 > 0 then Err(UnboundLocalError("additional_monthly"))
    else Ok(ReduceAll(shortfall, years, discount))
  }

  /** The source's loops, appending one strategy at a time. */
  method CalculateCatchUpStrategies(shortfall: real, years: int, currentMonthly: real, discount: int -> real)
    returns (r: Result<seq<Strategy>>)
    requires forall n :: discount(n) > 0.0
    ensures r.Ok? == CatchUpPlan(shortfall, years, currentMonthly, discount).Ok?
    ensures r.Ok? ==> r.value == CatchUpPlan(shortfall, years, currentMonthly, discount).value
    ensures r.Err? ==> r.error == CatchUpPlan(shortfall, years, currentMonthly, discount).error
  {
    var strategies: seq<Strategy> := [];
    if shortfall <= 0.0 {
      return Ok(strategies);
    }
    var additional: Option<real> := None;
    if years > 0 {
      var increase := IncreaseStrategy(shortfall, years, currentMonthly, discount);
      additional := Some(increase.additionalMonthly);
      strategies := strategies + [increase];
    }
    var longer := AppendWorkLonger(shortfall, years, additional, discount);
    if longer.Err? {
      return Err(longer.error);
    }
    strategies := strategies + longer.value;
    strategies := AppendReductions(strategies, shortfall, years, discount);
    if years <= 0 {
      assert strategies == [] + ReduceAll(shortfall, years, discount);
      assert CatchUpPlan(shortfall, years, currentMonthly, discount) == Ok(ReduceAll(shortfall, years, discount));
    } else {
      var increase := IncreaseStrategy(shortfall, years, currentMonthly, discount);
      assert strategies == [increase] + WorkLongerAll(shortfall, years, increase.additionalMonthly, discount)
                                      + ReduceAll(shortfall, years, discount);
      assert CatchUpPlan(shortfall, years, currentMonthly, discount)
          == Ok([increase] + WorkLongerAll(shortfall, years, increase.additionalMonthly, discount)
                           + ReduceAll(shortfall, years, discount));
    }
    return Ok(strategies);
  }

  /**
   * The work-longer loop. Each extra year that reaches past today needs the
   * monthly amount of the first strategy, which exists only when years remain.
   */
  method AppendWorkLonger(shortfall: real, years: int, additional: Option<real>, discount: int -> real)
    returns (r: Result<seq<Strategy>>)
    requires forall n :: discount(n) > 0.0
    requires additional.Some? <==> years > 0
    ensures additional.Some? ==> r == Ok(WorkLongerAll(shortfall, years, additional.value, discount))
    ensures additional.None? && years + 3 > 0 ==> r == Err(UnboundLocalError("additional_monthly"))
    ensures additional.None? && years + 3 <= 0 ==> r == Ok([])
  {
    var strategies: seq<Strategy> := [];
    for j := 0 to 3
      invariant additional.Some? ==> strategies == WorkLongerAll(shortfall, years, additional.value, discount)[..j]
      invariant additional.None? ==> strategies == [] && years + j <= 0
    {
      var extra := ExtraYears[j];
      if years + extra > 0 {
        if additional.None? {
          return Err(UnboundLocalError("additional_monthly"));
        }
        ghost var all := WorkLongerAll(shortfall, years, additional.value, discount);
        assert all[..j + 1] == all[..j] + [all[j]];
        strategies := strategies + [WorkLongerStrategy(shortfall, years, extra, additional.value, discount)];
      }
    }
    if additional.Some? {
      assert WorkLongerAll(shortfall, years, additional.value, discount)[..3]
          == WorkLongerAll(shortfall, years, additional.value, discount);
    }
    return Ok(strategies);
  }

  /** The expense-reduction loop: one strategy per reduction, in order. */
  method AppendReductions(strategies: seq<Strategy>, shortfall: real, years: int, discount: int -> real)
    returns (result: seq<Strategy>)
    requires years != 0 && forall n :: discount(n) > 0.0
    ensures result == strategies + ReduceAll(shortfall, years, discount)
  {
    result := strategies;
    for j := 0 to 3
      invariant result == strategies + ReduceAll(shortfall, years, discount)[..j]
    {
      var reduction := Reductions[j];
      var reducedShortfall := shortfall * (1.0 - reduction);
      var reducedMonthly := reducedShortfall / ((years * 12) as real) / discount(years);
      ghost var all := ReduceAll(shortfall, years, discount);
      assert all[j] == ReduceStrategy(shortfall, years, reduction, discount);
      assert reducedMonthly == MonthlyNeed(reducedShortfall, years, discount);
      assert all[..j + 1] == all[..j] + [all[j]];
      result := result + [ReduceExpenses(reduction, reducedMonthly, if reduction <= 0.15 then Medium else Low)];
    }
    assert ReduceAll(shortfall, years, discount)[..3] == ReduceAll(shortfall, years, discount);
  }

  /**
   * The shape of the result: seven strategies in source order with years
   * left, three reductions when three or more years overdue, and nothing
   * without a shortfall.
   */
  lemma CatchUpShape(shortfall: real, years: int, currentMonthly: real, discount: int -> real)
    requires forall n :: discount(n) > 0.0
    ensures var r := CatchUpPlan(shortfall, years, currentMonthly, discount);
      && (r.Err? <==> shortfall > 0.0 && -3 < years <= 0)
      && (r.Ok? && shortfall <= 0.0 ==> r.value == [])
      && (r.Ok? && shortfall > 0.0 && years > 0 ==>
            && |r.value| == 7
            && r.value[0].IncreaseMonthlySavings?
            && (forall i :: 1 <= i <= 3 ==> r.value[i].WorkLonger? && r.value[i].extraYears == i)
            && (forall i :: 4 <= i < 7 ==> r.value[i].ReduceExpenses? && r.value[i].reduction == Reductions[i - 4]))
      && (r.Ok? && shortfall > 0.0 && years <= -3 ==>
            |r.value| == 3 && forall i :: 0 <= i < 3 ==> r.value[i].ReduceExpenses?)
  {
  }

  /**
   * Raising savings: the total added over the remaining months, grown by the
   * discount, is the shortfall; it is rated highly feasible exactly when the
   * increase is under half of today's monthly saving.
   */
  lemma IncreaseClosesShortfall(shortfall: real, years: int, currentMonthly: real, discount: int -> real)
    requires years > 0 && discount(years) > 0.0
    ensures var s := IncreaseStrategy(shortfall, years, currentMonthly, discount);
      && s.totalAdditional * discount(years) == shortfall
      && s.totalAdditional == s.additionalMonthly * 12.0 * (years as real)
      && (s.feasibility == High <==> s.additionalMonthly < currentMonthly * 0.5)
  {
    var d := discount(years);
    var months := (years * 12) as real;
    var additional := shortfall / months / d;
    assert additional * d == shortfall / months;
    assert additional * 12.0 * (years as real) == additional * months;
    assert (shortfall / months) * months == shortfall;
  }

  /**
   * With a discount that does not fall as the horizon grows, every extra
   * year of work lowers the monthly amount needed for a positive shortfall,
   * below the amount needed without working longer.
   */
  lemma WorkingLongerNeedsLess(shortfall: real, years: int, e1: int, e2: int, discount: int -> real)
    requires shortfall > 0.0 && years > 0 && 0 <= e1 < e2
    requires forall n :: discount(n) > 0.0
    requires forall m, n :: 0 < m <= n ==> discount(m) <= discount(n)
    ensures MonthlyNeed(shortfall, years + e2, discount) < MonthlyNeed(shortfall, years + e1, discount)
  {
    var n1 := years + e1;
    var n2 := years + e2;
    var d1 := discount(n1);
    var d2 := discount(n2);
    assert d1 <= d2;
    var m1 := (n1 * 12) as real;
    var m2 := (n2 * 12) as real;
    assert m1 < m2;
    DenominatorGrows(m1, d1, m2, d2);
    QuotientShrinks(shortfall, m1 * d1, m2 * d2);
    assert MonthlyNeed(shortfall, n1, discount) == shortfall / (m1 * d1);
    assert MonthlyNeed(shortfall, n2, discount) == shortfall / (m2 * d2);
  }

  lemma DenominatorGrows(m1: real, d1: real, m2: real, d2: real)
    requires 0.0 < m1 < m2 && 0.0 < d1 <= d2
    ensures 0.0 < m1 * d1 < m2 * d2
  {
    assert m1 * d1 <= m1 * d2;
    assert m1 * d2 < m2 * d2;
  }

  lemma QuotientShrinks(a: real, x: real, y: real)
    requires a > 0.0 && 0.0 < x < y
    ensures a / y < a / x
  {
    var p := a / y;
    var q := a / x;
    assert p * y == a && q * x == a;
    assert p > 0.0;
    assert p * x < p * y;
    assert p * x < q * x;
  }

  /**
   * An expense reduction scales the monthly amount by the part of the
   * shortfall that remains; 10% and 15% cuts are rated medium, 20% low.
   */
  lemma ReductionScalesAmount(shortfall: real, years: int, reduction: real, discount: int -> real)
    requires years != 0 && discount(years) > 0.0
    ensures var s := ReduceStrategy(shortfall, years, reduction, discount);
      && s.additionalMonthly == (1.0 - reduction) * MonthlyNeed(shortfall, years, discount)
      && (s.feasibility == Medium <==> reduction <= 0.15)
  {
    RemainderScales(shortfall, reduction, years, discount);
  }

  /** The monthly need for what remains after a cut is that share of the full need. */
  lemma RemainderScales(amount: real, reduction: real, years: int, discount: int -> real)
    requires years != 0 && discount(years) > 0.0
    ensures MonthlyNeed(amount * (1.0 - reduction), years, discount) == (1.0 - reduction) * MonthlyNeed(amount, years, discount)
  {
    QuotientScales(amount, reduction, years, discount(years));
  }

  lemma QuotientScales(a: real, r: real, years: int, d: real)
    requires years != 0 && d != 0.0
    ensures a * (1.0 - r) / ((years * 12) as real) / d == (1.0 - r) * (a / ((years * 12) as real) / d)
  {
    var m := (years * 12) as real;
    var c := 1.0 - r;
    var q := a / m / d;
    assert q * d == a / m;
    assert q * d * m == a;
    var p := a * c / m / d;
    assert p * d == a * c / m;
    assert p * d * m == a * c;
    assert (p - c * q) * (d * m) == 0.0;
  }
}
