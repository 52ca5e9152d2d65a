/**
 * Growth calculators of the retirement helpers: the effect of inflation on
 * an amount, compound growth with yearly contributions, and the savings
 * rate needed to reach an income goal under the 4% withdrawal rule.
 */
module GrowthCalculators {
  import opened Outcomes
  import opened Numeric
  import opened Engine

  // ---------------------------------------------------------------------
  // Inflation impact (`calculate_inflation_impact`)
  // ---------------------------------------------------------------------

  datatype InflationImpact = InflationImpact(
    originalAmount: real,
    futureNominalValue: real,
    futurePurchasingPower: real,
    inflationErosion: real,
    erosionPercentage: real)

  /**
   * What `amount` becomes after `years` of inflation, and what it is then
   * worth in today's money. Raises when the inflation factor `1 + rate` is
   * zero and the exponent is not: a negative power of zero, or a division
   * by a zero power.
   */
  function CalculateInflationImpact(amount: real, years: int, inflationRate: real): (r: Result<InflationImpact>)
    ensures r.Err? <==> 1.0 + inflationRate == 0.0 && years != 0
    ensures r.Err? ==> r.error == ZeroDivisionError
    ensures r.Ok? ==>
      && r.value.originalAmount == amount
      && r.value.inflationErosion == amount - r.value.futurePurchasingPower
      && (amount > 0.0 ==> r.value.erosionPercentage * amount == r.value.inflationErosion * 100.0)
      && (amount <= 0.0 ==> r.value.erosionPercentage == 0.0)
  {
    var factor := IntPow(1.0 + inflationRate, years);
    if factor.Err? then Err(factor.error)
    else
      IntPowZero(1.0 + inflationRate, years);
      if factor.value == 0.0 then Err(ZeroDivisionError)
      else
        var purchasing := amount / factor.value;
        var erosion := amount - purchasing;
        var pct := if amount > 0.0 then (erosion / amount) * 100.0 else 0.0;
        Ok(InflationImpact(amount, amount * factor.value, purchasing, erosion, pct))
  }

  /**
   * Inflating and deflating are inverse: the nominal value is the amount
   * times the inflation factor, and the purchasing power times that factor
   * is the amount again.
   */
  lemma InflationRoundTrip(amount: real, years: nat, inflationRate: real)
    requires CalculateInflationImpact(amount, years, inflationRate).Ok?
    ensures var r := CalculateInflationImpact(amount, years, inflationRate).value;
      && r.futureNominalValue == amount * Pow(1.0 + inflationRate, years)
      && r.futurePurchasingPower * Pow(1.0 + inflationRate, years) == amount
  {
    IntPowZero(1.0 + inflationRate, years);
  }

  /**
   * With non-negative inflation and a non-negative amount, the amount grows
   * in nominal terms and shrinks in purchasing power, so the erosion is
   * never negative and below 100% of the amount.
   */
  lemma InflationErodesPurchasingPower(amount: real, years: nat, inflationRate: real)
    requires amount >= 0.0 && inflationRate >= 0.0
    ensures CalculateInflationImpact(amount, years, inflationRate).Ok?
    ensures var r := CalculateInflationImpact(amount, years, inflationRate).value;
      && 0.0 <= r.futurePurchasingPower <= amount <= r.futureNominalValue
      && r.inflationErosion >= 0.0
      && 0.0 <= r.erosionPercentage < 100.0
  {
    var b := 1.0 + inflationRate;
    var g := Pow(b, years);
    PowFacts(b, years);
    InflationRoundTrip(amount, years, inflationRate);
    var r := CalculateInflationImpact(amount, years, inflationRate).value;
    MulMonotone(amount, 1.0, g);
    var p := r.futurePurchasingPower;
    assert p == amount / g;
    assert p * g == amount;
    MulMonotone(p, 1.0, g);
    if amount > 0.0 {
      assert p > 0.0;
      ErosionShare(amount, r.inflationErosion, r.erosionPercentage, p);
    }
  }

  lemma ErosionShare(amount: real, erosion: real, pct: real, p: real)
    requires amount > 0.0 && 0.0 < p <= amount && erosion == amount - p
    requires pct * amount == erosion * 100.0
    ensures 0.0 <= pct < 100.0
  {
    if pct < 0.0 {
      MulMonotone(amount, pct, 0.0);
    }
    if pct >= 100.0 {
      MulMonotone(amount, 100.0, pct);
    }
  }

  // ---------------------------------------------------------------------
  // Compound growth (`calculate_compound_growth`)
  // ---------------------------------------------------------------------

  datatype CompoundGrowth = CompoundGrowth(
    principal: real,
    totalContributions: real,
    investmentGrowth: real,
    finalValue: real,
    totalReturnPercentage: real)

  /** `((final / invested) - 1) * 100` when something was invested, else 0. */
  function ReturnPercentage(finalValue: real, invested: real): (pct: real)
    ensures invested > 0.0 ==> pct * invested == (finalValue - invested) * 100.0
    ensures invested <= 0.0 ==> pct == 0.0
  {
    if invested > 0.0 then
      var q := finalValue / invested;
      assert q * invested == finalValue;
      assert (q - 1.0) * invested == finalValue - invested;
      ((finalValue / invested) - 1.0) * 100.0
    else 0.0
  }

  /** The final value of the non-zero-rate branch, or the error of its power. */
  function GrownValue(principal: real, rate: real, time: int, contributions: real): (r: Result<real>)
    requires rate != 0.0
    ensures r.Err? <==> 1.0 + rate == 0.0 && time < 0
  {
    var growth := IntPow(1.0 + rate, time);
    if growth.Err? then Err(growth.error)
    else
      var fvContributions := if contributions > 0.0 then contributions * ((growth.value - 1.0) / rate) else 0.0;
      Ok(principal * growth.value + fvContributions)
  }

  /**
   * The calculator as written: at a zero rate it reports the contributions
   * themselves as the investment growth, while at any other rate the growth
   * is what the final value adds beyond principal and contributions.
   */
  function CompoundGrowthAsWritten(principal: real, rate: real, time: int, contributions: real): (r: Result<CompoundGrowth>)
    ensures r.Err? <==> rate == -1.0 && time < 0
    ensures r.Ok? ==> r.value.totalContributions == contributions * (time as real)
    ensures r.Ok? && rate != 0.0 ==>
      r.value.investmentGrowth == r.value.finalValue - principal - r.value.totalContributions
  {
    var total := contributions * (time as real);
    if rate == 0.0 then
      var finalValue := principal + total;
      Ok(CompoundGrowth(principal, total, total, finalValue, ReturnPercentage(finalValue, principal + total)))
    else
      match GrownValue(principal, rate, time, contributions)
      case Err(e) => Err(e)
      case Ok(finalValue) =>
        Ok(CompoundGrowth(principal, total, finalValue - principal - total, finalValue,
                          ReturnPercentage(finalValue, principal + total)))
  }

  /**
   * Compound growth with the investment growth defined alike in both
   * branches: the final value less principal and contributions, hence 0 at
   * a zero rate. Raises only for a rate of -100% over a negative time.
   */
  function CalculateCompoundGrowth(principal: real, rate: real, time: int, contributions: real): (r: Result<CompoundGrowth>)
    ensures r.Err? <==> rate == -1.0 && time < 0
    ensures r.Err? ==> r.error == ZeroDivisionError
    ensures r.Ok? ==>
      && r.value.principal == principal
      && r.value.totalContributions == contributions * (time as real)
      && r.value.investmentGrowth == r.value.finalValue - principal - r.value.totalContributions
      && r.value.totalReturnPercentage == ReturnPercentage(r.value.finalValue, principal + r.value.totalContributions)
    ensures rate == 0.0 ==> r.Ok? && r.value.finalValue == principal + contributions * (time as real)
  {
    var total := contributions * (time as real);
    if rate == 0.0 then
      var finalValue := principal + total;
      Ok(CompoundGrowth(principal, total, finalValue - principal - total, finalValue,
                        ReturnPercentage(finalValue, principal + total)))
    else
      match GrownValue(principal, rate, time, contributions)
      case Err(e) => Err(e)
      case Ok(finalValue) =>
        Ok(CompoundGrowth(principal, total, finalValue - principal - total, finalValue,
                          ReturnPercentage(finalValue, principal + total)))
  }

  /**
   * The as-written calculator misreports a zero rate: 1000 invested at 0%
   * for 10 years with 100 added yearly ends at 2000, and all of the 1000
   * added is contributions, yet 1000 is reported as investment growth.
   */
  lemma CompoundGrowthZeroRateMisreported()
    ensures var r := CompoundGrowthAsWritten(1000.0, 0.0, 10, 100.0).value;
      && r.finalValue == 2000.0
      && r.investmentGrowth == 1000.0
      && r.finalValue - r.principal - r.totalContributions == 0.0
  {
  }

  /**
   * The two calculators differ only in the growth reported at a zero rate,
   * which the as-written one gets wrong whenever contributions are made.
   */
  lemma CompoundGrowthDifference(principal: real, rate: real, time: int, contributions: real)
    ensures var w := CompoundGrowthAsWritten(principal, rate, time, contributions);
      var c := CalculateCompoundGrowth(principal, rate, time, contributions);
      && w.Ok? == c.Ok?
      && (w.Ok? ==> w.value.(investmentGrowth := 0.0) == c.value.(investmentGrowth := 0.0))
      && (rate != 0.0 ==> w == c)
      && (rate == 0.0 && contributions * (time as real) != 0.0 ==>
            w.value.investmentGrowth != w.value.finalValue - principal - w.value.totalContributions)
  {
  }

  /**
   * Against year-by-year compounding: at a non-zero rate and a non-negative
   * time the final value is the principal compounded plus one deposit of
   * the contribution at the end of each year, and non-positive contributions
   * add nothing.
   */
  lemma CompoundGrowthMatchesDeposits(principal: real, rate: real, time: nat, contributions: real)
    requires rate != 0.0
    ensures CalculateCompoundGrowth(principal, rate, time, contributions).Ok?
    ensures var f := CalculateCompoundGrowth(principal, rate, time, contributions).value.finalValue;
      && (contributions > 0.0 ==> f == principal * Pow(1.0 + rate, time) + DepositsValue(contributions, rate, time))
      && (contributions <= 0.0 ==> f == principal * Pow(1.0 + rate, time))
  {
    var g := Pow(1.0 + rate, time);
    GrownValueClosedForm(principal, rate, time, contributions);
    assert CalculateCompoundGrowth(principal, rate, time, contributions).value.finalValue
        == GrownValue(principal, rate, time, contributions).value;
    AnnuityClosedForm(contributions, rate, time);
  }

  lemma GrownValueClosedForm(principal: real, rate: real, time: nat, contributions: real)
    requires rate != 0.0
    ensures GrownValue(principal, rate, time, contributions).Ok?
    ensures var g := Pow(1.0 + rate, time);
      GrownValue(principal, rate, time, contributions).value
        == principal * g + (if contributions > 0.0 then contributions * ((g - 1.0) / rate) else 0.0)
  {
    var growth := IntPow(1.0 + rate, time);
    assert growth.Ok?;
  }

  // ---------------------------------------------------------------------
  // Required savings rate (`calculate_required_savings_rate`)
  // ---------------------------------------------------------------------

  /** The withdrawal rate that sizes the corpus. */
  const WithdrawalRate: real := 0.04

  datatype RequiredSavings = RequiredSavings(
    requiredCorpus: real,
    currentSavingsFutureValue: real,
    additionalCorpusNeeded: real,
    requiredAnnualSavings: real,
    requiredMonthlySavings: real,
    requiredSavingsRatePercentage: real,
    isFeasible: bool)

  /**
   * The corpus whose 4% yields the income goal, less what current savings
   * grow to, spread as level yearly deposits over the years to retirement.
   * Raises for no years at all (both branches divide by zero then), for a
   * power of zero with a negative exponent, and when the growth factor is
   * exactly 1 at a non-zero rate.
   */
  function CalculateRequiredSavingsRate(currentIncome: real, retirementIncomeGoal: real, yearsToRetirement: int,
                                        currentSavings: real, returnRate: real): (r: Result<RequiredSavings>)
    ensures yearsToRetirement == 0 ==> r == Err(ZeroDivisionError)
    ensures r.Err? <==>
      || (1.0 + returnRate == 0.0 && yearsToRetirement < 0)
      || (returnRate == 0.0 && yearsToRetirement == 0)
      || (returnRate != 0.0 && IntPow(1.0 + returnRate, yearsToRetirement) == Ok(1.0))
    ensures r.Err? ==> r.error == ZeroDivisionError
    ensures r.Ok? ==>
      && r.value.requiredCorpus * WithdrawalRate == retirementIncomeGoal
      && r.value.additionalCorpusNeeded >= 0.0
      && r.value.additionalCorpusNeeded >= r.value.requiredCorpus - r.value.currentSavingsFutureValue
      && (r.value.additionalCorpusNeeded == 0.0 || r.value.additionalCorpusNeeded == r.value.requiredCorpus - r.value.currentSavingsFutureValue)
      && r.value.requiredMonthlySavings * 12.0 == r.value.requiredAnnualSavings
      && (currentIncome > 0.0 ==> r.value.requiredSavingsRatePercentage * currentIncome == r.value.requiredAnnualSavings * 100.0)
      && (currentIncome <= 0.0 ==> r.value.requiredSavingsRatePercentage == 0.0)
      && (r.value.isFeasible <==> r.value.requiredSavingsRatePercentage <= 50.0)
  {
    var corpus := retirementIncomeGoal / WithdrawalRate;
    var growth := IntPow(1.0 + returnRate, yearsToRetirement);
    if growth.Err? then Err(growth.error)
    else
      var fv := currentSavings * growth.value;
      var additional := Max(0.0, corpus - fv);
      var annual := LevelDeposit(additional, returnRate, yearsToRetirement, growth.value);
      if annual.Err? then Err(annual.error)
      else
        var pct := if currentIncome > 0.0 then (annual.value / currentIncome) * 100.0 else 0.0;
        if currentIncome > 0.0 then
          SharePercent(annual.value, currentIncome);
          Ok(RequiredSavings(corpus, fv, additional, annual.value, annual.value / 12.0, pct, pct <= 50.0))
        else Ok(RequiredSavings(corpus, fv, additional, annual.value, annual.value / 12.0, pct, pct <= 50.0))
  }

  /**
   * The yearly deposit accumulating `amount` over `years` at `rate`, given
   * the growth factor `(1 + rate) ** years`: a plain division at a zero
   * rate, the sinking-fund formula otherwise.
   */
  function LevelDeposit(amount: real, rate: real, years: int, growth: real): Result<real> {
    if rate == 0.0 then
      (if years == 0 then Err(ZeroDivisionError) else Ok(amount / (years as real)))
    else if growth - 1.0 == 0.0 then Err(ZeroDivisionError)
    else Ok(amount * rate / (growth - 1.0))
  }

  /** Deposited at the end of each year, the level deposit accumulates exactly `amount`. */
  lemma LevelDepositAccumulates(amount: real, rate: real, years: nat)
    requires LevelDeposit(amount, rate, years, Pow(1.0 + rate, years)).Ok?
    ensures DepositsValue(LevelDeposit(amount, rate, years, Pow(1.0 + rate, years)).value, rate, years) == amount
  {
    var g := Pow(1.0 + rate, years);
    var d := LevelDeposit(amount, rate, years, g).value;
    AnnuityClosedForm(d, rate, years);
    if rate == 0.0 {
      PaymentTimesPeriods(amount, years as real);
    } else {
      PaymentTimesFactor(amount, rate, g - 1.0);
    }
  }

  lemma SharePercent(part: real, whole: real)
    requires whole > 0.0
    ensures ((part / whole) * 100.0) * whole == part * 100.0
  {
    var q := part / whole;
    assert q * whole == part;
  }

  /**
   * The required yearly savings close the gap: deposited at the end of each
   * year at the return rate, they accumulate exactly the additional corpus.
   */
  lemma RequiredSavingsCloseGap(currentIncome: real, retirementIncomeGoal: real, yearsToRetirement: nat,
                                currentSavings: real, returnRate: real)
    requires CalculateRequiredSavingsRate(currentIncome, retirementIncomeGoal, yearsToRetirement, currentSavings, returnRate).Ok?
    ensures var r := CalculateRequiredSavingsRate(currentIncome, retirementIncomeGoal, yearsToRetirement, currentSavings, returnRate).value;
      DepositsValue(r.requiredAnnualSavings, returnRate, yearsToRetirement) == r.additionalCorpusNeeded
  {
    var r := CalculateRequiredSavingsRate(currentIncome, retirementIncomeGoal, yearsToRetirement, currentSavings, returnRate).value;
    var g := Pow(1.0 + returnRate, yearsToRetirement);
    assert IntPow(1.0 + returnRate, yearsToRetirement) == Ok(g);
    assert LevelDeposit(r.additionalCorpusNeeded, returnRate, yearsToRetirement, g) == Ok(r.requiredAnnualSavings);
    LevelDepositAccumulates(r.additionalCorpusNeeded, returnRate, yearsToRetirement);
  }

  /** A zero return needs time to retirement: with no years the calculator always raises. */
  lemma NoYearsAlwaysRaises(currentIncome: real, retirementIncomeGoal: real, currentSavings: real, returnRate: real)
    ensures CalculateRequiredSavingsRate(currentIncome, retirementIncomeGoal, 0, currentSavings, returnRate).Err?
  {
  }
}
