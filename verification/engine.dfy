/**
 * The needs calculator and the closed-form savings projection of the
 * retirement calculation engine (`RetirementCalculationEngine` in
 * src/services/retirement_service.py), together with the employer-match rule
 * and the annuity arithmetic they share.
 */
module Engine {
  import opened Outcomes
  import opened Numeric

  /** The planning assumptions (`RetirementInputs`). */
  datatype RetirementInputs = RetirementInputs(
    currentAge: int,
    retirementAge: int,
    lifeExpectancy: int,
    currentAnnualIncome: real,
    desiredRetirementIncomeRatio: real,
    currentSavings: real,
    monthlyContribution: real,
    employerMatchRate: real,
    employerMatchLimit: real,
    preRetirementReturnRate: real,
    postRetirementReturnRate: real,
    inflationRate: real,
    estimatedSocialSecurity: real,
    estimatedHealthcareCosts: real,
    estimatedPension: real)

  function YearsToRetirement(inp: RetirementInputs): int {
    inp.retirementAge - inp.currentAge
  }

  function RetirementYears(inp: RetirementInputs): int {
    inp.lifeExpectancy - inp.retirementAge
  }

  // ---------------------------------------------------------------------
  // Annuity arithmetic
  // ---------------------------------------------------------------------

  /**
   * Reference definition of an annuity's future value: the balance after `k`
   * end-of-period deposits of `payment`, each period growing by `rate`.
   */
  function DepositsValue(payment: real, rate: real, k: nat): real
    decreases k
  {
    if k == 0 then 0.0 else DepositsValue(payment, rate, k - 1) * (1.0 + rate) + payment
  }

  /** Present-value factor of an ordinary annuity, `(1 - (1 + rate) ** -n) / rate`. */
  function PresentValueFactor(rate: real, n: int): real
    requires rate > 0.0
  {
    var discount := IntPow(1.0 + rate, -n);
    (1.0 - discount.value) / rate
  }

  lemma DivideBack(x: real, y: real, d: real)
    requires d != 0.0 && x == y * d
    ensures x / d == y
  {
  }

  /** Without growth, the deposits simply add up. */
  lemma {:induction false} DepositsWithoutGrowth(payment: real, k: nat)
    ensures DepositsValue(payment, 0.0, k) == payment * (k as real)
    decreases k
  {
    if k > 0 {
      DepositsWithoutGrowth(payment, k - 1);
      assert payment * (k as real) == payment * ((k - 1) as real) + payment;
    }
  }

  /** The geometric-series identity behind the annuity formula, free of division. */
  lemma {:induction false} DepositsTimesRate(payment: real, rate: real, k: nat)
    ensures DepositsValue(payment, rate, k) * rate == payment * (Pow(1.0 + rate, k) - 1.0)
    decreases k
  {
    if k > 0 {
      DepositsTimesRate(payment, rate, k - 1);
      GeometricStep(payment, rate, DepositsValue(payment, rate, k - 1), Pow(1.0 + rate, k - 1),
                    DepositsValue(payment, rate, k), Pow(1.0 + rate, k));
    }
  }

  lemma GeometricStep(p: real, r: real, prev: real, g: real, next: real, gNext: real)
    requires prev * r == p * (g - 1.0)
    requires next == prev * (1.0 + r) + p && gNext == (1.0 + r) * g
    ensures next * r == p * (gNext - 1.0)
  {
    assert (prev * (1.0 + r) + p) * r == (prev * r) * (1.0 + r) + p * r;
    assert p * (g - 1.0) * (1.0 + r) + p * r == p * ((1.0 + r) * g - 1.0);
  }

  /** The closed-form annuity future value agrees with the deposit-by-deposit reference. */
  lemma AnnuityClosedForm(payment: real, rate: real, k: nat)
    ensures rate == 0.0 ==> DepositsValue(payment, rate, k) == payment * (k as real)
    ensures rate != 0.0 ==>
      DepositsValue(payment, rate, k) == payment * ((Pow(1.0 + rate, k) - 1.0) / rate)
  {
    if rate == 0.0 {
      DepositsWithoutGrowth(payment, k);
    } else {
      DepositsTimesRate(payment, rate, k);
      ClosedFormFromProduct(payment, rate, DepositsValue(payment, rate, k), Pow(1.0 + rate, k));
    }
  }

  lemma ClosedFormFromProduct(p: real, r: real, d: real, g: real)
    requires r != 0.0 && d * r == p * (g - 1.0)
    ensures d == p * ((g - 1.0) / r)
  {
    var u := (g - 1.0) / r;
    assert u * r == g - 1.0;
    assert d * r == (p * u) * r;
  }

  /**
   * `(1 - (1 + rate) ** -n) / rate` lies between 0 and n: discounting never
   * makes an annuity worth more than its undiscounted payments.
   */
  lemma PresentValueFactorBounds(rate: real, n: nat)
    requires rate > 0.0
    ensures 0.0 <= PresentValueFactor(rate, n) <= n as real
  {
    var b := 1.0 + rate;
    var q := IntPow(b, -(n as int)).value;
    assert PresentValueFactor(rate, n) == (1.0 - q) / rate;
    if n == 0 {
      assert q == 1.0;
    } else {
      var c := 1.0 / b;
      ReciprocalBounds(b);
      var pb := Pow(b, n);
      var s := Pow(c, n);
      PowReciprocal(b, n);
      PowAtMostOne(c, n);
      Bernoulli(c, n);
      DiscountedFacts(rate, n as real, b, c, q, s, pb);
    }
  }

  lemma DiscountedFacts(rate: real, n: real, b: real, c: real, q: real, s: real, pb: real)
    requires rate > 0.0 && n >= 0.0 && b == 1.0 + rate && c == 1.0 / b
    requires pb != 0.0 && q * pb == 1.0 && s * pb == 1.0
    requires s <= 1.0 && s >= 1.0 + n * (c - 1.0)
    ensures 0.0 <= (1.0 - q) / rate <= n
  {
    PowIsUnique(q, s, pb);
    DiscountBound(rate, n, c - 1.0);
    LowerDiscountGivesBound(rate, n, q);
  }

  lemma PowIsUnique(q: real, s: real, p: real)
    requires p != 0.0 && q * p == 1.0 && s * p == 1.0
    ensures q == s
  {
    assert (q - s) * p == 0.0;
  }

  lemma ReciprocalBounds(b: real)
    requires b >= 1.0
    ensures 0.0 < 1.0 / b <= 1.0
  {
    var c := 1.0 / b;
    assert c * b == 1.0;
    if c > 1.0 {
      MulMonotone(c, 1.0, b);
    }
  }

  lemma DiscountBound(rate: real, n: real, x: real)
    requires rate > 0.0 && n >= 0.0 && x == 1.0 / (1.0 + rate) - 1.0
    ensures 1.0 + n * x >= 1.0 - n * rate
  {
    var b := 1.0 + rate;
    ReciprocalBounds(b);
    assert x * b == 1.0 - b;
    assert x == -rate / b by { DivideBack(-rate, x, b); }
    assert -x <= rate by {
      assert (-x) * b == rate;
      MulMonotone(-x, 1.0, b);
    }
    MulMonotone(n, -x, rate);
  }

  lemma LowerDiscountGivesBound(rate: real, n: real, q: real)
    requires rate > 0.0 && q <= 1.0 && q >= 1.0 - n * rate
    ensures 0.0 <= (1.0 - q) / rate <= n
  {
    var f := (1.0 - q) / rate;
    assert f * rate == 1.0 - q;
    if f < 0.0 {
      MulMonotone(rate, f, 0.0);
    }
    if f > n {
      MulMonotone(rate, n, f);
    }
  }

  // ---------------------------------------------------------------------
  // Needs calculator (`calculate_retirement_needs`)
  // ---------------------------------------------------------------------

  datatype RetirementNeeds = RetirementNeeds(
    desiredAnnualIncomeToday: real,
    netIncomeNeeded: real,
    totalAnnualNeedToday: real,
    futureAnnualNeed: real,
    retirementCorpusNeeded: real,
    yearsToRetirement: int,
    retirementYears: int,
    inflationFactor: real)

  /**
   * Income gap after Social Security and pension, inflated to the retirement
   * date, and the corpus that funds it: an ordinary-annuity present value at
   * the real return, or the plain sum of the payments when the real return is
   * zero or negative. `(1 + inflation) ** years` raises when the base is 0 and
   * the exponent negative.
   */
  function CalculateRetirementNeeds(inp: RetirementInputs): (r: Result<RetirementNeeds>)
    ensures r.Err? <==> YearsToRetirement(inp) < 0 && 1.0 + inp.inflationRate == 0.0
    ensures r.Err? ==> r.error == ZeroDivisionError
  {
    var ytr := YearsToRetirement(inp);
    var ry := RetirementYears(inp);
    var desired := inp.currentAnnualIncome * inp.desiredRetirementIncomeRatio;
    var net := Max(desired - inp.estimatedSocialSecurity - inp.estimatedPension, 0.0);
    var total := net + inp.estimatedHealthcareCosts;
    var factor := IntPow(1.0 + inp.inflationRate, ytr);
    if factor.Err? then Err(factor.error)
    else
      var future := total * factor.value;
      var realReturn := inp.postRetirementReturnRate - inp.inflationRate;
      var corpus :=
        if realReturn <= 0.0 then future * (ry as real)
        else future * PresentValueFactor(realReturn, ry);
      Ok(RetirementNeeds(desired, net, total, future, corpus, ytr, ry, factor.value))
  }

  /**
   * The income gap left after Social Security and pension is never negative
   * (it is the gap itself when positive, else 0); healthcare costs are added
   * on top and the sum is inflated to the retirement date. A zero or negative
   * real return uses the plain sum of payments, a positive one the
   * ordinary-annuity present value.
   */
  lemma NeedsFacts(inp: RetirementInputs)
    requires CalculateRetirementNeeds(inp).Ok?
    ensures var n := CalculateRetirementNeeds(inp).value;
      var shortOfOtherIncome := n.desiredAnnualIncomeToday - inp.estimatedSocialSecurity - inp.estimatedPension;
      && n.desiredAnnualIncomeToday == inp.currentAnnualIncome * inp.desiredRetirementIncomeRatio
      && n.netIncomeNeeded >= 0.0
      && n.netIncomeNeeded >= shortOfOtherIncome
      && (n.netIncomeNeeded == 0.0 || n.netIncomeNeeded == shortOfOtherIncome)
      && n.totalAnnualNeedToday == n.netIncomeNeeded + inp.estimatedHealthcareCosts
      && n.futureAnnualNeed == n.totalAnnualNeedToday * n.inflationFactor
      && n.yearsToRetirement == YearsToRetirement(inp)
      && n.retirementYears == RetirementYears(inp)
    ensures YearsToRetirement(inp) >= 0 ==>
      CalculateRetirementNeeds(inp).value.inflationFactor == Pow(1.0 + inp.inflationRate, YearsToRetirement(inp))
    ensures inp.postRetirementReturnRate - inp.inflationRate <= 0.0 ==>
      var n := CalculateRetirementNeeds(inp).value;
      n.retirementCorpusNeeded == n.futureAnnualNeed * (RetirementYears(inp) as real)
    ensures inp.postRetirementReturnRate - inp.inflationRate > 0.0 ==>
      var n := CalculateRetirementNeeds(inp).value;
      n.retirementCorpusNeeded ==
        n.futureAnnualNeed * PresentValueFactor(inp.postRetirementReturnRate - inp.inflationRate, RetirementYears(inp))
  {
  }

  /**
   * `corpus`, invested at `rate` for `n` years, grows to exactly what `n`
   * end-of-year payments of `payment` accumulate to at that rate: the corpus
   * is the payments' present value.
   */
  predicate FundsPayments(corpus: real, payment: real, rate: real, n: nat) {
    corpus * Pow(1.0 + rate, n) == DepositsValue(payment, rate, n)
  }

  /**
   * The corpus funds the retirement payments exactly. At a positive real
   * return it is their present value at that return. At a zero or negative
   * real return it is those payments simply added up, which is what they
   * accumulate to without growth.
   */
  lemma CorpusFundsPayments(inp: RetirementInputs)
    requires CalculateRetirementNeeds(inp).Ok? && RetirementYears(inp) >= 0
    ensures var n := CalculateRetirementNeeds(inp).value;
      var rr := inp.postRetirementReturnRate - inp.inflationRate;
      rr > 0.0 ==> FundsPayments(n.retirementCorpusNeeded, n.futureAnnualNeed, rr, RetirementYears(inp))
    ensures var n := CalculateRetirementNeeds(inp).value;
      inp.postRetirementReturnRate - inp.inflationRate <= 0.0 ==>
        FundsPayments(n.retirementCorpusNeeded, n.futureAnnualNeed, 0.0, RetirementYears(inp))
  {
    var n := CalculateRetirementNeeds(inp).value;
    CorpusBranches(inp);
    CorpusOfFutureNeed(n.retirementCorpusNeeded, n.futureAnnualNeed,
                       inp.postRetirementReturnRate - inp.inflationRate, RetirementYears(inp));
  }

  /** The two ways `calculate_retirement_needs` turns the inflated need into a corpus. */
  lemma CorpusBranches(inp: RetirementInputs)
    requires CalculateRetirementNeeds(inp).Ok? && RetirementYears(inp) >= 0
    ensures var n := CalculateRetirementNeeds(inp).value;
      var rr := inp.postRetirementReturnRate - inp.inflationRate;
      && (rr > 0.0 ==> n.retirementCorpusNeeded == n.futureAnnualNeed * PresentValueFactor(rr, RetirementYears(inp)))
      && (rr <= 0.0 ==> n.retirementCorpusNeeded == n.futureAnnualNeed * (RetirementYears(inp) as real))
  {
  }

  /** A corpus computed by either branch funds the payments at the rate that branch assumes. */
  lemma CorpusOfFutureNeed(corpus: real, future: real, rr: real, ry: nat)
    requires rr > 0.0 ==> corpus == future * PresentValueFactor(rr, ry)
    requires rr <= 0.0 ==> corpus == future * (ry as real)
    ensures rr > 0.0 ==> FundsPayments(corpus, future, rr, ry)
    ensures rr <= 0.0 ==> FundsPayments(corpus, future, 0.0, ry)
  {
    if rr > 0.0 {
      AnnuityPresentValue(future, rr, ry);
    } else {
      PlainSumFundsPayments(future, ry);
    }
  }

  /** Without growth the payments' plain sum funds them. */
  lemma PlainSumFundsPayments(payment: real, n: nat)
    ensures FundsPayments(payment * (n as real), payment, 0.0, n)
  {
    DepositsWithoutGrowth(payment, n);
    PowOne(n);
  }

  /** `payment * (1 - (1 + rate) ** -n) / rate` is the present value of `n` payments. */
  lemma AnnuityPresentValue(payment: real, rate: real, n: nat)
    requires rate > 0.0
    ensures FundsPayments(payment * PresentValueFactor(rate, n), payment, rate, n)
  {
    var pb := Pow(1.0 + rate, n);
    var q := IntPow(1.0 + rate, -(n as int)).value;
    var f := PresentValueFactor(rate, n);
    var d := DepositsValue(payment, rate, n);
    DiscountIsReciprocal(rate, n);
    DepositsTimesRate(payment, rate, n);
    assert f == (1.0 - q) / rate;
    DiscountedGrowth(payment, rate, q, pb, f, d);
  }

  /** `(1 + rate) ** -n` undoes `(1 + rate) ** n`. */
  lemma DiscountIsReciprocal(rate: real, n: nat)
    requires rate > 0.0
    ensures IntPow(1.0 + rate, -(n as int)).value * Pow(1.0 + rate, n) == 1.0
  {
    if n > 0 {
      IntPowNegative(1.0 + rate, -(n as int));
    }
  }

  lemma DiscountedGrowth(p: real, rate: real, q: real, pb: real, f: real, d: real)
    requires rate > 0.0 && q * pb == 1.0 && f == (1.0 - q) / rate && d * rate == p * (pb - 1.0)
    ensures p * f * pb == d
  {
    assert f * rate == 1.0 - q;
    assert (p * f * pb) * rate == p * (f * rate) * pb;
    assert p * (1.0 - q) * pb == p * (pb - q * pb);
    assert (p * f * pb) * rate == d * rate;
  }

  /**
   * The corpus is never more than the undiscounted sum of the retirement
   * payments, and never negative, whichever branch computed it; with a zero
   * real return it is exactly that sum.
   */
  lemma CorpusBetweenZeroAndUndiscountedNeed(inp: RetirementInputs)
    requires CalculateRetirementNeeds(inp).Ok?
    requires RetirementYears(inp) >= 0
    requires CalculateRetirementNeeds(inp).value.futureAnnualNeed >= 0.0
    ensures var n := CalculateRetirementNeeds(inp).value;
      0.0 <= n.retirementCorpusNeeded <= n.futureAnnualNeed * (RetirementYears(inp) as real)
    ensures inp.postRetirementReturnRate == inp.inflationRate ==>
      var n := CalculateRetirementNeeds(inp).value;
      n.retirementCorpusNeeded == n.futureAnnualNeed * (RetirementYears(inp) as real)
  {
    NeedsFacts(inp);
    var n := CalculateRetirementNeeds(inp).value;
    var ry := RetirementYears(inp);
    var rr := inp.postRetirementReturnRate - inp.inflationRate;
    MulMonotone(n.futureAnnualNeed, 0.0, ry as real);
    if rr > 0.0 {
      PresentValueFactorBounds(rr, ry);
      var f := PresentValueFactor(rr, ry);
      MulMonotone(n.futureAnnualNeed, 0.0, f);
      MulMonotone(n.futureAnnualNeed, f, ry as real);
    }
  }

  // ---------------------------------------------------------------------
  // Employer match (`_calculate_effective_monthly_contribution`)
  // ---------------------------------------------------------------------

  /** The employee's savings rate as a fraction of salary; 0 without a positive salary. */
  function ContributionRate(inp: RetirementInputs): real {
    if inp.currentAnnualIncome > 0.0
    then (inp.monthlyContribution * 12.0) / inp.currentAnnualIncome
    else 0.0
  }

  /** Annual employer match: salary times the lesser of savings rate and match limit, times the match rate. */
  function EmployerMatchAnnual(inp: RetirementInputs): real {
    inp.currentAnnualIncome * Min(ContributionRate(inp), inp.employerMatchLimit) * inp.employerMatchRate
  }

  /** Employee contribution plus employer match, per month. */
  function EffectiveMonthlyContribution(inp: RetirementInputs): real
  {
    (inp.monthlyContribution * 12.0 + EmployerMatchAnnual(inp)) / 12.0
  }

  /**
   * The employer match never exceeds `income * limit * rate`, however large the
   * contribution; it is 0 without a positive salary (for a non-negative limit);
   * and with non-negative rates the effective monthly amount is at least the
   * employee's own monthly contribution.
   */
  lemma EmployerMatchCapped(inp: RetirementInputs)
    requires inp.currentAnnualIncome >= 0.0 && inp.employerMatchRate >= 0.0
    ensures EmployerMatchAnnual(inp) <= inp.currentAnnualIncome * inp.employerMatchLimit * inp.employerMatchRate
    ensures inp.currentAnnualIncome > 0.0 ==>
      EmployerMatchAnnual(inp) <= inp.monthlyContribution * 12.0 * inp.employerMatchRate
  {
    var s := inp.currentAnnualIncome * inp.employerMatchRate;
    MulMonotone(inp.currentAnnualIncome, 0.0, inp.employerMatchRate);
    var m := Min(ContributionRate(inp), inp.employerMatchLimit);
    MulMonotone(s, m, inp.employerMatchLimit);
    assert EmployerMatchAnnual(inp) == s * m;
    assert inp.currentAnnualIncome * inp.employerMatchLimit * inp.employerMatchRate == s * inp.employerMatchLimit;
    if inp.currentAnnualIncome > 0.0 {
      var c := ContributionRate(inp);
      MulMonotone(s, m, c);
      assert c * inp.currentAnnualIncome == inp.monthlyContribution * 12.0;
      assert s * c == inp.monthlyContribution * 12.0 * inp.employerMatchRate;
    }
  }

  lemma EmployerMatchWithoutIncome(inp: RetirementInputs)
    requires inp.currentAnnualIncome <= 0.0 && inp.employerMatchLimit >= 0.0
    ensures EmployerMatchAnnual(inp) == 0.0
  {
  }

  lemma EffectiveAtLeastOwnContribution(inp: RetirementInputs)
    requires inp.currentAnnualIncome >= 0.0 && inp.monthlyContribution >= 0.0
    requires inp.employerMatchRate >= 0.0 && inp.employerMatchLimit >= 0.0
    ensures EffectiveMonthlyContribution(inp) >= inp.monthlyContribution
  {
    var m := Min(ContributionRate(inp), inp.employerMatchLimit);
    if inp.currentAnnualIncome > 0.0 {
      var c := ContributionRate(inp);
      assert c * inp.currentAnnualIncome == inp.monthlyContribution * 12.0;
      if c < 0.0 {
        MulMonotone(inp.currentAnnualIncome, c, 0.0);
      }
    }
    assert m >= 0.0;
    MulMonotone(inp.currentAnnualIncome, 0.0, m);
    MulMonotone(inp.currentAnnualIncome * m, 0.0, inp.employerMatchRate);
  }

  /**
   * `effective_monthly` grows with the employee's own monthly contribution: a
   * larger contribution never earns a smaller match.
   */
  lemma EffectiveContributionMonotone(inp: RetirementInputs, more: real)
    requires inp.currentAnnualIncome > 0.0 && inp.employerMatchRate >= 0.0
    requires inp.monthlyContribution <= more
    ensures EffectiveMonthlyContribution(inp) <= EffectiveMonthlyContribution(inp.(monthlyContribution := more))
  {
    var inp' := inp.(monthlyContribution := more);
    var income := inp.currentAnnualIncome;
    var c, c' := ContributionRate(inp), ContributionRate(inp');
    assert c * income == inp.monthlyContribution * 12.0;
    assert c' * income == more * 12.0;
    if c > c' {
      MulMonotone(income, c', c);
    }
    var m, m' := Min(c, inp.employerMatchLimit), Min(c', inp.employerMatchLimit);
    assert m <= m';
    MulMonotone(income * inp.employerMatchRate, m, m');
    assert EmployerMatchAnnual(inp) == income * inp.employerMatchRate * m;
    assert EmployerMatchAnnual(inp') == income * inp.employerMatchRate * m';
    MulMonotone(income, 0.0, inp.employerMatchRate);
  }

  // ---------------------------------------------------------------------
  // Closed-form savings projection (`calculate_savings_projections`)
  // ---------------------------------------------------------------------

  datatype SavingsProjection = SavingsProjection(
    currentSavingsFutureValue: real,
    contributionsFutureValue: real,
    totalProjectedSavings: real,
    corpusNeeded: real,
    shortfall: real,
    surplus: real,
    additionalMonthlyNeeded: real,
    effectiveMonthlyContribution: real,
    savingsRatePercentage: real)

  /**
   * Sinking-fund payment: the level monthly deposit whose future value after
   * `years * 12` months at `annualRate / 12` per month is `gap`, with the
   * linear fallback for a zero rate. The division raises when
   * `(1 + annualRate / 12) ** months - 1` is zero.
   */
  function SinkingFundMonthly(gap: real, years: int, annualRate: real): (r: Result<real>)
    requires years > 0
    ensures r.Err? ==> r.error == ZeroDivisionError
    ensures annualRate == 0.0 ==> r.Ok?
  {
    var months := years * 12;
    if annualRate == 0.0 then Ok(gap / (months as real))
    else
      var m := annualRate / 12.0;
      var d := Pow(1.0 + m, months) - 1.0;
      if d == 0.0 then Err(ZeroDivisionError) else Ok(gap * m / d)
  }

  /**
   * The sinking-fund payment closes the gap exactly: depositing it every month
   * for `years * 12` months at the monthly rate accumulates `gap`. For a
   * non-negative rate the payment is defined, and positive when the gap is.
   */
  lemma SinkingFundClosesGap(gap: real, years: int, annualRate: real)
    requires years > 0
    ensures annualRate >= 0.0 ==> SinkingFundMonthly(gap, years, annualRate).Ok?
    ensures annualRate >= 0.0 && gap > 0.0 ==> SinkingFundMonthly(gap, years, annualRate).value > 0.0
    ensures SinkingFundMonthly(gap, years, annualRate).Ok? ==>
      DepositsValue(SinkingFundMonthly(gap, years, annualRate).value, annualRate / 12.0, years * 12) == gap
  {
    var months := years * 12;
    var m := annualRate / 12.0;
    var r := SinkingFundMonthly(gap, years, annualRate);
    if annualRate > 0.0 {
      PowAboveOne(1.0 + m, months);
    }
    if r.Ok? {
      AnnuityClosedForm(r.value, m, months);
      if annualRate == 0.0 {
        assert m == 0.0;
        PaymentTimesPeriods(gap, months as real);
      } else {
        PaymentTimesFactor(gap, m, Pow(1.0 + m, months) - 1.0);
      }
    }
  }

  lemma PaymentTimesPeriods(gap: real, n: real)
    requires n > 0.0
    ensures (gap / n) * n == gap
    ensures gap > 0.0 ==> gap / n > 0.0
  {
  }

  lemma PaymentTimesFactor(gap: real, m: real, d: real)
    requires m != 0.0 && d != 0.0
    ensures (gap * m / d) * (d / m) == gap
    ensures gap > 0.0 && m > 0.0 && d > 0.0 ==> gap * m / d > 0.0
  {
    var p := gap * m / d;
    assert p * d == gap * m;
    var f := d / m;
    assert f * m == d;
    assert p * f * m == gap * m;
  }

  /** `(1 + pre_retirement_return_rate) ** years_to_retirement`. */
  function GrowthToRetirement(inp: RetirementInputs): Result<real> {
    IntPow(1.0 + inp.preRetirementReturnRate, YearsToRetirement(inp))
  }

  /** With retirement ahead, the growth factor is a plain power. */
  lemma GrowthIsPow(inp: RetirementInputs)
    requires YearsToRetirement(inp) >= 0
    ensures GrowthToRetirement(inp) == Ok(Pow(1.0 + inp.preRetirementReturnRate, YearsToRetirement(inp)))
  {
  }

  /** `current_savings_fv + contributions_fv`. */
  function TotalProjected(inp: RetirementInputs): real
    requires GrowthToRetirement(inp).Ok?
  {
    var g := GrowthToRetirement(inp).value;
    inp.currentSavings * g
      + ContributionsFutureValue(EffectiveMonthlyContribution(inp) * 12.0,
          inp.preRetirementReturnRate, YearsToRetirement(inp), g)
  }

  /** `gap = corpus_needed - total_projected`. */
  function Gap(inp: RetirementInputs): real
    requires GrowthToRetirement(inp).Ok? && CalculateRetirementNeeds(inp).Ok?
  {
    CalculateRetirementNeeds(inp).value.retirementCorpusNeeded - TotalProjected(inp)
  }

  /** `additional_monthly`: 0 unless there is a gap and time to close it. */
  function AdditionalMonthly(inp: RetirementInputs): (r: Result<real>)
    requires GrowthToRetirement(inp).Ok? && CalculateRetirementNeeds(inp).Ok?
    ensures r.Ok? && r.value != 0.0 ==> Gap(inp) > 0.0 && YearsToRetirement(inp) > 0
  {
    if Gap(inp) > 0.0 && YearsToRetirement(inp) > 0
    then SinkingFundMonthly(Gap(inp), YearsToRetirement(inp), inp.preRetirementReturnRate)
    else Ok(0.0)
  }

  /**
   * Future value of current savings plus an annuity of contributions at the
   * pre-retirement return, compared with the needed corpus. Raises
   * ZeroDivisionError when a power has base 0 and a negative exponent, when
   * the sinking-fund denominator is zero, or when the salary is 0 (the savings
   * rate divides by it).
   */
  function CalculateSavingsProjections(inp: RetirementInputs): (r: Result<SavingsProjection>)
    ensures r.Err? ==> r.error == ZeroDivisionError
    ensures r.Ok? <==>
      && GrowthToRetirement(inp).Ok? && CalculateRetirementNeeds(inp).Ok?
      && AdditionalMonthly(inp).Ok? && inp.currentAnnualIncome != 0.0
    ensures r.Ok? ==> ShortfallSurplusSplit(r.value)
    ensures r.Ok? ==>
      && r.value.totalProjectedSavings == r.value.currentSavingsFutureValue + r.value.contributionsFutureValue
      && r.value.effectiveMonthlyContribution == EffectiveMonthlyContribution(inp)
      && r.value.corpusNeeded == CalculateRetirementNeeds(inp).value.retirementCorpusNeeded
      && (r.value.additionalMonthlyNeeded != 0.0 ==> r.value.shortfall > 0.0 && YearsToRetirement(inp) > 0)
  {
    var growth := GrowthToRetirement(inp);
    var needs := CalculateRetirementNeeds(inp);
    if growth.Err? || needs.Err? then Err(ZeroDivisionError)
    else
      var additional := AdditionalMonthly(inp);
      if additional.Err? || inp.currentAnnualIncome == 0.0 then Err(ZeroDivisionError)
      else
        var g := growth.value;
        var effective := EffectiveMonthlyContribution(inp);
        var split := SplitGap(Gap(inp));
        Ok(SavingsProjection(
          inp.currentSavings * g,
          ContributionsFutureValue(effective * 12.0, inp.preRetirementReturnRate, YearsToRetirement(inp), g),
          TotalProjected(inp),
          needs.value.retirementCorpusNeeded,
          split.0, split.1, additional.value, effective,
          (effective * 12.0 / inp.currentAnnualIncome) * 100.0))
  }

  /** `(max(gap, 0), max(-gap, 0))`: the shortfall and the surplus. */
  function SplitGap(gap: real): (r: (real, real))
    ensures r.0 >= 0.0 && r.1 >= 0.0 && (r.0 == 0.0 || r.1 == 0.0)
    ensures r.0 - r.1 == gap
    ensures r.0 > 0.0 <==> gap > 0.0
  {
    (Max(gap, 0.0), Max(-gap, 0.0))
  }

  /** The computed contributions future value is the annuity of the effective contributions. */
  lemma ProjectionContributions(inp: RetirementInputs)
    requires CalculateSavingsProjections(inp).Ok?
    ensures GrowthToRetirement(inp).Ok?
    ensures CalculateSavingsProjections(inp).value.contributionsFutureValue ==
      ContributionsFutureValue(EffectiveMonthlyContribution(inp) * 12.0, inp.preRetirementReturnRate,
                               YearsToRetirement(inp), GrowthToRetirement(inp).value)
  {
  }

  /** `contributions_fv`: `annual * years` at a zero rate, else the annuity formula. */
  function ContributionsFutureValue(annual: real, rate: real, years: int, growth: real): real {
    if rate == 0.0 then annual * (years as real) else annual * ((growth - 1.0) / rate)
  }

  /**
   * Shortfall and surplus are both non-negative, at most one is non-zero, and
   * their difference is the corpus minus the projected savings.
   */
  ghost predicate ShortfallSurplusSplit(p: SavingsProjection) {
    && p.shortfall >= 0.0 && p.surplus >= 0.0
    && (p.shortfall == 0.0 || p.surplus == 0.0)
    && p.shortfall - p.surplus == p.corpusNeeded - p.totalProjectedSavings
  }

  /** A zero pre-retirement return uses the linear formulas. */
  lemma ZeroReturnUsesLinearFormulas(inp: RetirementInputs)
    requires CalculateSavingsProjections(inp).Ok? && inp.preRetirementReturnRate == 0.0
    ensures var p := CalculateSavingsProjections(inp).value;
      && p.currentSavingsFutureValue == inp.currentSavings
      && p.contributionsFutureValue == p.effectiveMonthlyContribution * 12.0 * (YearsToRetirement(inp) as real)
      && (p.shortfall > 0.0 && YearsToRetirement(inp) > 0 ==>
           p.additionalMonthlyNeeded == p.shortfall / ((YearsToRetirement(inp) * 12) as real))
  {
    var ytr := YearsToRetirement(inp);
    if ytr < 0 {
      PowOne(-ytr);
    } else {
      PowOne(ytr);
    }
  }

  /**
   * For a non-zero salary, a non-negative return and retirement not yet past,
   * the projection is always computed.
   */
  lemma ProjectionsDefined(inp: RetirementInputs)
    requires inp.currentAnnualIncome != 0.0
    requires YearsToRetirement(inp) >= 0 && inp.preRetirementReturnRate >= 0.0
    ensures CalculateSavingsProjections(inp).Ok?
  {
    var ytr := YearsToRetirement(inp);
    assert GrowthToRetirement(inp).Ok? && CalculateRetirementNeeds(inp).Ok?;
    if ytr > 0 {
      SinkingFundClosesGap(Gap(inp), ytr, inp.preRetirementReturnRate);
    }
  }

  /**
   * The closed-form contributions future value agrees with year-by-year
   * deposits: it is the sum of `effective_monthly * 12` deposited at the end
   * of each year until retirement and compounded at the pre-retirement return.
   */
  lemma ProjectionMatchesDeposits(inp: RetirementInputs)
    requires CalculateSavingsProjections(inp).Ok?
    requires YearsToRetirement(inp) >= 0
    ensures var p := CalculateSavingsProjections(inp).value;
      p.contributionsFutureValue ==
        DepositsValue(p.effectiveMonthlyContribution * 12.0, inp.preRetirementReturnRate, YearsToRetirement(inp))
  {
    ProjectionContributions(inp);
    GrowthIsPow(inp);
    DepositsMatchContributions(EffectiveMonthlyContribution(inp) * 12.0, inp.preRetirementReturnRate,
                               YearsToRetirement(inp));
  }

  /**
   * Current savings compound once a year for `years_to_retirement` years:
   * their future value is the savings times the growth factor, which is
   * `(1 + pre_retirement_return) ** years`.
   */
  lemma SavingsCompound(inp: RetirementInputs)
    requires CalculateSavingsProjections(inp).Ok?
    requires YearsToRetirement(inp) >= 0
    ensures GrowthToRetirement(inp).Ok?
    ensures CalculateSavingsProjections(inp).value.currentSavingsFutureValue ==
      inp.currentSavings * GrowthToRetirement(inp).value
    ensures GrowthToRetirement(inp).value == Pow(1.0 + inp.preRetirementReturnRate, YearsToRetirement(inp))
  {
    assert CalculateSavingsProjections(inp).value.currentSavingsFutureValue ==
      inp.currentSavings * GrowthToRetirement(inp).value;
    GrowthIsPow(inp);
  }

  lemma DepositsMatchContributions(annual: real, rate: real, years: nat)
    ensures DepositsValue(annual, rate, years) == ContributionsFutureValue(annual, rate, years, Pow(1.0 + rate, years))
  {
    AnnuityClosedForm(annual, rate, years);
  }

  /**
   * The additional monthly amount, deposited every month until retirement at
   * the monthly rate, accumulates exactly the shortfall.
   */
  lemma AdditionalMonthlyClosesShortfall(inp: RetirementInputs)
    requires CalculateSavingsProjections(inp).Ok?
    requires CalculateSavingsProjections(inp).value.shortfall > 0.0 && YearsToRetirement(inp) > 0
    ensures var p := CalculateSavingsProjections(inp).value;
      DepositsValue(p.additionalMonthlyNeeded, inp.preRetirementReturnRate / 12.0, YearsToRetirement(inp) * 12)
        == p.shortfall
  {
    var p := CalculateSavingsProjections(inp).value;
    SinkingFundClosesGap(p.shortfall, YearsToRetirement(inp), inp.preRetirementReturnRate);
  }

  lemma {:induction false} DepositsValueMonotone(p: real, q: real, rate: real, k: nat)
    requires p <= q && rate >= -1.0
    ensures DepositsValue(p, rate, k) <= DepositsValue(q, rate, k)
    decreases k
  {
    if k > 0 {
      DepositsValueMonotone(p, q, rate, k - 1);
      MulMonotone(1.0 + rate, DepositsValue(p, rate, k - 1), DepositsValue(q, rate, k - 1));
    }
  }

  /**
   * Raising the monthly contribution, everything else fixed, never lowers the
   * total projected savings (for a positive salary, a non-negative match rate
   * and return, and retirement not yet past).
   */
  lemma ProjectedSavingsMonotoneInContribution(inp: RetirementInputs, more: real)
    requires inp.currentAnnualIncome > 0.0 && inp.employerMatchRate >= 0.0
    requires inp.preRetirementReturnRate >= 0.0 && YearsToRetirement(inp) >= 0
    requires inp.monthlyContribution <= more
    ensures CalculateSavingsProjections(inp).Ok?
    ensures CalculateSavingsProjections(inp.(monthlyContribution := more)).Ok?
    ensures CalculateSavingsProjections(inp).value.totalProjectedSavings
         <= CalculateSavingsProjections(inp.(monthlyContribution := more)).value.totalProjectedSavings
  {
    var inp' := inp.(monthlyContribution := more);
    ProjectionsDefined(inp);
    ProjectionsDefined(inp');
    TotalProjectedMonotone(inp, more);
    assert CalculateSavingsProjections(inp).value.totalProjectedSavings == TotalProjected(inp);
    assert CalculateSavingsProjections(inp').value.totalProjectedSavings == TotalProjected(inp');
  }

  lemma TotalProjectedMonotone(inp: RetirementInputs, more: real)
    requires inp.currentAnnualIncome > 0.0 && inp.employerMatchRate >= 0.0
    requires inp.preRetirementReturnRate >= 0.0 && YearsToRetirement(inp) >= 0
    requires inp.monthlyContribution <= more
    ensures GrowthToRetirement(inp).Ok?
    ensures TotalProjected(inp) <= TotalProjected(inp.(monthlyContribution := more))
  {
    var inp' := inp.(monthlyContribution := more);
    TotalProjectedOfUpdate(inp, more);
    GrowthIsPow(inp);
    EffectiveContributionMonotone(inp, more);
    ContributionsMonotone(EffectiveMonthlyContribution(inp) * 12.0, EffectiveMonthlyContribution(inp') * 12.0,
                          inp.preRetirementReturnRate, YearsToRetirement(inp), GrowthToRetirement(inp).value);
  }

  /**
   * Retiring later, everything else fixed, never lowers the total projected
   * savings: the years to retirement grow with the retirement age, and with
   * non-negative savings, contributions and return, more years of growth and
   * deposits never lose money.
   */
  lemma ProjectedSavingsMonotoneInRetirementAge(inp: RetirementInputs, later: int)
    requires inp.currentAnnualIncome > 0.0 && inp.monthlyContribution >= 0.0
    requires inp.employerMatchRate >= 0.0 && inp.employerMatchLimit >= 0.0
    requires inp.currentSavings >= 0.0 && inp.preRetirementReturnRate >= 0.0
    requires YearsToRetirement(inp) >= 0 && inp.retirementAge <= later
    ensures YearsToRetirement(inp) <= YearsToRetirement(inp.(retirementAge := later))
    ensures CalculateSavingsProjections(inp).Ok?
    ensures CalculateSavingsProjections(inp.(retirementAge := later)).Ok?
    ensures CalculateSavingsProjections(inp).value.totalProjectedSavings
         <= CalculateSavingsProjections(inp.(retirementAge := later)).value.totalProjectedSavings
  {
    var inp' := inp.(retirementAge := later);
    ProjectionsDefined(inp);
    ProjectionsDefined(inp');
    TotalProjectedGrowsWithYears(inp, later);
    assert CalculateSavingsProjections(inp).value.totalProjectedSavings == TotalProjected(inp);
    assert CalculateSavingsProjections(inp').value.totalProjectedSavings == TotalProjected(inp');
  }

  lemma TotalProjectedGrowsWithYears(inp: RetirementInputs, later: int)
    requires inp.currentAnnualIncome > 0.0 && inp.monthlyContribution >= 0.0
    requires inp.employerMatchRate >= 0.0 && inp.employerMatchLimit >= 0.0
    requires inp.currentSavings >= 0.0 && inp.preRetirementReturnRate >= 0.0
    requires YearsToRetirement(inp) >= 0 && inp.retirementAge <= later
    ensures GrowthToRetirement(inp).Ok? && GrowthToRetirement(inp.(retirementAge := later)).Ok?
    ensures TotalProjected(inp) <= TotalProjected(inp.(retirementAge := later))
  {
    var inp' := inp.(retirementAge := later);
    TotalIsAccumulated(inp);
    TotalIsAccumulated(inp');
    EffectiveAtLeastOwnContribution(inp);
    SameContributionWhenRetiringLater(inp, later);
    AccumulatedGrowsWithYears(inp.currentSavings, EffectiveMonthlyContribution(inp) * 12.0,
                              inp.preRetirementReturnRate, YearsToRetirement(inp), YearsToRetirement(inp'));
  }

  /** The retirement age plays no part in the contribution or its match. */
  lemma SameContributionWhenRetiringLater(inp: RetirementInputs, later: int)
    ensures EffectiveMonthlyContribution(inp.(retirementAge := later)) == EffectiveMonthlyContribution(inp)
  {
  }

  /** Savings compounded for `years` years plus the yearly deposits of `annual` over them. */
  function Accumulated(savings: real, annual: real, rate: real, years: nat): real {
    savings * Pow(1.0 + rate, years) + DepositsValue(annual, rate, years)
  }

  lemma TotalIsAccumulated(inp: RetirementInputs)
    requires YearsToRetirement(inp) >= 0
    ensures GrowthToRetirement(inp).Ok?
    ensures TotalProjected(inp) == Accumulated(inp.currentSavings, EffectiveMonthlyContribution(inp) * 12.0,
                                               inp.preRetirementReturnRate, YearsToRetirement(inp))
  {
    TotalMatchesDeposits(inp);
  }

  /** Savings compounded plus deposits never shrink as years are added, for non-negative amounts and rate. */
  lemma AccumulatedGrowsWithYears(savings: real, annual: real, rate: real, m: nat, n: nat)
    requires savings >= 0.0 && annual >= 0.0 && rate >= 0.0 && m <= n
    ensures Accumulated(savings, annual, rate, m) <= Accumulated(savings, annual, rate, n)
  {
    var pm, pn := Pow(1.0 + rate, m), Pow(1.0 + rate, n);
    PowGrowsWithExponent(1.0 + rate, m, n);
    MulMonotone(savings, pm, pn);
    DepositsGrowWithYears(annual, rate, m, n);
    assert savings * pm + DepositsValue(annual, rate, m) <= savings * pn + DepositsValue(annual, rate, n);
  }

  /** Deposits of a non-negative payment at a non-negative rate never shrink as periods are added. */
  lemma {:induction false} DepositsGrowWithYears(payment: real, rate: real, m: nat, n: nat)
    requires payment >= 0.0 && rate >= 0.0 && m <= n
    ensures 0.0 <= DepositsValue(payment, rate, m) <= DepositsValue(payment, rate, n)
    decreases n
  {
    if m < n {
      DepositsGrowWithYears(payment, rate, m, n - 1);
      var d := DepositsValue(payment, rate, n - 1);
      MulMonotone(d, 1.0, 1.0 + rate);
    } else if n > 0 {
      DepositsGrowWithYears(payment, rate, n - 1, n - 1);
      var d := DepositsValue(payment, rate, n - 1);
      MulMonotone(d, 0.0, 1.0 + rate);
    }
  }

  /** A larger yearly contribution grows to a larger value at a non-negative rate. */
  lemma ContributionsMonotone(annual: real, larger: real, rate: real, years: nat, growth: real)
    requires annual <= larger && rate >= 0.0 && growth == Pow(1.0 + rate, years)
    ensures ContributionsFutureValue(annual, rate, years, growth) <= ContributionsFutureValue(larger, rate, years, growth)
  {
    DepositsValueMonotone(annual, larger, rate, years);
    DepositsMatchContributions(annual, rate, years);
    DepositsMatchContributions(larger, rate, years);
  }

  /** Changing only the contribution keeps the growth factor and the grown savings. */
  lemma TotalProjectedOfUpdate(inp: RetirementInputs, more: real)
    requires YearsToRetirement(inp) >= 0
    ensures GrowthToRetirement(inp).Ok?
    ensures GrowthToRetirement(inp.(monthlyContribution := more)) == GrowthToRetirement(inp)
    ensures TotalProjected(inp.(monthlyContribution := more)) ==
      inp.currentSavings * GrowthToRetirement(inp).value
        + ContributionsFutureValue(EffectiveMonthlyContribution(inp.(monthlyContribution := more)) * 12.0,
            inp.preRetirementReturnRate, YearsToRetirement(inp), GrowthToRetirement(inp).value)
  {
  }

  lemma TotalMatchesDeposits(inp: RetirementInputs)
    requires YearsToRetirement(inp) >= 0
    ensures GrowthToRetirement(inp).Ok?
    ensures TotalProjected(inp) ==
      inp.currentSavings * Pow(1.0 + inp.preRetirementReturnRate, YearsToRetirement(inp))
        + DepositsValue(EffectiveMonthlyContribution(inp) * 12.0, inp.preRetirementReturnRate, YearsToRetirement(inp))
  {
    var ytr, pre := YearsToRetirement(inp), inp.preRetirementReturnRate;
    var annual := EffectiveMonthlyContribution(inp) * 12.0;
    var g := Pow(1.0 + pre, ytr);
    assert GrowthToRetirement(inp) == Ok(g);
    DepositsMatchContributions(annual, pre, ytr);
    assert TotalProjected(inp) == inp.currentSavings * g + ContributionsFutureValue(annual, pre, ytr, g);
  }
}
