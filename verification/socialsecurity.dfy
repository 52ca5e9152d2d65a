/**
 * The simplified Social Security estimate (`calculate_social_security_estimate`):
 * average monthly earnings over the last ten years, the three-tier primary
 * insurance amount with the 2024 bend points, and the adjustment for
 * claiming before or after the full retirement age of 67.
 */
module SocialSecurity {
  import opened Outcomes
  import opened Numeric

  const FirstBendPoint: real := 1174.0
  const SecondBendPoint: real := 7078.0
  const FullRetirementAge: int := 67

  /** The earnings the average is taken over: the last ten, or all when fewer. */
  function LastTen(earnings: seq<real>): (xs: seq<real>)
    ensures |xs| == if |earnings| <= 10 then |earnings| else 10
    ensures xs == earnings[|earnings| - |xs|..]
  {
    if |earnings| <= 10 then earnings else earnings[|earnings| - 10..]
  }

  /** Primary insurance amount: 90% up to the first bend point, 32% up to the second, 15% above. */
  function PrimaryInsuranceAmount(aime: real): real {
    if aime <= FirstBendPoint then aime * 0.9
    else if aime <= SecondBendPoint then FirstBendPoint * 0.9 + (aime - FirstBendPoint) * 0.32
    else FirstBendPoint * 0.9 + (SecondBendPoint - FirstBendPoint) * 0.32 + (aime - SecondBendPoint) * 0.15
  }

  /** Early claiming loses 0.55% per month early, at most 25%. */
  function EarlyReduction(retirementAge: int): (reduction: real)
    requires retirementAge < FullRetirementAge
    ensures 0.0 < reduction <= 0.25
  {
    Min(0.25, (((FullRetirementAge - retirementAge) * 12) as real) * 0.0055)
  }

  /** The benefit at the claiming age: reduced before 67, plus 8% per year after it. */
  function AdjustForClaimingAge(pia: real, retirementAge: int): real {
    if retirementAge < FullRetirementAge then pia * (1.0 - EarlyReduction(retirementAge))
    else if retirementAge > FullRetirementAge then pia * (1.0 + ((retirementAge - FullRetirementAge) as real) * 0.08)
    else pia
  }

  datatype BenefitEstimate = BenefitEstimate(
    monthlyBenefit: real,
    annualBenefit: real,
    fullRetirementAge: int,
    aime: real)

  /**
   * The estimate; `birthYear` is accepted but not used. An empty earnings
   * history divides by zero.
   */
  function CalculateSocialSecurityEstimate(birthYear: int, annualEarnings: seq<real>, retirementAge: int)
    : (r: Result<BenefitEstimate>)
    ensures r.Err? <==> |annualEarnings| == 0
    ensures r.Err? ==> r.error == ZeroDivisionError
    ensures r.Ok? ==>
      && IsMonthlyAverage(r.value.aime, Sum(LastTen(annualEarnings)), |LastTen(annualEarnings)|)
      && r.value.monthlyBenefit == AdjustForClaimingAge(PrimaryInsuranceAmount(r.value.aime), retirementAge)
      && r.value.annualBenefit == r.value.monthlyBenefit * 12.0
      && r.value.fullRetirementAge == FullRetirementAge
  {
    var recent := LastTen(annualEarnings);
    if |recent| == 0 then Err(ZeroDivisionError)
    else
      var aime := MonthlyAverage(Sum(recent), |recent|);
      var monthly := AdjustForClaimingAge(PrimaryInsuranceAmount(aime), retirementAge);
      Ok(BenefitEstimate(monthly, monthly * 12.0, FullRetirementAge, aime))
  }

  /** Twelve months of `aime` in each of `years` years add up to `total`. */
  predicate IsMonthlyAverage(aime: real, total: real, years: nat) {
    aime * 12.0 * (years as real) == total
  }

  /** `total / years / 12`: the average yearly earnings spread over the months of a year. */
  function MonthlyAverage(total: real, years: nat): (aime: real)
    requires years > 0
    ensures IsMonthlyAverage(aime, total, years)
  {
    var n := years as real;
    var average := total / n;
    assert (average / 12.0) * 12.0 == average;
    assert average * n == total;
    average / 12.0
  }

  /**
   * More earnings never lower the amount, and each extra dollar of average
   * earnings adds between 15 and 90 cents; so the tiers meet at both bend
   * points and the amount has no jumps.
   */
  lemma PrimaryInsuranceAmountMonotone(a: real, b: real)
    requires a <= b
    ensures PrimaryInsuranceAmount(a) <= PrimaryInsuranceAmount(b)
    ensures PrimaryInsuranceAmount(b) - PrimaryInsuranceAmount(a) <= (b - a) * 0.9
    ensures PrimaryInsuranceAmount(b) - PrimaryInsuranceAmount(a) >= (b - a) * 0.15
  {
  }

  /**
   * Claiming early keeps at least 75% of the amount; claiming late adds 8%
   * per year of delay; claiming at 67 pays the amount itself.
   */
  lemma ClaimingAgeAdjustment(pia: real, retirementAge: int)
    requires pia >= 0.0
    ensures retirementAge < FullRetirementAge ==>
      pia * 0.75 <= AdjustForClaimingAge(pia, retirementAge) < pia || pia == 0.0
    ensures retirementAge > FullRetirementAge ==>
      AdjustForClaimingAge(pia, retirementAge) == pia + pia * 0.08 * ((retirementAge - FullRetirementAge) as real)
    ensures retirementAge == FullRetirementAge ==> AdjustForClaimingAge(pia, retirementAge) == pia
    ensures retirementAge <= 63 ==> AdjustForClaimingAge(pia, retirementAge) == pia * 0.75
  {
    if retirementAge < FullRetirementAge {
      var red := EarlyReduction(retirementAge);
      MulMonotone(pia, 0.75, 1.0 - red);
      if pia > 0.0 {
        assert pia * (1.0 - red) == pia - pia * red;
        assert pia * red > 0.0;
      }
    }
  }
}
