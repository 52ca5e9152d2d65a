/**
 * Retirement risk factors (`assess_retirement_risk_factors`): six scores
 * between 1 and 9, higher meaning riskier, read off threshold bands of the
 * profile's figures and the market volatility.
 */
module RiskFactors {
  import opened Outcomes

  /** A profile value, or the default when the key is missing (`dict.get`). */
  function Lookup(profile: map<string, real>, key: string, default: real): real {
    if key in profile then profile[key] else default
  }

  const RiskKeys: set<string> :=
    {"time_horizon", "savings_rate", "return_assumptions", "market_conditions", "inflation", "longevity"}

  /** Less time to retirement is riskier. */
  function TimeHorizonRisk(yearsToRetirement: real): int {
    if yearsToRetirement < 5.0 then 9
    else if yearsToRetirement < 10.0 then 7
    else if yearsToRetirement < 20.0 then 4
    else 2
  }

  /** A lower savings rate (in percent) is riskier. */
  function SavingsRateRisk(savingsRate: real): int {
    if savingsRate < 5.0 then 9
    else if savingsRate < 10.0 then 6
    else if savingsRate < 15.0 then 3
    else 1
  }

  /** A more optimistic assumed return (in percent) is riskier. */
  function ReturnAssumptionRisk(investmentReturn: real): int {
    if investmentReturn > 10.0 then 8
    else if investmentReturn > 8.0 then 5
    else if investmentReturn > 6.0 then 3
    else 2
  }

  /** Higher inflation (in percent) is riskier. */
  function InflationRisk(inflationRate: real): int {
    if inflationRate > 4.0 then 7
    else if inflationRate > 3.0 then 4
    else 2
  }

  /** A longer retirement is riskier. */
  function LongevityRisk(retirementYears: real): int {
    if retirementYears > 30.0 then 7
    else if retirementYears > 25.0 then 5
    else if retirementYears > 20.0 then 3
    else 2
  }

  /**
   * Market risk: without market data (missing or empty) a moderate 5;
   * otherwise by the `volatility` entry, which defaults to medium.
   */
  function MarketRisk(market: Option<map<string, string>>): int {
    if market.Some? && market.value != map[] then
      var volatility := if "volatility" in market.value then market.value["volatility"] else "medium";
      if volatility == "high" then 8 else if volatility == "medium" then 5 else 3
    else 5
  }

  /** The source fills the result dictionary one factor at a time, in this order. */
  method AssessRetirementRiskFactors(profile: map<string, real>, market: Option<map<string, string>>)
    returns (factors: map<string, int>)
    ensures factors.Keys == RiskKeys
    ensures forall k :: k in factors ==> 1 <= factors[k] <= 9
    ensures factors["time_horizon"] ==
      TimeHorizonRisk(Lookup(profile, "retirement_age", 65.0) - Lookup(profile, "current_age", 35.0))
    ensures factors["savings_rate"] == SavingsRateRisk(Lookup(profile, "savings_rate_percentage", 10.0))
    ensures factors["return_assumptions"] ==
      ReturnAssumptionRisk(Lookup(profile, "pre_retirement_return_rate", 0.07) * 100.0)
    ensures factors["market_conditions"] == MarketRisk(market)
    ensures factors["inflation"] == InflationRisk(Lookup(profile, "inflation_rate", 0.03) * 100.0)
    ensures factors["longevity"] ==
      LongevityRisk(Lookup(profile, "life_expectancy", 85.0) - Lookup(profile, "retirement_age", 65.0))
  {
    var currentAge := Lookup(profile, "current_age", 35.0);
    var retirementAge := Lookup(profile, "retirement_age", 65.0);
    var savingsRate := Lookup(profile, "savings_rate_percentage", 10.0);
    var investmentReturn := Lookup(profile, "pre_retirement_return_rate", 0.07) * 100.0;
    factors := map[];
    factors := factors["time_horizon" := TimeHorizonRisk(retirementAge - currentAge)];
    factors := factors["savings_rate" := SavingsRateRisk(savingsRate)];
    factors := factors["return_assumptions" := ReturnAssumptionRisk(investmentReturn)];
    factors := factors["market_conditions" := MarketRisk(market)];
    var inflationRate := Lookup(profile, "inflation_rate", 0.03) * 100.0;
    factors := factors["inflation" := InflationRisk(inflationRate)];
    var lifeExpectancy := Lookup(profile, "life_expectancy", 85.0);
    factors := factors["longevity" := LongevityRisk(lifeExpectancy - retirementAge)];
  }

  /**
   * Each band moves one way only: more years to retirement, a higher
   * savings rate never raise their risk; a higher assumed return, higher
   * inflation and a longer retirement never lower theirs.
   */
  lemma RiskBandsMonotone(a: real, b: real)
    requires a <= b
    ensures TimeHorizonRisk(b) <= TimeHorizonRisk(a)
    ensures SavingsRateRisk(b) <= SavingsRateRisk(a)
    ensures ReturnAssumptionRisk(a) <= ReturnAssumptionRisk(b)
    ensures InflationRisk(a) <= InflationRisk(b)
    ensures LongevityRisk(a) <= LongevityRisk(b)
  {
  }
}
