/**
 * Lookup rules of the retirement engine: the simplified income-tax bracket
 * table, the tax recommendations, the tax analysis built on them, the
 * Monte Carlo risk bands and the fixed catalogue of withdrawal strategies.
 */
module Rules {
  import opened Outcomes
  import opened Numeric
  import opened Engine

  // ---------------------------------------------------------------------
  // Tax brackets (`_estimate_tax_rate`)
  // ---------------------------------------------------------------------

  /** Inclusive upper bounds of the first six brackets (2024, single filer). */
  const BracketLimits: seq<real> := [11000.0, 44725.0, 95375.0, 182050.0, 231250.0, 578125.0]

  /** The marginal rate of each of the seven brackets. */
  const BracketRates: seq<real> := [0.10, 0.12, 0.22, 0.24, 0.32, 0.35, 0.37]

  /** Step function from income to the rate of the bracket it falls in. */
  function EstimateTaxRate(income: real): real
  {
    if income <= 11000.0 then 0.10
    else if income <= 44725.0 then 0.12
    else if income <= 95375.0 then 0.22
    else if income <= 182050.0 then 0.24
    else if income <= 231250.0 then 0.32
    else if income <= 578125.0 then 0.35
    else 0.37
  }

  /** Income falls in bracket `i` when it is above the previous bound and at most its own. */
  predicate InBracket(income: real, i: int)
    requires 0 <= i < |BracketRates|
  {
    && (i == 0 || income > BracketLimits[i - 1])
    && (i == |BracketLimits| || income <= BracketLimits[i])
  }

  /**
   * The step function agrees with the table: the rate is the one of bracket
   * `i` exactly when the income falls in bracket `i`, every income falls in
   * some bracket, and so only the seven listed rates are ever returned.
   */
  lemma TaxRateMatchesTable(income: real)
    ensures forall i :: 0 <= i < |BracketRates| ==>
      (InBracket(income, i) <==> EstimateTaxRate(income) == BracketRates[i])
    ensures exists i :: 0 <= i < |BracketRates| && InBracket(income, i)
    ensures EstimateTaxRate(income) in BracketRates
  {
    var rate := EstimateTaxRate(income);
    var k :=
      if income <= 11000.0 then 0
      else if income <= 44725.0 then 1
      else if income <= 95375.0 then 2
      else if income <= 182050.0 then 3
      else if income <= 231250.0 then 4
      else if income <= 578125.0 then 5
      else 6;
    assert InBracket(income, k) && rate == BracketRates[k];
  }

  /** A higher income never gets a lower rate. */
  lemma TaxRateMonotone(a: real, b: real)
    requires a <= b
    ensures EstimateTaxRate(a) <= EstimateTaxRate(b)
  {
  }

  // ---------------------------------------------------------------------
  // Tax recommendations (`_get_tax_recommendations`)
  // ---------------------------------------------------------------------

  /** The items of tax advice the source can give. */
  datatype TaxTip =
    | MaximizeTraditional401k
    | TraditionalIraDeduction
    | TaxDeferredStrategies
    | Roth401kNow
    | RothIraConversions
    | MixTraditionalRoth
    | BalancedApproach
    | TaxDiversification
    | MaximizeEmployerMatch
    | HsaTripleAdvantage
    | TaxLossHarvesting

  /** The text the source gives for each item. */
  function Text(t: TaxTip): string {
    match t
    case MaximizeTraditional401k => "Consider maximizing traditional 401(k) contributions to reduce current taxes"
    case TraditionalIraDeduction => "Traditional IRA contributions may provide tax deductions"
    case TaxDeferredStrategies => "Consider tax-deferred investment strategies"
    case Roth401kNow => "Consider Roth 401(k) contributions to pay taxes now at lower rate"
    case RothIraConversions => "Roth IRA conversions may be beneficial"
    case MixTraditionalRoth => "Mix of traditional and Roth accounts provides tax flexibility"
    case BalancedApproach => "Consider a balanced approach with both traditional and Roth accounts"
    case TaxDiversification => "Tax diversification provides flexibility in retirement"
    case MaximizeEmployerMatch => "Maximize employer matching contributions"
    case HsaTripleAdvantage => "Consider HSA contributions for triple tax advantage"
    case TaxLossHarvesting => "Review tax-loss harvesting opportunities in taxable accounts"
  }

  const TraditionalAdvice: seq<TaxTip> := [MaximizeTraditional401k, TraditionalIraDeduction, TaxDeferredStrategies]

  const RothAdvice: seq<TaxTip> := [Roth401kNow, RothIraConversions, MixTraditionalRoth]

  const BalancedAdvice: seq<TaxTip> := [BalancedApproach, TaxDiversification]

  const UniversalAdvice: seq<TaxTip> := [MaximizeEmployerMatch, HsaTripleAdvantage, TaxLossHarvesting]

  /**
   * Advice chosen by comparing today's rate with the retirement rate,
   * followed by the three universal items.
   */
  function TaxRecommendations(currentRate: real, retirementRate: real): (r: seq<TaxTip>)
    ensures |r| == if currentRate == retirementRate then 5 else 6
    ensures r[|r| - 3..] == UniversalAdvice
    ensures TraditionalAdvice[0] in r <==> currentRate > retirementRate
    ensures RothAdvice[0] in r <==> retirementRate > currentRate
    ensures BalancedAdvice[0] in r <==> currentRate == retirementRate
  {
    var first :=
      if currentRate > retirementRate then TraditionalAdvice
      else if retirementRate > currentRate then RothAdvice
      else BalancedAdvice;
    var r := first + UniversalAdvice;
    assert r[0] == first[0];
    r
  }

  // ---------------------------------------------------------------------
  // Tax analysis (`analyze_tax_implications`)
  // ---------------------------------------------------------------------

  datatype TaxAnalysis = TaxAnalysis(
    currentTaxRate: real,
    retirementTaxRate: real,
    annualContributionTaxSavings: real,
    annualRetirementTaxBurden: real,
    taxRateDifference: real,
    recommendations: seq<TaxTip>)

  /**
   * Rates of today's income and of the retirement income, the tax saved on
   * this year's contributions, the tax on retirement income of which 85% of
   * Social Security is taxable, and the recommendations.
   */
  function AnalyzeTaxImplications(inp: RetirementInputs): (r: TaxAnalysis)
    ensures r.currentTaxRate == EstimateTaxRate(inp.currentAnnualIncome)
    ensures r.retirementTaxRate == EstimateTaxRate(inp.currentAnnualIncome * inp.desiredRetirementIncomeRatio)
    ensures r.taxRateDifference == r.retirementTaxRate - r.currentTaxRate
    ensures r.recommendations == TaxRecommendations(r.currentTaxRate, r.retirementTaxRate)
  {
    var retirementIncome := inp.currentAnnualIncome * inp.desiredRetirementIncomeRatio;
    var current := EstimateTaxRate(inp.currentAnnualIncome);
    var retirement := EstimateTaxRate(retirementIncome);
    TaxAnalysis(
      current, retirement,
      EffectiveMonthlyContribution(inp) * 12.0 * current,
      (retirementIncome - inp.estimatedSocialSecurity * 0.85) * retirement,
      retirement - current,
      TaxRecommendations(current, retirement))
  }

  /**
   * Replacing at most all of a non-negative income in retirement never puts
   * the retiree in a higher bracket, so Roth-first advice is never given.
   */
  lemma NoRothAdviceWhenIncomeFalls(inp: RetirementInputs)
    requires inp.currentAnnualIncome >= 0.0
    requires 0.0 <= inp.desiredRetirementIncomeRatio <= 1.0
    ensures AnalyzeTaxImplications(inp).retirementTaxRate <= AnalyzeTaxImplications(inp).currentTaxRate
    ensures RothAdvice[0] !in AnalyzeTaxImplications(inp).recommendations
  {
    var income := inp.currentAnnualIncome;
    var retired := income * inp.desiredRetirementIncomeRatio;
    ScaledDown(income, inp.desiredRetirementIncomeRatio);
    TaxRateMonotone(retired, income);
  }

  lemma ScaledDown(x: real, k: real)
    requires x >= 0.0 && 0.0 <= k <= 1.0
    ensures x * k <= x
  {
    MulMonotone(x, k, 1.0);
  }

  // ---------------------------------------------------------------------
  // Risk bands (`_assess_risk_level`)
  // ---------------------------------------------------------------------

  datatype RiskLevel = Low | Medium | High | VeryHigh

  /** Ranking used to compare levels: 0 for low up to 3 for very high. */
  function Severity(level: RiskLevel): nat {
    match level
    case Low => 0
    case Medium => 1
    case High => 2
    case VeryHigh => 3
  }

  /** Risk level of a Monte Carlo success rate (in percent). */
  function AssessRiskLevel(successRate: real): (r: RiskLevel)
    ensures r == Low <==> successRate >= 90.0
    ensures r == Medium <==> 75.0 <= successRate < 90.0
    ensures r == High <==> 60.0 <= successRate < 75.0
    ensures r == VeryHigh <==> successRate < 60.0
  {
    if successRate >= 90.0 then Low
    else if successRate >= 75.0 then Medium
    else if successRate >= 60.0 then High
    else VeryHigh
  }

  /** A higher success rate never gives a more severe risk level. */
  lemma RiskLevelMonotone(a: real, b: real)
    requires a <= b
    ensures Severity(AssessRiskLevel(b)) <= Severity(AssessRiskLevel(a))
  {
  }

  // ---------------------------------------------------------------------
  // Withdrawal strategies (`analyze_withdrawal_strategies`)
  // ---------------------------------------------------------------------

  /** One bucket of the bucket strategy: share of the portfolio, horizon in years. */
  datatype Bucket = Bucket(name: string, percentage: int, years: int, investments: string)

  datatype WithdrawalStrategy =
    | FourPercentRule(initialWithdrawal: real, successRate: int, sustainabilityYears: int)
    | DynamicWithdrawal(initialWithdrawalRate: real, successRate: int)
    | BondLadder(requiredCorpus: real, annualIncome: real, successRate: int)
    | BucketStrategy(allocation: seq<Bucket>, successRate: int)

  const Buckets: seq<Bucket> := [
    Bucket("short_term", 20, 5, "Cash, CDs"),
    Bucket("medium_term", 30, 10, "Bonds, Conservative funds"),
    Bucket("long_term", 50, 20, "Stocks, Growth funds")]

  /**
   * The four strategies in catalogue order. Only the first and third depend
   * on the plan: 4% of the needed corpus, and a bond ladder costing 10% more
   * than the corpus and paying the inflated annual need. Raises exactly when
   * the needs calculation does.
   */
  function AnalyzeWithdrawalStrategies(inp: RetirementInputs): (r: Result<seq<WithdrawalStrategy>>)
    ensures r.Err? <==> CalculateRetirementNeeds(inp).Err?
    ensures r.Ok? ==>
      && |r.value| == 4
      && r.value[0].FourPercentRule? && r.value[1].DynamicWithdrawal?
      && r.value[2].BondLadder? && r.value[3].BucketStrategy?
    ensures r.Ok? ==>
      var corpus := CalculateRetirementNeeds(inp).value.retirementCorpusNeeded;
      && r.value[0].initialWithdrawal == r.value[1].initialWithdrawalRate * corpus
      && r.value[2].requiredCorpus == corpus + corpus * 0.1
      && r.value[2].annualIncome == CalculateRetirementNeeds(inp).value.futureAnnualNeed
  {
    match CalculateRetirementNeeds(inp)
    case Err(e) => Err(e)
    case Ok(needs) =>
      var corpus := needs.retirementCorpusNeeded;
      Ok([
        FourPercentRule(corpus * 0.04, 95, 30),
        DynamicWithdrawal(0.04, 98),
        BondLadder(corpus * 1.1, needs.futureAnnualNeed, 90),
        BucketStrategy(Buckets, 92)])
  }
}
