/**
 * The calculation engine object (`RetirementCalculationEngine`): it holds
 * the inputs and, after a comprehensive calculation, the results of every
 * part of the plan in its `results` field.
 */
module PlanEngine {
  import opened Outcomes
  import opened Numeric
  import opened Engine
  import opened Rules
  import opened YearlyProjections
  import opened Sensitivity
  import opened MonteCarlo

  /** The number of Monte Carlo trials the comprehensive plan runs. */
  const PlanSimulations: int := 1000

  /** Everything the comprehensive plan reports; the calculation time is supplied by the caller. */
  datatype ComprehensivePlan = ComprehensivePlan(
    retirementNeeds: RetirementNeeds,
    savingsProjections: SavingsProjection,
    withdrawalStrategies: seq<WithdrawalStrategy>,
    sensitivityAnalysis: seq<VariableSweep>,
    monteCarloResults: MonteCarloOutcome,
    taxAnalysis: TaxAnalysis,
    yearlyProjections: seq<YearRecord>,
    calculationDate: int,
    inputParameters: RetirementInputs)

  /** The parts of a plan that are functions of the inputs. */
  ghost predicate PlanMatchesInputs(inp: RetirementInputs, startYear: int, p: ComprehensivePlan)
    requires CalculateSavingsProjections(inp).Ok?
  {
    && CalculateRetirementNeeds(inp).Ok?
    && p.retirementNeeds == CalculateRetirementNeeds(inp).value
    && p.savingsProjections == CalculateSavingsProjections(inp).value
    && AnalyzeWithdrawalStrategies(inp).Ok?
    && p.withdrawalStrategies == AnalyzeWithdrawalStrategies(inp).value
    && p.taxAnalysis == AnalyzeTaxImplications(inp)
    && p.yearlyProjections == Projection(inp, p.retirementNeeds.futureAnnualNeed, startYear)
    && p.inputParameters == inp
  }

  class RetirementCalculationEngine {
    const inputs: RetirementInputs
    /** `None` until a comprehensive plan has been calculated. */
    var results: Option<ComprehensivePlan>

    constructor(inputs: RetirementInputs)
      ensures this.inputs == inputs && results == None
    {
      this.inputs := inputs;
      results := None;
    }

    /**
     * Runs every calculation in the order of the source and stores the plan.
     * `draws` stands for the random sequences of the 1000 trials, `startYear`
     * for the current calendar year and `calculationDate` for the time of the
     * call. Raises exactly when the projection or some sensitivity variant
     * does; the stored results are then left as they were.
     */
    method CalculateComprehensivePlan(draws: seq<TrialDraws>, startYear: int, calculationDate: int)
      returns (r: Result<ComprehensivePlan>)
      requires YearsToRetirement(inputs) > 0 && RetirementYears(inputs) > 0 ==>
        DrawsFor(inputs, draws, PlanSimulations)
      modifies this
      ensures r.Ok? <==> SweepDefined(inputs)
      ensures r.Err? ==> r.error == ZeroDivisionError && results == old(results)
      ensures r.Ok? ==>
        && results == Some(r.value)
        && PlanMatchesInputs(inputs, startYear, r.value)
        && r.value.calculationDate == calculationDate
        && |r.value.sensitivityAnalysis| == |Variables|
        && (forall i :: 0 <= i < |Variables| ==> SweptRows(inputs, Variables[i], r.value.sensitivityAnalysis[i]))
        && (r.value.monteCarloResults.InvalidTimeParameters? <==>
             YearsToRetirement(inputs) <= 0 || RetirementYears(inputs) <= 0)
        && (r.value.monteCarloResults.Simulated? ==>
             && SimulatedFrom(inputs, draws, PlanSimulations, r.value.monteCarloResults)
             && 0.0 <= r.value.monteCarloResults.successRate <= 100.0)
    {
      var needs := CalculateRetirementNeeds(inputs);
      if needs.Err? {
        return Err(needs.error);
      }
      var projections := CalculateSavingsProjections(inputs);
      if projections.Err? {
        return Err(projections.error);
      }
      var strategies := AnalyzeWithdrawalStrategies(inputs);
      var sensitivity := PerformSensitivityAnalysis(inputs);
      if sensitivity.Err? {
        return Err(sensitivity.error);
      }
      var monteCarlo := RunMonteCarloSimulation(inputs, draws, PlanSimulations);
      var tax := AnalyzeTaxImplications(inputs);
      var yearly := GenerateYearlyProjections(inputs, startYear);
      var plan := ComprehensivePlan(needs.value, projections.value, strategies.value, sensitivity.value,
                                    monteCarlo.value, tax, yearly.value, calculationDate, inputs);
      results := Some(plan);
      return Ok(plan);
    }
  }

  /**
   * A stored plan is internally consistent: shortfall and surplus split the
   * gap between the corpus and the projection, the yearly rows follow the
   * timeline and balance chain, and the bond ladder pays the inflated need.
   */
  lemma PlanIsConsistent(inp: RetirementInputs, startYear: int, p: ComprehensivePlan)
    requires CalculateSavingsProjections(inp).Ok? && PlanMatchesInputs(inp, startYear, p)
    ensures ShortfallSurplusSplit(p.savingsProjections)
    ensures p.savingsProjections.corpusNeeded == p.retirementNeeds.retirementCorpusNeeded
    ensures Timeline(inp, startYear, inp.currentAge, p.yearlyProjections)
    ensures BalanceChain(inp, p.yearlyProjections)
    ensures |p.yearlyProjections| <= MaxRows(inp, inp.currentAge)
    ensures p.withdrawalStrategies[2].annualIncome == p.retirementNeeds.futureAnnualNeed
  {
    ProjectionShape(inp, p.retirementNeeds.futureAnnualNeed, startYear);
  }
}
