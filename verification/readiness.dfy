/**
 * The retirement readiness score (`calculate_retirement_readiness_score`):
 * five components with maxima 20, 25, 25, 20 and 10 are added up to a total
 * out of 100, graded A to F, and turned into advice by
 * `generate_score_based_recommendations`.
 */
module Readiness {
  import opened Outcomes

  /** The five score components, in the order the source fills them. */
  datatype Factor = TimeFactor | SavingsRateFactor | CurrentProgress | PlanFeasibility | Diversification

  const AllFactors: set<Factor> := {TimeFactor, SavingsRateFactor, CurrentProgress, PlanFeasibility, Diversification}

  /** The most points a component can give. */
  function MaxPoints(f: Factor): int {
    match f
    case TimeFactor => 20
    case SavingsRateFactor => 25
    case CurrentProgress => 25
    case PlanFeasibility => 20
    case Diversification => 10
  }

  datatype Component = Component(score: int, max: int)

  datatype Grade = A | B | C | D | F

  function Assessment(g: Grade): string {
    match g
    case A => "Excellent"
    case B => "Good"
    case C => "Fair"
    case D => "Needs Improvement"
    case F => "Critical"
  }

  datatype Readiness = Readiness(
    totalScore: int,
    maxScore: int,
    percentage: real,
    grade: Grade,
    components: map<Factor, Component>,
    recommendations: seq<Advice>)

  function Lookup(m: map<string, real>, key: string, default: real): real {
    if key in m then m[key] else default
  }

  function Max(a: real, b: real): real {
    if a >= b then a else b
  }

  /** Time to retirement: 20 points from 30 years on, down to none under 5. */
  function TimeScore(yearsToRetirement: real): int {
    if yearsToRetirement >= 30.0 then 20
    else if yearsToRetirement >= 20.0 then 15
    else if yearsToRetirement >= 10.0 then 10
    else if yearsToRetirement >= 5.0 then 5
    else 0
  }

  /** The share of income saved; zero when the income is not positive. */
  function SavingsRateOf(monthlyContribution: real, annualIncome: real): real {
    if annualIncome > 0.0 then monthlyContribution * 12.0 / annualIncome else 0.0
  }

  /** Savings rate: 25 points from 15% on, down to none under 5%. */
  function SavingsScore(savingsRate: real): int {
    if savingsRate >= 0.15 then 25
    else if savingsRate >= 0.12 then 20
    else if savingsRate >= 0.10 then 15
    else if savingsRate >= 0.08 then 10
    else if savingsRate >= 0.05 then 5
    else 0
  }

  /** The benchmark: half a salary saved for every year of age past 25. */
  function ExpectedSavings(annualIncome: real, currentAge: real): real {
    annualIncome * Max(0.0, (currentAge - 25.0) * 0.5)
  }

  function ProgressBand(progressRatio: real): int {
    if progressRatio >= 1.2 then 25
    else if progressRatio >= 1.0 then 20
    else if progressRatio >= 0.8 then 15
    else if progressRatio >= 0.6 then 10
    else if progressRatio >= 0.4 then 5
    else 0
  }

  /**
   * Progress against the benchmark; without a positive benchmark, 10 points
   * for any savings at all.
   */
  function ProgressScore(currentSavings: real, expectedSavings: real): int {
    if expectedSavings > 0.0 then ProgressBand(currentSavings / expectedSavings)
    else if currentSavings > 0.0 then 10
    else 0
  }

  function FeasibilityBand(shortfallRatio: real): int {
    if shortfallRatio <= 0.1 then 15
    else if shortfallRatio <= 0.2 then 10
    else if shortfallRatio <= 0.4 then 5
    else 0
  }

  /**
   * Plan feasibility from the savings projections: 20 points without a
   * shortfall, bands of the shortfall's share of the corpus otherwise, and 10
   * when there are no projections (missing or empty). A shortfall against a
   * corpus of zero divides by zero.
   */
  function FeasibilityScore(projections: Option<map<string, real>>): Result<int> {
    if projections.Some? && projections.value != map[] then
      var shortfall := Lookup(projections.value, "shortfall", 0.0);
      var corpusNeeded := Lookup(projections.value, "corpus_needed", 1.0);
      if shortfall <= 0.0 then Ok(20)
      else if corpusNeeded == 0.0 then Err(ZeroDivisionError)
      else Ok(FeasibilityBand(shortfall / corpusNeeded))
    else Ok(10)
  }

  /** A base of 5, 3 more with an employer match, and 2 assumed for account variety. */
  function DiversificationScore(employerMatchRate: real): int {
    5 + (if employerMatchRate > 0.0 then 3 else 0) + 2
  }

  function GradeOf(percentage: real): Grade {
    if percentage >= 90.0 then A
    else if percentage >= 80.0 then B
    else if percentage >= 70.0 then C
    else if percentage >= 60.0 then D
    else F
  }

  /** Every component stays within its maximum. */
  lemma ComponentBounds(years: real, rate: real, savings: real, expected: real, matchRate: real,
                        projections: Option<map<string, real>>)
    ensures 0 <= TimeScore(years) <= MaxPoints(TimeFactor)
    ensures 0 <= SavingsScore(rate) <= MaxPoints(SavingsRateFactor)
    ensures 0 <= ProgressScore(savings, expected) <= MaxPoints(CurrentProgress)
    ensures FeasibilityScore(projections).Ok? ==> 0 <= FeasibilityScore(projections).value <= MaxPoints(PlanFeasibility)
    ensures 7 <= DiversificationScore(matchRate) <= MaxPoints(Diversification)
    ensures FeasibilityScore(projections).Err? <==>
      projections.Some? && projections.value != map[] &&
      Lookup(projections.value, "shortfall", 0.0) > 0.0 && Lookup(projections.value, "corpus_needed", 1.0) == 0.0
  {
  }

  /** Grades in order, F lowest. */
  function GradeRank(g: Grade): int {
    match g
    case F => 0
    case D => 1
    case C => 2
    case B => 3
    case A => 4
  }

  /**
   * More time, a higher savings rate, more progress and a better grade
   * percentage never score lower; a larger shortfall share never scores higher.
   */
  lemma ScoreBandsMonotone(x: real, y: real)
    requires x <= y
    ensures TimeScore(x) <= TimeScore(y)
    ensures SavingsScore(x) <= SavingsScore(y)
    ensures ProgressBand(x) <= ProgressBand(y)
    ensures FeasibilityBand(y) <= FeasibilityBand(x)
    ensures GradeRank(GradeOf(x)) <= GradeRank(GradeOf(y))
  {
  }

  /** Against the same benchmark, more savings never lower the progress score. */
  lemma ProgressMonotone(less: real, more: real, expectedSavings: real)
    requires less <= more
    ensures ProgressScore(less, expectedSavings) <= ProgressScore(more, expectedSavings)
  {
    if expectedSavings > 0.0 {
      DivideMonotone(less, more, expectedSavings);
      ScoreBandsMonotone(less / expectedSavings, more / expectedSavings);
    }
  }

  lemma DivideMonotone(x: real, y: real, d: real)
    requires x <= y && d > 0.0
    ensures x / d <= y / d
  {
    assert y / d - x / d == (y - x) / d;
  }

  /**
   * The diversification component is 10 with an employer match and 7
   * without, so its advice is given exactly when there is no match.
   */
  lemma DiversificationAdviceWithoutMatch(employerMatchRate: real)
    ensures DiversificationScore(employerMatchRate) < Threshold(Diversification) <==> employerMatchRate <= 0.0
  {
  }

  /**
   * The score is computed as the source does, one component after another,
   * each recorded with its maximum and added to the running total; only a
   * shortfall against a zero corpus fails.
   */
  method CalculateRetirementReadinessScore(profile: map<string, real>, projections: Option<map<string, real>>)
    returns (r: Result<Readiness>)
    ensures r.Err? <==> FeasibilityScore(projections).Err?
    ensures r.Err? ==> r.error == ZeroDivisionError
    ensures r.Ok? ==>
      var years := Lookup(profile, "retirement_age", 65.0) - Lookup(profile, "current_age", 35.0);
      var rate := SavingsRateOf(Lookup(profile, "monthly_contribution", 0.0),
                                Lookup(profile, "current_annual_income", 1.0));
      var expected := ExpectedSavings(Lookup(profile, "current_annual_income", 1.0), Lookup(profile, "current_age", 35.0));
      var progress := ProgressScore(Lookup(profile, "current_savings", 0.0), expected);
      var diversification := DiversificationScore(Lookup(profile, "employer_match_rate", 0.0));
      && r.value.components.Keys == AllFactors
      && r.value.components[TimeFactor] == Component(TimeScore(years), 20)
      && r.value.components[SavingsRateFactor] == Component(SavingsScore(rate), 25)
      && r.value.components[CurrentProgress] == Component(progress, 25)
      && r.value.components[PlanFeasibility] == Component(FeasibilityScore(projections).value, 20)
      && r.value.components[Diversification] == Component(diversification, 10)
    ensures r.Ok? ==>
      && HasAllFactors(r.value.components)
      && (forall f :: f in r.value.components ==>
            r.value.components[f].max == MaxPoints(f) && 0 <= r.value.components[f].score <= MaxPoints(f))
      && r.value.totalScore == Total(r.value.components)
      && 7 <= r.value.totalScore <= r.value.maxScore == 100
      && r.value.percentage == r.value.totalScore as real
      && r.value.grade == GradeOf(r.value.percentage)
      && (forall a :: a in r.value.recommendations <==> Triggered(r.value.components, FactorOf(a)))
  {
    var components: map<Factor, Component> := map[];
    var totalScore := 0;
    var maxScore := 100;

    var yearsToRetirement := Lookup(profile, "retirement_age", 65.0) - Lookup(profile, "current_age", 35.0);
    var timeScore := TimeScore(yearsToRetirement);
    components := components[TimeFactor := Component(timeScore, 20)];
    totalScore := totalScore + timeScore;

    var savingsRate := SavingsRateOf(Lookup(profile, "monthly_contribution", 0.0),
                                     Lookup(profile, "current_annual_income", 1.0));
    var savingsScore := SavingsScore(savingsRate);
    components := components[SavingsRateFactor := Component(savingsScore, 25)];
    totalScore := totalScore + savingsScore;

    var expected := ExpectedSavings(Lookup(profile, "current_annual_income", 1.0), Lookup(profile, "current_age", 35.0));
    var progressScore := ProgressScore(Lookup(profile, "current_savings", 0.0), expected);
    components := components[CurrentProgress := Component(progressScore, 25)];
    totalScore := totalScore + progressScore;

    var feasibility := FeasibilityScore(projections);
    if feasibility.Err? {
      return Err(feasibility.error);
    }
    var feasibilityScore := feasibility.value;
    components := components[PlanFeasibility := Component(feasibilityScore, 20)];
    totalScore := totalScore + feasibilityScore;

    var diversificationScore := DiversificationScore(Lookup(profile, "employer_match_rate", 0.0));
    components := components[Diversification := Component(diversificationScore, 10)];
    totalScore := totalScore + diversificationScore;

    ComponentBounds(yearsToRetirement, savingsRate, Lookup(profile, "current_savings", 0.0), expected,
                    Lookup(profile, "employer_match_rate", 0.0), projections);
    ListedFactorsComplete(components);
    assert totalScore == Total(components);
    var percentage := Percentage(totalScore, maxScore);
    var grade := GradeOf(percentage);
    var recommendations := GenerateScoreBasedRecommendations(components);
    r := Ok(Readiness(totalScore, maxScore, percentage, grade, components, recommendations));
  }

  /** Every component has an entry. */
  predicate HasAllFactors(components: map<Factor, Component>) {
    forall f: Factor :: f in components
  }

  /** A map keyed by the listed components has every component. */
  lemma ListedFactorsComplete(components: map<Factor, Component>)
    requires components.Keys == AllFactors
    ensures HasAllFactors(components)
  {
    forall f: Factor ensures f in components {
      match f
      case TimeFactor =>
      case SavingsRateFactor =>
      case CurrentProgress =>
      case PlanFeasibility =>
      case Diversification =>
    }
  }

  /** The score as a percentage of the maximum; out of 100 it is the score itself. */
  function Percentage(totalScore: int, maxScore: int): (p: real)
    requires maxScore > 0
    ensures maxScore == 100 ==> p == totalScore as real
  {
    (totalScore as real / maxScore as real) * 100.0
  }

  /** The sum of the five component scores. */
  function Total(components: map<Factor, Component>): int
    requires HasAllFactors(components)
  {
    components[TimeFactor].score + components[SavingsRateFactor].score + components[CurrentProgress].score +
    components[PlanFeasibility].score + components[Diversification].score
  }

  /** Each piece of advice, in the order the source gives them. */
  datatype Advice =
    | AggressiveSavings | WorkExtraYears
    | IncreaseContributions | ReviewBudget | AutomaticIncreases
    | BuildFoundation | CatchUpContributions
    | ReviseGoals | PartTimeWork | ReduceRetirementExpenses
    | MaximizeMatch | DiversifyAccounts | ReviewAllocation

  function Message(a: Advice): string {
    match a
    case AggressiveSavings => "Consider aggressive savings strategies due to limited time horizon"
    case WorkExtraYears => "Evaluate if working a few extra years is feasible"
    case IncreaseContributions => "Increase monthly retirement contributions"
    case ReviewBudget => "Review budget for potential expense reductions"
    case AutomaticIncreases => "Consider automatic contribution increases"
    case BuildFoundation => "Focus on building retirement savings foundation"
    case CatchUpContributions => "Consider catch-up contributions if eligible"
    case ReviseGoals => "Revise retirement goals or timeline"
    case PartTimeWork => "Consider part-time work in early retirement"
    case ReduceRetirementExpenses => "Explore ways to reduce retirement expenses"
    case MaximizeMatch => "Maximize employer 401(k) matching"
    case DiversifyAccounts => "Consider diversifying across account types (traditional, Roth)"
    case ReviewAllocation => "Review investment allocation for age-appropriate risk"
  }

  /** The component a piece of advice answers. */
  function FactorOf(a: Advice): Factor {
    match a
    case AggressiveSavings | WorkExtraYears => TimeFactor
    case IncreaseContributions | ReviewBudget | AutomaticIncreases => SavingsRateFactor
    case BuildFoundation | CatchUpContributions => CurrentProgress
    case ReviseGoals | PartTimeWork | ReduceRetirementExpenses => PlanFeasibility
    case MaximizeMatch | DiversifyAccounts | ReviewAllocation => Diversification
  }

  /** Position of a piece of advice in the source's order. */
  function Rank(a: Advice): int {
    match a
    case AggressiveSavings => 0
    case WorkExtraYears => 1
    case IncreaseContributions => 2
    case ReviewBudget => 3
    case AutomaticIncreases => 4
    case BuildFoundation => 5
    case CatchUpContributions => 6
    case ReviseGoals => 7
    case PartTimeWork => 8
    case ReduceRetirementExpenses => 9
    case MaximizeMatch => 10
    case DiversifyAccounts => 11
    case ReviewAllocation => 12
  }

  /** The score below which a component draws its advice. */
  function Threshold(f: Factor): int {
    match f
    case TimeFactor => 10
    case SavingsRateFactor => 15
    case CurrentProgress => 15
    case PlanFeasibility => 15
    case Diversification => 8
  }

  predicate Triggered(components: map<Factor, Component>, f: Factor)
    requires HasAllFactors(components)
  {
    components[f].score < Threshold(f)
  }

  /** The advice for one component. */
  function GroupAdvice(f: Factor): seq<Advice> {
    match f
    case TimeFactor => [AggressiveSavings, WorkExtraYears]
    case SavingsRateFactor => [IncreaseContributions, ReviewBudget, AutomaticIncreases]
    case CurrentProgress => [BuildFoundation, CatchUpContributions]
    case PlanFeasibility => [ReviseGoals, PartTimeWork, ReduceRetirementExpenses]
    case Diversification => [MaximizeMatch, DiversifyAccounts, ReviewAllocation]
  }

  predicate InRankOrder(advice: seq<Advice>) {
    forall i, j :: 0 <= i < j < |advice| ==> Rank(advice[i]) < Rank(advice[j])
  }

  /**
   * A component's advice is exactly the advice that names it, listed in
   * rank order, and it ranks after the advice of every earlier component.
   */
  lemma GroupAdviceFacts(f: Factor)
    ensures forall a :: a in GroupAdvice(f) <==> FactorOf(a) == f
    ensures InRankOrder(GroupAdvice(f))
  {
    match f
    case TimeFactor =>
    case SavingsRateFactor =>
    case CurrentProgress =>
    case PlanFeasibility =>
    case Diversification =>
  }

  /** Position of a component in the source's order. */
  function FactorRank(f: Factor): int {
    match f
    case TimeFactor => 0
    case SavingsRateFactor => 1
    case CurrentProgress => 2
    case PlanFeasibility => 3
    case Diversification => 4
  }

  /** Advice for an earlier component always ranks first. */
  lemma RankFollowsFactor(a: Advice, b: Advice)
    requires FactorRank(FactorOf(a)) < FactorRank(FactorOf(b))
    ensures Rank(a) < Rank(b)
  {
  }

  /**
   * Appends one component's advice when it scores below its threshold; what
   * was already there stays in front.
   */
  method AppendGroup(components: map<Factor, Component>, f: Factor, advice: seq<Advice>)
    returns (next: seq<Advice>)
    requires HasAllFactors(components)
    ensures forall a :: a in next <==> a in advice || (FactorOf(a) == f && Triggered(components, f))
    ensures InRankOrder(advice) && (forall a :: a in advice ==> FactorRank(FactorOf(a)) < FactorRank(f)) ==>
      InRankOrder(next)
  {
    GroupAdviceFacts(f);
    forall a, b | FactorRank(FactorOf(a)) < FactorRank(FactorOf(b)) ensures Rank(a) < Rank(b) {
      RankFollowsFactor(a, b);
    }
    if components[f].score < Threshold(f) {
      next := advice + GroupAdvice(f);
    } else {
      next := advice;
    }
  }

  /**
   * Advice for each component scoring below its threshold, grouped by
   * component in the source's order: a piece of advice is given exactly when
   * its component is below threshold, never twice, and in rank order.
   */
  method GenerateScoreBasedRecommendations(components: map<Factor, Component>) returns (recommendations: seq<Advice>)
    requires HasAllFactors(components)
    ensures forall a :: a in recommendations <==> Triggered(components, FactorOf(a))
    ensures InRankOrder(recommendations)
  {
    recommendations := [];
    recommendations := AppendGroup(components, TimeFactor, recommendations);
    recommendations := AppendGroup(components, SavingsRateFactor, recommendations);
    recommendations := AppendGroup(components, CurrentProgress, recommendations);
    recommendations := AppendGroup(components, PlanFeasibility, recommendations);
    recommendations := AppendGroup(components, Diversification, recommendations);
  }
}
