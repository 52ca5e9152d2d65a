/**
 * The retirement goal tracker (`RetirementGoalTracker`): age milestones
 * measured in multiples of salary followed by the final corpus goal, and
 * the feasibility of a savings goal at an assumed 7% return.
 */
module Goals {
  import opened Outcomes
  import opened Numeric
  import opened Engine

  datatype GoalKind = Milestone(multiplier: int) | FinalCorpus

  /** One generated goal; priority 1 is the more urgent. */
  datatype Goal = Goal(kind: GoalKind, targetAmount: real, targetAge: int, yearsToGoal: int, priority: int)

  /** The ages of the milestone rules: fixed ages, then the retirement age itself. */
  function MilestoneAges(retirementAge: int): (ages: seq<int>)
    ensures |ages| == 8 && ages[7] == retirementAge
  {
    [30, 35, 40, 45, 50, 55, 60, retirementAge]
  }

  /** Salary multiples paired with the milestone ages. */
  const Multipliers: seq<int> := [1, 2, 3, 4, 6, 7, 8, 10]

  /** A rule applies when its age is after today and no later than retirement. */
  predicate InWindow(inp: RetirementInputs, age: int) {
    inp.currentAge < age <= inp.retirementAge
  }

  /** `current_annual_income * multiplier`. */
  function SalaryMultiple(inp: RetirementInputs, multiplier: int): real {
    inp.currentAnnualIncome * (multiplier as real)
  }

  /** The milestone goal of rule `i`. */
  function MilestoneGoal(inp: RetirementInputs, i: nat): Goal
    requires i < 8
  {
    var age := MilestoneAges(inp.retirementAge)[i];
    var years := age - inp.currentAge;
    Goal(Milestone(Multipliers[i]), SalaryMultiple(inp, Multipliers[i]), age, years, if years <= 5 then 1 else 2)
  }

  /** The milestone goals of the applicable rules among the first `n`, in rule order. */
  function MilestonesUpTo(inp: RetirementInputs, n: nat): seq<Goal>
    requires n <= 8
  {
    if n == 0 then []
    else if InWindow(inp, MilestoneAges(inp.retirementAge)[n - 1])
    then MilestonesUpTo(inp, n - 1) + [MilestoneGoal(inp, n - 1)]
    else MilestonesUpTo(inp, n - 1)
  }

  lemma MilestonesUpToStep(inp: RetirementInputs, i: nat)
    requires i < 8
    ensures MilestonesUpTo(inp, i + 1) ==
      if InWindow(inp, MilestoneAges(inp.retirementAge)[i]) then MilestonesUpTo(inp, i) + [MilestoneGoal(inp, i)]
      else MilestonesUpTo(inp, i)
  {
  }

  /** The closing goal: the whole corpus, due at retirement, always priority 1. */
  function FinalGoal(inp: RetirementInputs, needs: RetirementNeeds): Goal {
    Goal(FinalCorpus, needs.retirementCorpusNeeded, inp.retirementAge, YearsToRetirement(inp), 1)
  }

  /**
   * The append loop of the source over the eight rules, then the corpus
   * goal; raises exactly when the needs calculation does.
   */
  method CreateMilestoneGoals(inp: RetirementInputs) returns (r: Result<seq<Goal>>)
    ensures r.Err? <==> CalculateRetirementNeeds(inp).Err?
    ensures r.Ok? ==> r.value == MilestonesUpTo(inp, 8) + [FinalGoal(inp, CalculateRetirementNeeds(inp).value)]
  {
    var ages := MilestoneAges(inp.retirementAge);
    var milestones: seq<Goal> := [];
    var i := 0;
    while i < 8
      invariant 0 <= i <= 8
      invariant milestones == MilestonesUpTo(inp, i)
    {
      var age := ages[i];
      if age > inp.currentAge && age <= inp.retirementAge {
        var yearsToGoal := age - inp.currentAge;
        var priority := if yearsToGoal <= 5 then 1 else 2;
        milestones := milestones + [Goal(Milestone(Multipliers[i]), SalaryMultiple(inp, Multipliers[i]),
                                         age, yearsToGoal, priority)];
      }
      MilestonesUpToStep(inp, i);
      i := i + 1;
    }
    var needs := CalculateRetirementNeeds(inp);
    if needs.Err? {
      return Err(needs.error);
    }
    milestones := milestones + [Goal(FinalCorpus, needs.value.retirementCorpusNeeded, inp.retirementAge,
                                     inp.retirementAge - inp.currentAge, 1)];
    return Ok(milestones);
  }

  /**
   * Every milestone lies in the window, is measured from today, is priority
   * 1 exactly when it is at most five years away, and is one of the rules.
   */
  lemma {:induction false} MilestonesInWindow(inp: RetirementInputs, n: nat)
    requires n <= 8
    ensures |MilestonesUpTo(inp, n)| <= n
    ensures forall g :: g in MilestonesUpTo(inp, n) ==>
      && InWindow(inp, g.targetAge)
      && g.yearsToGoal == g.targetAge - inp.currentAge > 0
      && (g.priority == 1 <==> g.yearsToGoal <= 5)
      && (g.priority == 1 || g.priority == 2)
      && exists i :: 0 <= i < n && g == MilestoneGoal(inp, i)
  {
    if n > 0 {
      MilestonesInWindow(inp, n - 1);
    }
  }

  /** Every applicable rule among the first `n` yields its milestone. */
  lemma {:induction false} MilestonesComplete(inp: RetirementInputs, n: nat)
    requires n <= 8
    ensures forall i :: 0 <= i < n && InWindow(inp, MilestoneAges(inp.retirementAge)[i]) ==>
      MilestoneGoal(inp, i) in MilestonesUpTo(inp, n)
  {
    if n > 0 {
      MilestonesComplete(inp, n - 1);
    }
  }

  /**
   * The rules are kept in their order: the milestones' positions follow the
   * rule indices, so their multipliers never decrease.
   */
  lemma {:induction false} MilestonesInRuleOrder(inp: RetirementInputs, n: nat)
    requires n <= 8
    ensures forall a, b :: 0 <= a < b < |MilestonesUpTo(inp, n)| ==>
      MilestonesUpTo(inp, n)[a].kind.Milestone? && MilestonesUpTo(inp, n)[b].kind.Milestone? &&
      MilestonesUpTo(inp, n)[a].kind.multiplier < MilestonesUpTo(inp, n)[b].kind.multiplier
    ensures forall g :: g in MilestonesUpTo(inp, n) ==> g.kind.Milestone? && g.kind.multiplier <= Multipliers[if n == 0 then 0 else n - 1]
  {
    if n == 0 {
      assert MilestonesUpTo(inp, n) == [];
    } else {
      MilestonesInRuleOrder(inp, n - 1);
      var prev := MilestonesUpTo(inp, n - 1);
      forall g | g in prev
        ensures g.kind.Milestone? && g.kind.multiplier < Multipliers[n - 1]
      {
        assert n - 1 > 0;
      }
      if InWindow(inp, MilestoneAges(inp.retirementAge)[n - 1]) {
        var all := prev + [MilestoneGoal(inp, n - 1)];
        forall a, b | 0 <= a < b < |all|
          ensures all[a].kind.Milestone? && all[b].kind.Milestone? && all[a].kind.multiplier < all[b].kind.multiplier
        {
          assert all[a] == prev[a] && prev[a] in prev;
          if b < |prev| {
            assert all[b] == prev[b];
          }
        }
        assert MilestonesUpTo(inp, n) == all;
        assert forall g :: g in all ==> g.kind.Milestone? && g.kind.multiplier <= Multipliers[n - 1];
      } else {
        assert MilestonesUpTo(inp, n) == prev;
      }
    }
  }

  /**
   * The goal list ends with the corpus goal, which is priority 1 and due at
   * retirement; every goal before it is a milestone.
   */
  lemma FinalCorpusGoalLast(goals: seq<Goal>, inp: RetirementInputs)
    requires CalculateRetirementNeeds(inp).Ok?
    requires goals == MilestonesUpTo(inp, 8) + [FinalGoal(inp, CalculateRetirementNeeds(inp).value)]
    ensures |goals| <= 9
    ensures goals[|goals| - 1].kind == FinalCorpus && goals[|goals| - 1].priority == 1
    ensures goals[|goals| - 1].targetAmount == CalculateRetirementNeeds(inp).value.retirementCorpusNeeded
    ensures forall i :: 0 <= i < |goals| - 1 ==> goals[i].kind.Milestone? && InWindow(inp, goals[i].targetAge)
  {
    MilestonesInWindow(inp, 8);
    MilestonesInRuleOrder(inp, 8);
    var ms := MilestonesUpTo(inp, 8);
    forall i | 0 <= i < |goals| - 1
      ensures goals[i].kind.Milestone? && InWindow(inp, goals[i].targetAge)
    {
      assert goals[i] == ms[i];
      assert ms[i] in ms;
    }
  }

  // ---------------------------------------------------------------------
  // Goal feasibility (`calculate_goal_feasibility`)
  // ---------------------------------------------------------------------

  /** The annual return the feasibility check assumes. */
  const AssumedReturn: real := 0.07

  datatype Feasibility =
    | NoTimeRemaining
    | Assessed(feasible: bool, projectedAmount: real, gap: real, additionalMonthlyNeeded: real,
               successProbability: real)

  /** `(1 + 0.07) ** years`. */
  function AssumedGrowth(years: nat): real {
    Pow(1.0 + AssumedReturn, years)
  }

  /** Savings compounded at the assumed return plus yearly deposits of twelve monthly contributions. */
  function ProjectedAmount(years: nat, currentSavings: real, monthlyContribution: real): real {
    currentSavings * AssumedGrowth(years)
      + ContributionsFutureValue(monthlyContribution * 12.0, AssumedReturn, years, AssumedGrowth(years))
  }

  /**
   * Not feasible without time. Otherwise the goal is feasible exactly when
   * nothing is missing; the gap is what is missing and never negative; an
   * extra monthly amount is asked for exactly when something is missing;
   * and the success probability is the projected share of the goal, capped
   * at 100 (100 for a goal that is not positive).
   */
  function CalculateGoalFeasibility(goalAmount: real, yearsToGoal: int, currentSavings: real,
                                    monthlyContribution: real): (r: Feasibility)
    ensures r.NoTimeRemaining? <==> yearsToGoal <= 0
    ensures r.Assessed? ==>
      && (r.feasible <==> r.gap == 0.0)
      && (r.feasible <==> r.projectedAmount >= goalAmount)
      && r.gap >= 0.0 && r.gap >= goalAmount - r.projectedAmount
      && (r.additionalMonthlyNeeded > 0.0 <==> !r.feasible)
      && (r.feasible ==> r.additionalMonthlyNeeded == 0.0)
      && r.successProbability <= 100.0
      && (goalAmount <= 0.0 || r.feasible ==> r.successProbability == 100.0)
      && (goalAmount > 0.0 ==> r.successProbability * goalAmount <= r.projectedAmount * 100.0)
  {
    if yearsToGoal <= 0 then NoTimeRemaining
    else
      var projected := ProjectedAmount(yearsToGoal, currentSavings, monthlyContribution);
      var gap := goalAmount - projected;
      var additional :=
        if gap > 0.0 then
          SinkingFundClosesGap(gap, yearsToGoal, AssumedReturn);
          SinkingFundMonthly(gap, yearsToGoal, AssumedReturn).value
        else 0.0;
      var probability := if goalAmount > 0.0 then Min(projected / goalAmount * 100.0, 100.0) else 100.0;
      if goalAmount > 0.0 then
        ShareBound(projected, goalAmount);
        Assessed(projected >= goalAmount, projected, Max(gap, 0.0), additional, probability)
      else Assessed(projected >= goalAmount, projected, Max(gap, 0.0), additional, probability)
  }

  lemma ShareBound(projected: real, goal: real)
    requires goal > 0.0
    ensures Min(projected / goal * 100.0, 100.0) * goal <= projected * 100.0
    ensures projected >= goal ==> projected / goal * 100.0 >= 100.0
  {
    var q := projected / goal;
    assert q * goal == projected;
    if projected >= goal {
      assert q >= 1.0;
    }
    MulMonotone(goal, Min(q * 100.0, 100.0), q * 100.0);
  }

  /**
   * The projected amount is the reference accumulation: the savings grown
   * for the whole horizon plus one deposit of the yearly contribution at the
   * end of each year.
   */
  lemma ProjectedAmountMatchesDeposits(years: nat, currentSavings: real, monthlyContribution: real)
    ensures ProjectedAmount(years, currentSavings, monthlyContribution)
         == currentSavings * AssumedGrowth(years) + DepositsValue(monthlyContribution * 12.0, AssumedReturn, years)
  {
    DepositsMatchContributions(monthlyContribution * 12.0, AssumedReturn, years);
  }

  /**
   * When the goal is not met, depositing the extra monthly amount every
   * month of the horizon at the monthly rate accumulates exactly the gap.
   */
  lemma AdditionalMonthlyClosesGoalGap(goalAmount: real, yearsToGoal: int, currentSavings: real,
                                        monthlyContribution: real)
    requires CalculateGoalFeasibility(goalAmount, yearsToGoal, currentSavings, monthlyContribution).Assessed?
    ensures var f := CalculateGoalFeasibility(goalAmount, yearsToGoal, currentSavings, monthlyContribution);
      DepositsValue(f.additionalMonthlyNeeded, AssumedReturn / 12.0, yearsToGoal * 12) == f.gap
  {
    var f := CalculateGoalFeasibility(goalAmount, yearsToGoal, currentSavings, monthlyContribution);
    if f.gap > 0.0 {
      SinkingFundClosesGap(f.gap, yearsToGoal, AssumedReturn);
    } else {
      DepositsWithZeroPayment(AssumedReturn / 12.0, yearsToGoal * 12);
    }
  }

  lemma {:induction false} DepositsWithZeroPayment(rate: real, k: nat)
    ensures DepositsValue(0.0, rate, k) == 0.0
    decreases k
  {
    if k > 0 {
      DepositsWithZeroPayment(rate, k - 1);
    }
  }
}
