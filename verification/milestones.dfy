/**
 * Age-based savings milestones (`generate_retirement_milestones`): a fixed
 * table of (age, multiple of salary) rules, closed by the retirement age at
 * ten times salary; a rule is kept when its age lies after today and no
 * later than retirement.
 */
module Milestones {

  datatype Priority = High | Medium

  datatype Milestone = Milestone(
    age: int,
    targetAmount: real,
    yearsToMilestone: int,
    multiplier: real,
    priority: Priority)

  /** The rules in the order the source lists them. */
  function MilestoneRules(retirementAge: int): seq<(int, real)> {
    [(25, 0.5), (30, 1.0), (35, 2.0), (40, 3.0), (45, 4.0),
     (50, 6.0), (55, 7.0), (60, 8.0), (retirementAge, 10.0)]
  }

  predicate InWindow(currentAge: int, retirementAge: int, age: int) {
    currentAge < age <= retirementAge
  }

  function MilestoneFor(currentAge: int, currentIncome: real, rule: (int, real)): Milestone {
    var years := rule.0 - currentAge;
    Milestone(rule.0, currentIncome * rule.1, years, rule.1, if years <= 5 then High else Medium)
  }

  /** The milestones of the rules in window, in rule order. */
  function MilestonesFrom(currentAge: int, retirementAge: int, currentIncome: real, rules: seq<(int, real)>)
    : seq<Milestone>
  {
    if rules == [] then []
    else
      var earlier := MilestonesFrom(currentAge, retirementAge, currentIncome, rules[..|rules| - 1]);
      var rule := rules[|rules| - 1];
      if InWindow(currentAge, retirementAge, rule.0) then earlier + [MilestoneFor(currentAge, currentIncome, rule)]
      else earlier
  }

  /** The loop of the source: one pass over the rules, appending each one in window. */
  method GenerateRetirementMilestones(currentAge: int, retirementAge: int, currentIncome: real)
    returns (milestones: seq<Milestone>)
    ensures milestones == MilestonesFrom(currentAge, retirementAge, currentIncome, MilestoneRules(retirementAge))
  {
    var rules := MilestoneRules(retirementAge);
    milestones := [];
    for i := 0 to |rules|
      invariant milestones == MilestonesFrom(currentAge, retirementAge, currentIncome, rules[..i])
    {
      assert rules[..i + 1][..i] == rules[..i];
      var rule := rules[i];
      if InWindow(currentAge, retirementAge, rule.0) {
        milestones := milestones + [MilestoneFor(currentAge, currentIncome, rule)];
      }
    }
    assert rules[..|rules|] == rules;
  }

  /**
   * Every milestone lies in the window, is `multiplier` times salary, counts
   * the years to it, and is high priority exactly when at most five years away.
   */
  lemma {:induction false} MilestonesInWindow(currentAge: int, retirementAge: int, currentIncome: real,
                                              rules: seq<(int, real)>)
    ensures var ms := MilestonesFrom(currentAge, retirementAge, currentIncome, rules);
      && |ms| <= |rules|
      && forall i :: 0 <= i < |ms| ==>
        && InWindow(currentAge, retirementAge, ms[i].age)
        && ms[i].yearsToMilestone == ms[i].age - currentAge > 0
        && ms[i].targetAmount == currentIncome * ms[i].multiplier
        && (ms[i].priority == High <==> ms[i].yearsToMilestone <= 5)
        && exists j :: 0 <= j < |rules| && rules[j] == (ms[i].age, ms[i].multiplier)
  {
    if rules != [] {
      var prefix := rules[..|rules| - 1];
      MilestonesInWindow(currentAge, retirementAge, currentIncome, prefix);
      var ms := MilestonesFrom(currentAge, retirementAge, currentIncome, rules);
      var earlier := MilestonesFrom(currentAge, retirementAge, currentIncome, prefix);
      forall i | 0 <= i < |ms|
        ensures exists j :: 0 <= j < |rules| && rules[j] == (ms[i].age, ms[i].multiplier)
      {
        if i < |earlier| {
          assert ms[i] == earlier[i];
          var j :| 0 <= j < |prefix| && prefix[j] == (earlier[i].age, earlier[i].multiplier);
          assert rules[j] == prefix[j];
        } else {
          assert rules[|rules| - 1] == (ms[i].age, ms[i].multiplier);
        }
      }
    }
  }

  /** Every rule in the window yields its milestone. */
  lemma {:induction false} MilestonesComplete(currentAge: int, retirementAge: int, currentIncome: real,
                                              rules: seq<(int, real)>, j: int)
    requires 0 <= j < |rules| && InWindow(currentAge, retirementAge, rules[j].0)
    ensures exists i ::
      (0 <= i < |MilestonesFrom(currentAge, retirementAge, currentIncome, rules)| &&
       MilestonesFrom(currentAge, retirementAge, currentIncome, rules)[i] == MilestoneFor(currentAge, currentIncome, rules[j]))
  {
    var ms := MilestonesFrom(currentAge, retirementAge, currentIncome, rules);
    var prefix := rules[..|rules| - 1];
    if j == |rules| - 1 {
      var earlier := MilestonesFrom(currentAge, retirementAge, currentIncome, prefix);
      assert ms == earlier + [MilestoneFor(currentAge, currentIncome, rules[j])];
      assert ms[|earlier|] == MilestoneFor(currentAge, currentIncome, rules[j]);
    } else {
      assert prefix[j] == rules[j];
      MilestonesComplete(currentAge, retirementAge, currentIncome, prefix, j);
      var earlier := MilestonesFrom(currentAge, retirementAge, currentIncome, prefix);
      var i :| 0 <= i < |earlier| && earlier[i] == MilestoneFor(currentAge, currentIncome, prefix[j]);
      assert ms[..|earlier|] == earlier;
      assert ms[i] == earlier[i];

    }
  }

  predicate StrictlyAscending(rules: seq<(int, real)>) {
    forall i, j :: 0 <= i < j < |rules| ==> rules[i].0 < rules[j].0
  }

  /** Filtering keeps rule order: ascending rule ages give ascending milestone ages. */
  lemma {:induction false} MilestonesFollowRuleOrder(currentAge: int, retirementAge: int, currentIncome: real,
                                                     rules: seq<(int, real)>)
    requires StrictlyAscending(rules)
    ensures var ms := MilestonesFrom(currentAge, retirementAge, currentIncome, rules);
      forall i, j :: 0 <= i < j < |ms| ==> ms[i].age < ms[j].age
  {
    if rules != [] {
      var prefix := rules[..|rules| - 1];
      assert StrictlyAscending(prefix) by {
        forall i, j | 0 <= i < j < |prefix| ensures prefix[i].0 < prefix[j].0 {
          assert prefix[i] == rules[i] && prefix[j] == rules[j];
        }
      }
      MilestonesFollowRuleOrder(currentAge, retirementAge, currentIncome, prefix);
      MilestonesInWindow(currentAge, retirementAge, currentIncome, prefix);
      var ms := MilestonesFrom(currentAge, retirementAge, currentIncome, rules);
      var earlier := MilestonesFrom(currentAge, retirementAge, currentIncome, prefix);
      forall i, j | 0 <= i < j < |ms| ensures ms[i].age < ms[j].age {
        if j < |earlier| {
          assert ms[i] == earlier[i] && ms[j] == earlier[j];
        } else {
          assert ms[i] == earlier[i];
          var k :| 0 <= k < |prefix| && prefix[k] == (earlier[i].age, earlier[i].multiplier);
          assert rules[k] == prefix[k];
        }
      }
    }
  }

  /**
   * The generated milestones come in order of age, the retirement milestone
   * (ten times salary) is last whenever retirement lies ahead, and there are
   * at most nine.
   */
  lemma RetirementMilestonesOrdered(currentAge: int, retirementAge: int, currentIncome: real)
    ensures var ms := MilestonesFrom(currentAge, retirementAge, currentIncome, MilestoneRules(retirementAge));
      && |ms| <= 9
      && (forall i, j :: 0 <= i < j < |ms| ==> ms[i].age <= ms[j].age)
      && (currentAge < retirementAge ==>
            |ms| > 0 && ms[|ms| - 1] == MilestoneFor(currentAge, currentIncome, (retirementAge, 10.0)))
  {
    var rules := MilestoneRules(retirementAge);
    var fixed := rules[..8];
    assert StrictlyAscending(fixed);
    MilestonesFollowRuleOrder(currentAge, retirementAge, currentIncome, fixed);
    MilestonesInWindow(currentAge, retirementAge, currentIncome, fixed);
    MilestonesInWindow(currentAge, retirementAge, currentIncome, rules);
    assert rules[..|rules| - 1] == fixed;
  }
}
