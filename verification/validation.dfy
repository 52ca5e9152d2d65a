/**
 * Input validation (`validate_retirement_inputs`): errors for missing or
 * non-positive required figures and for ages out of order, warnings for
 * figures that are possible but implausible.
 */
module Validation {

  datatype ValidationError =
    | FieldRequired(field: Field)
    | RetirementNotAfterCurrent
    | LifeNotAfterRetirement

  datatype Warning =
    | ShortTimeToRetirement
    | ShortRetirementPeriod
    | PreReturnUnrealistic
    | PostReturnUnrealistic
    | InflationUnrealistic
    | SavingsRateTooHigh
    | SavingsRateTooLow
    | MatchRateTooHigh
    | MatchLimitTooHigh

  /** The figures the checks read from the input dictionary; entries under any other key are never read. */
  datatype Field =
    | CurrentAge
    | RetirementAge
    | LifeExpectancy
    | CurrentAnnualIncome
    | PreRetirementReturnRate
    | PostRetirementReturnRate
    | InflationRate
    | MonthlyContribution
    | EmployerMatchRate
    | EmployerMatchLimit

  /** The dictionary key each figure is stored under. */
  function Key(f: Field): string {
    match f
    case CurrentAge => "current_age"
    case RetirementAge => "retirement_age"
    case LifeExpectancy => "life_expectancy"
    case CurrentAnnualIncome => "current_annual_income"
    case PreRetirementReturnRate => "pre_retirement_return_rate"
    case PostRetirementReturnRate => "post_retirement_return_rate"
    case InflationRate => "inflation_rate"
    case MonthlyContribution => "monthly_contribution"
    case EmployerMatchRate => "employer_match_rate"
    case EmployerMatchLimit => "employer_match_limit"
  }

  const RequiredFields: seq<Field> := [CurrentAge, RetirementAge, LifeExpectancy, CurrentAnnualIncome]

  function Lookup(inputs: map<Field, real>, key: Field, default: real): real {
    if key in inputs then inputs[key] else default
  }

  /** Python truthiness of `inputs.get(key)`: present and non-zero. */
  predicate Truthy(inputs: map<Field, real>, key: Field) {
    key in inputs && inputs[key] != 0.0
  }

  /** A required field passes when present and positive. */
  predicate Positive(inputs: map<Field, real>, key: Field) {
    key in inputs && inputs[key] > 0.0
  }

  predicate AgesChecked(inputs: map<Field, real>, earlier: Field, later: Field) {
    Truthy(inputs, earlier) && Truthy(inputs, later)
  }

  /** The share of income saved, when both figures are positive. */
  function SavingsRate(inputs: map<Field, real>): real
    requires Lookup(inputs, CurrentAnnualIncome, 1.0) > 0.0
  {
    Lookup(inputs, MonthlyContribution, 0.0) * 12.0 / Lookup(inputs, CurrentAnnualIncome, 1.0)
  }

  predicate SavingsRateChecked(inputs: map<Field, real>) {
    Lookup(inputs, MonthlyContribution, 0.0) > 0.0 && Lookup(inputs, CurrentAnnualIncome, 1.0) > 0.0
  }

  predicate OutOfRange(x: real, hi: real) {
    x < 0.0 || x > hi
  }

  /** All four required figures are present and positive. */
  predicate AllRequiredPositive(inputs: map<Field, real>) {
    Positive(inputs, CurrentAge) && Positive(inputs, RetirementAge) &&
    Positive(inputs, LifeExpectancy) && Positive(inputs, CurrentAnnualIncome)
  }

  /** The first loop of the source: one error per required figure that is missing or not positive. */
  method CheckRequiredFields(inputs: map<Field, real>) returns (errors: seq<ValidationError>)
    ensures forall e :: e in errors ==> e.FieldRequired?
    ensures forall f :: FieldRequired(f) in errors <==> f in RequiredFields && !Positive(inputs, f)
    ensures |errors| <= |RequiredFields|
    ensures errors == [] <==> AllRequiredPositive(inputs)
  {
    errors := [];
    for i := 0 to |RequiredFields|
      invariant |errors| <= i
      invariant forall e :: e in errors ==> e.FieldRequired?
      invariant forall f :: FieldRequired(f) in errors <==> f in RequiredFields[..i] && !Positive(inputs, f)
      invariant (forall f :: f in RequiredFields[..i] ==> Positive(inputs, f)) ==> errors == []
    {
      var field := RequiredFields[i];
      if !(field in inputs && inputs[field] > 0.0) {
        errors := errors + [FieldRequired(field)];
      }
      assert RequiredFields[..i + 1] == RequiredFields[..i] + [field];
    }
    assert RequiredFields[..|RequiredFields|] == RequiredFields;
    if AllRequiredPositive(inputs) {
      forall f | f in RequiredFields ensures Positive(inputs, f) {
      }
    } else {
      var f :| f in RequiredFields && !Positive(inputs, f);
      assert FieldRequired(f) in errors;
    }
  }

  /** The savings-rate check: only when both figures are positive, too high above half, too low under a tenth. */
  method CheckSavingsRate(inputs: map<Field, real>) returns (warnings: seq<Warning>)
    ensures forall w :: w in warnings ==> w.SavingsRateTooHigh? || w.SavingsRateTooLow?
    ensures SavingsRateTooHigh in warnings <==> SavingsRateChecked(inputs) && SavingsRate(inputs) > 0.5
    ensures SavingsRateTooLow in warnings <==> SavingsRateChecked(inputs) && SavingsRate(inputs) < 0.1
  {
    warnings := [];
    var monthlyContribution := Lookup(inputs, MonthlyContribution, 0.0);
    var annualIncome := Lookup(inputs, CurrentAnnualIncome, 1.0);
    if monthlyContribution > 0.0 && annualIncome > 0.0 {
      var savingsRate := SavingsRate(inputs);
      if savingsRate > 0.5 {
        warnings := [SavingsRateTooHigh];
      } else if savingsRate < 0.1 {
        warnings := [SavingsRateTooLow];
      }
    }
  }

  /** The range checks on the two return rates and on inflation. */
  method CheckRateRanges(inputs: map<Field, real>) returns (warnings: seq<Warning>)
    ensures forall w :: w in warnings ==> w.PreReturnUnrealistic? || w.PostReturnUnrealistic? || w.InflationUnrealistic?
    ensures PreReturnUnrealistic in warnings <==> OutOfRange(Lookup(inputs, PreRetirementReturnRate, 0.0), 0.15)
    ensures PostReturnUnrealistic in warnings <==> OutOfRange(Lookup(inputs, PostRetirementReturnRate, 0.0), 0.12)
    ensures InflationUnrealistic in warnings <==> OutOfRange(Lookup(inputs, InflationRate, 0.0), 0.08)
  {
    warnings := [];
    var preReturn := Lookup(inputs, PreRetirementReturnRate, 0.0);
    if preReturn < 0.0 || preReturn > 0.15 {
      warnings := warnings + [PreReturnUnrealistic];
    }
    var postReturn := Lookup(inputs, PostRetirementReturnRate, 0.0);
    if postReturn < 0.0 || postReturn > 0.12 {
      warnings := warnings + [PostReturnUnrealistic];
    }
    var inflation := Lookup(inputs, InflationRate, 0.0);
    if inflation < 0.0 || inflation > 0.08 {
      warnings := warnings + [InflationUnrealistic];
    }
  }

  /** The employer-match checks: a rate above 100%, a limit above 15% of salary. */
  method CheckEmployerMatch(inputs: map<Field, real>) returns (warnings: seq<Warning>)
    ensures forall w :: w in warnings ==> w.MatchRateTooHigh? || w.MatchLimitTooHigh?
    ensures MatchRateTooHigh in warnings <==> Lookup(inputs, EmployerMatchRate, 0.0) > 1.0
    ensures MatchLimitTooHigh in warnings <==> Lookup(inputs, EmployerMatchLimit, 0.0) > 0.15
  {
    warnings := [];
    var matchRate := Lookup(inputs, EmployerMatchRate, 0.0);
    var matchLimit := Lookup(inputs, EmployerMatchLimit, 0.0);
    if matchRate > 1.0 {
      warnings := warnings + [MatchRateTooHigh];
    }
    if matchLimit > 0.15 {
      warnings := warnings + [MatchLimitTooHigh];
    }
  }

  /** The range checks on rates, the savings rate and the employer match; they only warn. */
  method CheckPlausibility(inputs: map<Field, real>) returns (warnings: seq<Warning>)
    ensures PreReturnUnrealistic in warnings <==> OutOfRange(Lookup(inputs, PreRetirementReturnRate, 0.0), 0.15)
    ensures PostReturnUnrealistic in warnings <==> OutOfRange(Lookup(inputs, PostRetirementReturnRate, 0.0), 0.12)
    ensures InflationUnrealistic in warnings <==> OutOfRange(Lookup(inputs, InflationRate, 0.0), 0.08)
    ensures SavingsRateTooHigh in warnings <==> SavingsRateChecked(inputs) && SavingsRate(inputs) > 0.5
    ensures SavingsRateTooLow in warnings <==> SavingsRateChecked(inputs) && SavingsRate(inputs) < 0.1
    ensures MatchRateTooHigh in warnings <==> Lookup(inputs, EmployerMatchRate, 0.0) > 1.0
    ensures MatchLimitTooHigh in warnings <==> Lookup(inputs, EmployerMatchLimit, 0.0) > 0.15
    ensures ShortTimeToRetirement !in warnings && ShortRetirementPeriod !in warnings
  {
    var rates := CheckRateRanges(inputs);
    var savings := CheckSavingsRate(inputs);
    var employer := CheckEmployerMatch(inputs);
    warnings := rates + savings + employer;
  }

  /**
   * The checks in the source's order. No errors exactly when all four
   * required figures are positive and the ages are strictly increasing; a
   * short-horizon warning is only given where the matching order check
   * passed.
   */
  method ValidateRetirementInputs(inputs: map<Field, real>)
    returns (errors: seq<ValidationError>, warnings: seq<Warning>)
    ensures forall f :: FieldRequired(f) in errors <==> f in RequiredFields && !Positive(inputs, f)
    ensures RetirementNotAfterCurrent in errors <==>
      AgesChecked(inputs, CurrentAge, RetirementAge) && inputs[CurrentAge] >= inputs[RetirementAge]
    ensures LifeNotAfterRetirement in errors <==>
      AgesChecked(inputs, RetirementAge, LifeExpectancy) && inputs[RetirementAge] >= inputs[LifeExpectancy]
    ensures |errors| <= 6
    ensures errors == [] <==>
      AllRequiredPositive(inputs) &&
      inputs[CurrentAge] < inputs[RetirementAge] < inputs[LifeExpectancy]
    ensures ShortTimeToRetirement in warnings <==>
      AgesChecked(inputs, CurrentAge, RetirementAge) && inputs[CurrentAge] < inputs[RetirementAge] &&
      inputs[RetirementAge] - inputs[CurrentAge] < 5.0
    ensures ShortRetirementPeriod in warnings <==>
      AgesChecked(inputs, RetirementAge, LifeExpectancy) && inputs[RetirementAge] < inputs[LifeExpectancy] &&
      inputs[LifeExpectancy] - inputs[RetirementAge] < 10.0
    ensures ShortTimeToRetirement in warnings ==> RetirementNotAfterCurrent !in errors
    ensures ShortRetirementPeriod in warnings ==> LifeNotAfterRetirement !in errors
    ensures PreReturnUnrealistic in warnings <==> OutOfRange(Lookup(inputs, PreRetirementReturnRate, 0.0), 0.15)
    ensures PostReturnUnrealistic in warnings <==> OutOfRange(Lookup(inputs, PostRetirementReturnRate, 0.0), 0.12)
    ensures InflationUnrealistic in warnings <==> OutOfRange(Lookup(inputs, InflationRate, 0.0), 0.08)
    ensures SavingsRateTooHigh in warnings <==> SavingsRateChecked(inputs) && SavingsRate(inputs) > 0.5
    ensures SavingsRateTooLow in warnings <==> SavingsRateChecked(inputs) && SavingsRate(inputs) < 0.1
    ensures MatchRateTooHigh in warnings <==> Lookup(inputs, EmployerMatchRate, 0.0) > 1.0
    ensures MatchLimitTooHigh in warnings <==> Lookup(inputs, EmployerMatchLimit, 0.0) > 0.15
  {
    errors := CheckRequiredFields(inputs);
    ghost var fieldErrors := errors;
    var orderWarnings: seq<Warning> := [];
    if Truthy(inputs, CurrentAge) && Truthy(inputs, RetirementAge) {
      if inputs[CurrentAge] >= inputs[RetirementAge] {
        errors := errors + [RetirementNotAfterCurrent];
      } else if inputs[RetirementAge] - inputs[CurrentAge] < 5.0 {
        orderWarnings := orderWarnings + [ShortTimeToRetirement];
      }
    }
    if Truthy(inputs, RetirementAge) && Truthy(inputs, LifeExpectancy) {
      if inputs[RetirementAge] >= inputs[LifeExpectancy] {
        errors := errors + [LifeNotAfterRetirement];
      } else if inputs[LifeExpectancy] - inputs[RetirementAge] < 10.0 {
        orderWarnings := orderWarnings + [ShortRetirementPeriod];
      }
    }
    assert RetirementNotAfterCurrent !in fieldErrors && LifeNotAfterRetirement !in fieldErrors;
    var rangeWarnings := CheckPlausibility(inputs);
    warnings := orderWarnings + rangeWarnings;
  }
}
