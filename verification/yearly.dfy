/**
 * Year-by-year projection (`generate_yearly_projections`): a loop over ages
 * from the current age to the life expectancy, accumulating with growing
 * contributions before retirement and withdrawing an inflating need after
 * it, stopping after the first year whose closing balance is not positive.
 */
module YearlyProjections {
  import opened Outcomes
  import opened Numeric
  import opened Engine

  datatype Phase = Accumulation | Withdrawal

  /** One row of the projection; `balance` is the balance at the start of the year. */
  datatype YearRecord = YearRecord(
    age: int,
    year: int,
    balance: real,
    phase: Phase,
    contribution: real,
    investmentReturn: real,
    withdrawal: real,
    netChange: real)

  /**
   * The row for `age` with opening balance `balance`: growth plus this year's
   * contribution before retirement; after it, growth minus the need inflated
   * for the years since retirement.
   */
  function YearOf(inp: RetirementInputs, futureNeed: real, startYear: int, age: int,
                  balance: real, contribution: real): YearRecord
  {
    var year := startYear + (age - inp.currentAge);
    if age < inp.retirementAge then
      var ret := balance * inp.preRetirementReturnRate;
      YearRecord(age, year, balance, Accumulation, contribution, ret, 0.0, ret + contribution)
    else
      var w := futureNeed * Pow(1.0 + inp.inflationRate, age - inp.retirementAge);
      var ret := balance * inp.postRetirementReturnRate;
      YearRecord(age, year, balance, Withdrawal, 0.0, ret, w, ret - w)
  }

  /** Balance at the end of a row: withdrawals are floored at zero, accumulation is not. */
  function EndBalance(r: YearRecord): real {
    if r.phase == Accumulation then r.balance + r.netChange
    else Max(0.0, r.balance + r.netChange)
  }

  /** Contributions grow with inflation after every accumulation year. */
  function NextContribution(inp: RetirementInputs, r: YearRecord, contribution: real): real {
    if r.phase == Accumulation then contribution * (1.0 + inp.inflationRate) else contribution
  }

  /** The rows produced from `age` on, given the opening balance and contribution. */
  function ProjectFrom(inp: RetirementInputs, futureNeed: real, startYear: int, age: int,
                       balance: real, contribution: real): seq<YearRecord>
    decreases inp.lifeExpectancy - age
  {
    if age > inp.lifeExpectancy then []
    else
      var r := YearOf(inp, futureNeed, startYear, age, balance, contribution);
      if EndBalance(r) <= 0.0 then [r]
      else [r] + ProjectFrom(inp, futureNeed, startYear, age + 1, EndBalance(r),
                             NextContribution(inp, r, contribution))
  }

  /** The whole projection, starting from today's savings and contribution. */
  function Projection(inp: RetirementInputs, futureNeed: real, startYear: int): seq<YearRecord> {
    ProjectFrom(inp, futureNeed, startYear, inp.currentAge, inp.currentSavings,
                EffectiveMonthlyContribution(inp) * 12.0)
  }

  /** One pass of the loop body: the row for `age`, the closing balance and next year's contribution. */
  method ProjectYear(inp: RetirementInputs, need: real, startYear: int, age: int, balance: real, contribution: real)
    returns (row: YearRecord, closing: real, nextContribution: real)
    ensures row == YearOf(inp, need, startYear, age, balance, contribution)
    ensures closing == EndBalance(row)
    ensures nextContribution == NextContribution(inp, row, contribution)
  {
    var year := startYear + (age - inp.currentAge);
    nextContribution := contribution;
    if age < inp.retirementAge {
      var investmentReturn := balance * inp.preRetirementReturnRate;
      closing := balance + (investmentReturn + contribution);
      row := YearRecord(age, year, balance, Accumulation, contribution, investmentReturn, 0.0,
                        investmentReturn + contribution);
      nextContribution := contribution * (1.0 + inp.inflationRate);
    } else {
      var withdrawal := need * Pow(1.0 + inp.inflationRate, age - inp.retirementAge);
      var investmentReturn := balance * inp.postRetirementReturnRate;
      closing := Max(0.0, balance + investmentReturn - withdrawal);
      row := YearRecord(age, year, balance, Withdrawal, 0.0, investmentReturn, withdrawal,
                        investmentReturn - withdrawal);
    }
  }

  /** The rows from `age` on: the row of that year, then the rest while the balance stays positive. */
  lemma ProjectFromStep(inp: RetirementInputs, need: real, startYear: int, age: int, balance: real,
                        contribution: real)
    requires age <= inp.lifeExpectancy
    ensures var row := YearOf(inp, need, startYear, age, balance, contribution);
      ProjectFrom(inp, need, startYear, age, balance, contribution) ==
        if EndBalance(row) <= 0.0 then [row]
        else [row] + ProjectFrom(inp, need, startYear, age + 1, EndBalance(row), NextContribution(inp, row, contribution))
  {
  }

  lemma AppendRow(done: seq<YearRecord>, row: YearRecord, rest: seq<YearRecord>)
    ensures done + ([row] + rest) == (done + [row]) + rest
    ensures done + [row] == (done + [row]) + []
  {
  }

  /** The loop of the source, for a given yearly need in retirement. */
  method ProjectYears(inp: RetirementInputs, need: real, startYear: int) returns (projections: seq<YearRecord>)
    ensures projections == Projection(inp, need, startYear)
  {
    projections := [];
    var age := inp.currentAge;
    var balance := inp.currentSavings;
    var contribution := EffectiveMonthlyContribution(inp) * 12.0;
    while age <= inp.lifeExpectancy
      invariant Projection(inp, need, startYear) == projections + ProjectFrom(inp, need, startYear, age, balance, contribution)
      decreases inp.lifeExpectancy - age
    {
      var row, closing, nextContribution := ProjectYear(inp, need, startYear, age, balance, contribution);
      ProjectFromStep(inp, need, startYear, age, balance, contribution);
      AppendRow(projections, row, ProjectFrom(inp, need, startYear, age + 1, closing, nextContribution));
      projections := projections + [row];
      age := age + 1;
      balance := closing;
      contribution := nextContribution;
      if balance <= 0.0 {
        return;
      }
    }
  }

  /**
   * `generate_yearly_projections`: `startYear` stands for the calendar year
   * at the time of the call. Raises exactly when the needs calculation does.
   */
  method GenerateYearlyProjections(inp: RetirementInputs, startYear: int) returns (r: Result<seq<YearRecord>>)
    ensures r.Err? <==> CalculateRetirementNeeds(inp).Err?
    ensures r.Ok? ==> r.value == Projection(inp, CalculateRetirementNeeds(inp).value.futureAnnualNeed, startYear)
  {
    var needs := CalculateRetirementNeeds(inp);
    if needs.Err? {
      return Err(needs.error);
    }
    var projections := ProjectYears(inp, needs.value.futureAnnualNeed, startYear);
    return Ok(projections);
  }

  /** Number of rows a run from `age` can have at most. */
  function MaxRows(inp: RetirementInputs, age: int): nat {
    if age > inp.lifeExpectancy then 0 else inp.lifeExpectancy - age + 1
  }

  /**
   * Ages run consecutively from the first row and never pass the life
   * expectancy, the calendar year moves with the age, and the phase is
   * accumulation exactly before the retirement age.
   */
  ghost predicate Timeline(inp: RetirementInputs, startYear: int, age: int, rows: seq<YearRecord>) {
    && (forall i :: 0 <= i < |rows| ==> rows[i].age == age + i <= inp.lifeExpectancy)
    && (forall i :: 0 <= i < |rows| ==> rows[i].year == startYear + (rows[i].age - inp.currentAge))
    && (forall i :: 0 <= i < |rows| ==> (rows[i].phase == Accumulation <==> rows[i].age < inp.retirementAge))
  }

  /**
   * Each row opens with the previous row's closing balance, which is positive
   * for every row but the last; withdrawal rows never close below zero; and
   * the last row either closes at or below zero or is the life-expectancy year.
   */
  ghost predicate BalanceChain(inp: RetirementInputs, rows: seq<YearRecord>) {
    && (forall i :: 0 <= i < |rows| - 1 ==> rows[i + 1].balance == EndBalance(rows[i]) > 0.0)
    && (forall i :: 0 <= i < |rows| ==> rows[i].phase == Withdrawal ==> EndBalance(rows[i]) >= 0.0)
    && (|rows| > 0 ==> EndBalance(rows[|rows| - 1]) <= 0.0 || rows[|rows| - 1].age == inp.lifeExpectancy)
  }

  lemma {:induction false} ProjectFromTimeline(inp: RetirementInputs, futureNeed: real, startYear: int,
                                                age: int, balance: real, contribution: real)
    ensures var rows := ProjectFrom(inp, futureNeed, startYear, age, balance, contribution);
      && Timeline(inp, startYear, age, rows)
      && |rows| <= MaxRows(inp, age)
      && (age <= inp.lifeExpectancy ==> |rows| > 0)
    decreases inp.lifeExpectancy - age
  {
    if age <= inp.lifeExpectancy {
      ProjectFromStep(inp, futureNeed, startYear, age, balance, contribution);
      var r := YearOf(inp, futureNeed, startYear, age, balance, contribution);
      YearOfShape(inp, futureNeed, startYear, age, balance, contribution);
      if EndBalance(r) > 0.0 {
        var c := NextContribution(inp, r, contribution);
        ProjectFromTimeline(inp, futureNeed, startYear, age + 1, EndBalance(r), c);
        TimelineCons(inp, startYear, age, r, ProjectFrom(inp, futureNeed, startYear, age + 1, EndBalance(r), c));
      } else {
        TimelineCons(inp, startYear, age, r, []);
      }
    }
  }

  /** A year's row carries its age, its calendar year and the phase that age falls in. */
  lemma YearOfShape(inp: RetirementInputs, futureNeed: real, startYear: int, age: int, balance: real, contribution: real)
    ensures var r := YearOf(inp, futureNeed, startYear, age, balance, contribution);
      && r.age == age && r.year == startYear + (age - inp.currentAge)
      && (r.phase == Accumulation <==> age < inp.retirementAge)
  {
  }

  /** A row for `age` in front of a timeline from the next age is a timeline from `age`. */
  lemma TimelineCons(inp: RetirementInputs, startYear: int, age: int, r: YearRecord, rest: seq<YearRecord>)
    requires r.age == age <= inp.lifeExpectancy && r.year == startYear + (age - inp.currentAge)
    requires r.phase == Accumulation <==> age < inp.retirementAge
    requires Timeline(inp, startYear, age + 1, rest) && |rest| <= MaxRows(inp, age + 1)
    ensures Timeline(inp, startYear, age, [r] + rest) && |[r] + rest| <= MaxRows(inp, age)
  {
    var rows := [r] + rest;
    forall i | 1 <= i < |rows|
      ensures rows[i] == rest[i - 1]
    {
    }
  }

  /** Each row opens with the previous closing balance, positive; the last row closes at or below zero or at the life expectancy. */
  lemma {:induction false} ProjectFromLinks(inp: RetirementInputs, futureNeed: real, startYear: int,
                                             age: int, balance: real, contribution: real)
    ensures var rows := ProjectFrom(inp, futureNeed, startYear, age, balance, contribution);
      && (forall i :: 0 <= i < |rows| - 1 ==> rows[i + 1].balance == EndBalance(rows[i]) > 0.0)
      && (|rows| > 0 ==> EndBalance(rows[|rows| - 1]) <= 0.0 || rows[|rows| - 1].age == inp.lifeExpectancy)
      && (|rows| > 0 ==> rows[0].balance == balance)
    decreases inp.lifeExpectancy - age
  {
    if age <= inp.lifeExpectancy {
      ProjectFromStep(inp, futureNeed, startYear, age, balance, contribution);
      var r := YearOf(inp, futureNeed, startYear, age, balance, contribution);
      if EndBalance(r) > 0.0 {
        var c := NextContribution(inp, r, contribution);
        var rest := ProjectFrom(inp, futureNeed, startYear, age + 1, EndBalance(r), c);
        ProjectFromLinks(inp, futureNeed, startYear, age + 1, EndBalance(r), c);
        var rows := [r] + rest;
        if rest == [] {
          assert age + 1 > inp.lifeExpectancy;
        }
        forall i | 0 <= i < |rows| - 1
          ensures rows[i + 1].balance == EndBalance(rows[i]) > 0.0
        {
          if i > 0 {
            assert rows[i + 1] == rest[i] && rows[i] == rest[i - 1];
          }
        }
        assert rows[|rows| - 1] == if rest == [] then r else rest[|rest| - 1];
      }
    }
  }

  /** Withdrawal rows never close below zero: the balance is floored. */
  lemma WithdrawalsFloored(rows: seq<YearRecord>)
    ensures forall i :: 0 <= i < |rows| ==> rows[i].phase == Withdrawal ==> EndBalance(rows[i]) >= 0.0
  {
  }

  lemma ProjectFromBalanceChain(inp: RetirementInputs, futureNeed: real, startYear: int,
                                age: int, balance: real, contribution: real)
    ensures BalanceChain(inp, ProjectFrom(inp, futureNeed, startYear, age, balance, contribution))
  {
    ProjectFromLinks(inp, futureNeed, startYear, age, balance, contribution);
    WithdrawalsFloored(ProjectFrom(inp, futureNeed, startYear, age, balance, contribution));
  }

  /**
   * The projection of the source follows the timeline and the balance chain
   * and has at most `life_expectancy - current_age + 1` rows (none when
   * already past it).
   */
  lemma ProjectionShape(inp: RetirementInputs, futureNeed: real, startYear: int)
    ensures Timeline(inp, startYear, inp.currentAge, Projection(inp, futureNeed, startYear))
    ensures BalanceChain(inp, Projection(inp, futureNeed, startYear))
    ensures |Projection(inp, futureNeed, startYear)| <= MaxRows(inp, inp.currentAge)
    ensures inp.currentAge <= inp.lifeExpectancy ==> |Projection(inp, futureNeed, startYear)| > 0
  {
    var c := EffectiveMonthlyContribution(inp) * 12.0;
    ProjectFromTimeline(inp, futureNeed, startYear, inp.currentAge, inp.currentSavings, c);
    ProjectFromBalanceChain(inp, futureNeed, startYear, inp.currentAge, inp.currentSavings, c);
  }

  /**
   * With a positive balance and no withdrawal need, a non-negative return
   * keeps every withdrawal year positive, so the projection runs to the life
   * expectancy when contributions are non-negative and the pre-retirement
   * return is non-negative.
   */
  lemma {:induction false} NoNeedRunsToLifeExpectancy(inp: RetirementInputs, startYear: int, age: int,
                                                       balance: real, contribution: real)
    requires balance > 0.0 && contribution >= 0.0
    requires inp.preRetirementReturnRate >= 0.0 && inp.postRetirementReturnRate >= 0.0
    requires inp.inflationRate >= -1.0
    requires age <= inp.lifeExpectancy + 1
    ensures |ProjectFrom(inp, 0.0, startYear, age, balance, contribution)| == inp.lifeExpectancy - age + 1
    decreases inp.lifeExpectancy - age
  {
    if age <= inp.lifeExpectancy {
      var r := YearOf(inp, 0.0, startYear, age, balance, contribution);
      NoNeedYear(inp, startYear, age, balance, contribution);
      NoNeedRunsToLifeExpectancy(inp, startYear, age + 1, EndBalance(r), NextContribution(inp, r, contribution));
    }
  }

  /** Without a need to withdraw, a year with a positive balance and non-negative returns ends positive. */
  lemma NoNeedYear(inp: RetirementInputs, startYear: int, age: int, balance: real, contribution: real)
    requires balance > 0.0 && contribution >= 0.0
    requires inp.preRetirementReturnRate >= 0.0 && inp.postRetirementReturnRate >= 0.0
    requires inp.inflationRate >= -1.0
    ensures EndBalance(YearOf(inp, 0.0, startYear, age, balance, contribution)) > 0.0
    ensures NextContribution(inp, YearOf(inp, 0.0, startYear, age, balance, contribution), contribution) >= 0.0
  {
    var r := YearOf(inp, 0.0, startYear, age, balance, contribution);
    if age < inp.retirementAge {
      MulMonotone(balance, 0.0, inp.preRetirementReturnRate);
      MulMonotone(contribution, 0.0, 1.0 + inp.inflationRate);
      assert r.netChange == balance * inp.preRetirementReturnRate + contribution;
    } else {
      MulMonotone(balance, 0.0, inp.postRetirementReturnRate);
      assert r.netChange == balance * inp.postRetirementReturnRate;
    }
  }
}
