/**
 * Monte Carlo simulation (`run_monte_carlo_simulation`). The random return
 * and inflation sequences of each trial are parameters here; given them,
 * every trial compounds savings with growing contributions until retirement
 * and then withdraws an inflating need, failing the first year the balance
 * is not positive.
 */
module MonteCarlo {
  import opened Outcomes
  import opened Numeric
  import opened Engine
  import opened Rules

  /** The draws of one trial: yearly returns before and after retirement, and yearly inflation for both periods. */
  datatype TrialDraws = TrialDraws(
    accumulationReturns: seq<real>,
    withdrawalReturns: seq<real>,
    inflationRates: seq<real>)

  /** The sizes the draws are generated with. */
  predicate DrawsFit(inp: RetirementInputs, d: TrialDraws) {
    && |d.accumulationReturns| == YearsToRetirement(inp)
    && |d.withdrawalReturns| == RetirementYears(inp)
    && |d.inflationRates| == YearsToRetirement(inp) + RetirementYears(inp)
  }

  /** Balance at retirement, from year `y` on: grow, add the contribution, then inflate the contribution. */
  function AccumulateFrom(d: TrialDraws, y: nat, balance: real, contribution: real): real
    requires |d.accumulationReturns| <= |d.inflationRates| && y <= |d.accumulationReturns|
    decreases |d.accumulationReturns| - y
  {
    if y == |d.accumulationReturns| then balance
    else AccumulateFrom(d, y + 1, balance * (1.0 + d.accumulationReturns[y]) + contribution,
                        contribution * (1.0 + d.inflationRates[y]))
  }

  /** The withdrawal in retirement year `k`: the need inflated `k` times by that year's drawn rate. */
  function WithdrawalAt(d: TrialDraws, ytr: nat, need: real, k: nat): real
    requires ytr + k < |d.inflationRates|
  {
    need * Pow(1.0 + d.inflationRates[ytr + k], k)
  }

  /** The withdrawals of every retirement year. */
  function Withdrawals(d: TrialDraws, ytr: nat, need: real): (ws: seq<real>)
    requires ytr + |d.withdrawalReturns| <= |d.inflationRates|
    ensures |ws| == |d.withdrawalReturns|
    ensures forall k :: 0 <= k < |ws| ==> ws[k] == WithdrawalAt(d, ytr, need, k)
  {
    seq(|d.withdrawalReturns|, k requires 0 <= k < |d.withdrawalReturns| => WithdrawalAt(d, ytr, need, k))
  }

  /**
   * The withdrawal loop from year `k` on, as (final balance, survived): each
   * year the balance grows by that year's return and pays that year's
   * withdrawal; the loop stops, not surviving, at the first balance that is
   * not positive.
   */
  function WithdrawFrom(rets: seq<real>, ws: seq<real>, k: nat, balance: real): (real, bool)
    requires |ws| == |rets| && k <= |rets|
    decreases |rets| - k
  {
    if k == |rets| then (balance, true)
    else
      var b := balance * (1.0 + rets[k]) - ws[k];
      if b <= 0.0 then (b, false) else WithdrawFrom(rets, ws, k + 1, b)
  }

  /** The balance after `j` withdrawal years if the loop never stopped early. */
  function BalanceAfter(rets: seq<real>, ws: seq<real>, start: real, j: nat): real
    requires |ws| == |rets| && j <= |rets|
  {
    if j == 0 then start
    else BalanceAfter(rets, ws, start, j - 1) * (1.0 + rets[j - 1]) - ws[j - 1]
  }

  /**
   * The loop with its early exit survives exactly when every balance of the
   * uninterrupted walk after year `k` is positive, and then ends with the
   * walk's last balance; otherwise it ends with the first non-positive one.
   */
  lemma {:induction false} WithdrawFromSurvives(rets: seq<real>, ws: seq<real>, start: real, k: nat)
    requires |ws| == |rets| && k <= |rets|
    ensures var res := WithdrawFrom(rets, ws, k, BalanceAfter(rets, ws, start, k));
      && (res.1 <==> forall j :: k < j <= |rets| ==> BalanceAfter(rets, ws, start, j) > 0.0)
      && (res.1 ==> res.0 == BalanceAfter(rets, ws, start, |rets|))
      && (!res.1 ==> res.0 <= 0.0)
    decreases |rets| - k
  {
    if k < |rets| {
      var b := BalanceAfter(rets, ws, start, k + 1);
      WithdrawStep(rets, ws, k, BalanceAfter(rets, ws, start, k), b);
      if b > 0.0 {
        WithdrawFromSurvives(rets, ws, start, k + 1);
        assert (forall j :: k < j <= |rets| ==> BalanceAfter(rets, ws, start, j) > 0.0)
           <==> (forall j :: k + 1 < j <= |rets| ==> BalanceAfter(rets, ws, start, j) > 0.0);
      } else {
        assert !(BalanceAfter(rets, ws, start, k + 1) > 0.0);
      }
    }
  }

  lemma AccumulateStep(d: TrialDraws, y: nat, balance: real, contribution: real)
    requires |d.accumulationReturns| <= |d.inflationRates| && y < |d.accumulationReturns|
    ensures AccumulateFrom(d, y, balance, contribution)
         == AccumulateFrom(d, y + 1, balance * (1.0 + d.accumulationReturns[y]) + contribution,
                           contribution * (1.0 + d.inflationRates[y]))
  {
  }

  lemma WithdrawStep(rets: seq<real>, ws: seq<real>, k: nat, balance: real, next: real)
    requires |ws| == |rets| && k < |rets|
    requires next == balance * (1.0 + rets[k]) - ws[k]
    ensures WithdrawFrom(rets, ws, k, balance) == if next <= 0.0 then (next, false) else WithdrawFrom(rets, ws, k + 1, next)
  {
  }

  /** One trial's (final balance floored at zero, success). */
  function TrialResult(inp: RetirementInputs, d: TrialDraws): (real, bool)
    requires YearsToRetirement(inp) > 0 && DrawsFit(inp, d)
  {
    var ytr := YearsToRetirement(inp);
    var start := AccumulateFrom(d, 0, inp.currentSavings, EffectiveMonthlyContribution(inp) * 12.0);
    var ws := Withdrawals(d, ytr, CalculateRetirementNeeds(inp).value.futureAnnualNeed);
    var res := WithdrawFrom(d.withdrawalReturns, ws, 0, start);
    (Max(res.0, 0.0), res.1 && res.0 > 0.0)
  }

  /**
   * A trial succeeds exactly when the balance stays positive through every
   * withdrawal year, and its reported final balance is never negative.
   */
  lemma TrialSucceedsIffSolventEveryYear(inp: RetirementInputs, d: TrialDraws)
    requires YearsToRetirement(inp) > 0 && RetirementYears(inp) > 0 && DrawsFit(inp, d)
    ensures var start := AccumulateFrom(d, 0, inp.currentSavings, EffectiveMonthlyContribution(inp) * 12.0);
      var ws := Withdrawals(d, YearsToRetirement(inp), CalculateRetirementNeeds(inp).value.futureAnnualNeed);
      TrialResult(inp, d).1 <==>
        forall j :: 1 <= j <= RetirementYears(inp) ==> BalanceAfter(d.withdrawalReturns, ws, start, j) > 0.0
    ensures TrialResult(inp, d).0 >= 0.0
  {
    var start := AccumulateFrom(d, 0, inp.currentSavings, EffectiveMonthlyContribution(inp) * 12.0);
    var ws := Withdrawals(d, YearsToRetirement(inp), CalculateRetirementNeeds(inp).value.futureAnnualNeed);
    WithdrawFromSurvives(d.withdrawalReturns, ws, start, 0);
    assert BalanceAfter(d.withdrawalReturns, ws, start, 0) == start;
    var res := WithdrawFrom(d.withdrawalReturns, ws, 0, start);
    assert TrialResult(inp, d) == (Max(res.0, 0.0), res.1 && res.0 > 0.0);
  }

  /** The accumulation loop of one trial: the balance reached at retirement. */
  method AccumulateTrial(d: TrialDraws, savings: real, contribution: real) returns (balance: real)
    requires |d.accumulationReturns| <= |d.inflationRates|
    ensures balance == AccumulateFrom(d, 0, savings, contribution)
  {
    balance := savings;
    var annualContribution := contribution;
    var y := 0;
    while y < |d.accumulationReturns|
      invariant y <= |d.accumulationReturns|
      invariant AccumulateFrom(d, y, balance, annualContribution) == AccumulateFrom(d, 0, savings, contribution)
    {
      AccumulateStep(d, y, balance, annualContribution);
      balance := balance * (1.0 + d.accumulationReturns[y]) + annualContribution;
      annualContribution := annualContribution * (1.0 + d.inflationRates[y]);
      y := y + 1;
    }
  }

  /** The withdrawal loop of one trial, leaving early at the first balance that is not positive. */
  method WithdrawTrial(d: TrialDraws, ytr: nat, need: real, start: real) returns (balance: real, survived: bool)
    requires ytr + |d.withdrawalReturns| <= |d.inflationRates|
    ensures (balance, survived) == WithdrawFrom(d.withdrawalReturns, Withdrawals(d, ytr, need), 0, start)
  {
    ghost var ws := Withdrawals(d, ytr, need);
    balance := start;
    survived := true;
    var k := 0;
    while k < |d.withdrawalReturns|
      invariant k <= |d.withdrawalReturns|
      invariant WithdrawFrom(d.withdrawalReturns, ws, k, balance) == WithdrawFrom(d.withdrawalReturns, ws, 0, start)
      invariant survived
    {
      var withdrawal := need * Pow(1.0 + d.inflationRates[ytr + k], k);
      assert withdrawal == ws[k];
      ghost var opening := balance;
      balance := balance * (1.0 + d.withdrawalReturns[k]) - withdrawal;
      WithdrawStep(d.withdrawalReturns, ws, k, opening, balance);
      if balance <= 0.0 {
        survived := false;
        return;
      }
      k := k + 1;
    }
  }

  /** One trial, as the loops of the source run it. */
  method RunTrial(inp: RetirementInputs, d: TrialDraws) returns (finalBalance: real, succeeded: bool)
    requires YearsToRetirement(inp) > 0 && DrawsFit(inp, d)
    ensures (finalBalance, succeeded) == TrialResult(inp, d)
  {
    var balance := AccumulateTrial(d, inp.currentSavings, EffectiveMonthlyContribution(inp) * 12.0);
    var need := CalculateRetirementNeeds(inp).value.futureAnnualNeed;
    var survived;
    balance, survived := WithdrawTrial(d, YearsToRetirement(inp), need, balance);
    succeeded := survived && balance > 0.0;
    finalBalance := Max(balance, 0.0);
  }

  /** Number of successful trials among `draws`. */
  function CountSuccesses(inp: RetirementInputs, draws: seq<TrialDraws>): (n: nat)
    requires YearsToRetirement(inp) > 0
    requires forall i :: 0 <= i < |draws| ==> DrawsFit(inp, draws[i])
    ensures n <= |draws|
  {
    if draws == [] then 0
    else CountSuccesses(inp, draws[..|draws| - 1]) + (if TrialResult(inp, draws[|draws| - 1]).1 then 1 else 0)
  }

  /** One more trial adds one success exactly when it succeeds. */
  lemma CountStep(inp: RetirementInputs, draws: seq<TrialDraws>, t: nat)
    requires YearsToRetirement(inp) > 0 && t < |draws|
    requires forall i :: 0 <= i < |draws| ==> DrawsFit(inp, draws[i])
    ensures CountSuccesses(inp, draws[..t + 1]) ==
      CountSuccesses(inp, draws[..t]) + (if TrialResult(inp, draws[t]).1 then 1 else 0)
  {
    assert draws[..t + 1][..t] == draws[..t];
  }

  datatype MonteCarloOutcome =
    | InvalidTimeParameters
    | Simulated(successRate: real, numSimulations: int, finalBalances: seq<real>,
                scenariosSucceeded: nat, riskAssessment: RiskLevel)

  /** The draws the generator produces for `n` trials of these inputs. */
  ghost predicate DrawsFor(inp: RetirementInputs, draws: seq<TrialDraws>, n: int) {
    && |draws| == (if n < 0 then 0 else n)
    && forall i :: 0 <= i < |draws| ==> DrawsFit(inp, draws[i])
  }

  /**
   * The report of `n` simulated trials over `draws`: the number of trials
   * asked for, the successes counted trial by trial, their share as a
   * percentage of `n`, every trial's final balance floored at zero in trial
   * order, and the risk band of the success rate.
   */
  ghost predicate SimulatedFrom(inp: RetirementInputs, draws: seq<TrialDraws>, n: int, m: MonteCarloOutcome) {
    && m.Simulated?
    && YearsToRetirement(inp) > 0 && RetirementYears(inp) > 0
    && DrawsFor(inp, draws, n)
    && m.numSimulations == n && n != 0
    && m.scenariosSucceeded == CountSuccesses(inp, draws)
    && m.successRate == (m.scenariosSucceeded as real) / (n as real) * 100.0
    && |m.finalBalances| == |draws|
    && (forall i :: 0 <= i < |draws| ==> m.finalBalances[i] == TrialResult(inp, draws[i]).0 >= 0.0)
    && m.riskAssessment == AssessRiskLevel(m.successRate)
  }

  /**
   * No simulation without time before and in retirement; otherwise one
   * trial per draw set, the share of successes as a percentage, the final
   * balances floored at zero and the risk band of the success rate. Zero
   * trials divide by zero.
   */
  method RunMonteCarloSimulation(inp: RetirementInputs, draws: seq<TrialDraws>, numSimulations: int)
    returns (r: Result<MonteCarloOutcome>)
    requires YearsToRetirement(inp) > 0 && RetirementYears(inp) > 0 ==> DrawsFor(inp, draws, numSimulations)
    ensures YearsToRetirement(inp) <= 0 || RetirementYears(inp) <= 0 ==> r == Ok(InvalidTimeParameters)
    ensures r.Ok? && r.value.InvalidTimeParameters? ==> YearsToRetirement(inp) <= 0 || RetirementYears(inp) <= 0
    ensures r.Err? <==> YearsToRetirement(inp) > 0 && RetirementYears(inp) > 0 && numSimulations == 0
    ensures r.Err? ==> r.error == ZeroDivisionError
    ensures r.Ok? && r.value.Simulated? ==>
      && SimulatedFrom(inp, draws, numSimulations, r.value)
      && r.value.scenariosSucceeded <= |draws|
      && 0.0 <= r.value.successRate <= 100.0
  {
    var ytr := YearsToRetirement(inp);
    var ry := RetirementYears(inp);
    if ytr <= 0 || ry <= 0 {
      return Ok(InvalidTimeParameters);
    }
    var successful, finalBalances := RunTrials(inp, draws);
    if numSimulations == 0 {
      return Err(ZeroDivisionError);
    }
    var rate := (successful as real) / (numSimulations as real) * 100.0;
    RateWithinPercent(successful, numSimulations, |draws|);
    return Ok(Simulated(rate, numSimulations, finalBalances, successful, AssessRiskLevel(rate)));
  }

  /** The trial loop: every trial's floored final balance, in order, and the number of successes. */
  method RunTrials(inp: RetirementInputs, draws: seq<TrialDraws>) returns (successful: nat, finalBalances: seq<real>)
    requires YearsToRetirement(inp) > 0
    requires forall i :: 0 <= i < |draws| ==> DrawsFit(inp, draws[i])
    ensures successful == CountSuccesses(inp, draws)
    ensures |finalBalances| == |draws|
    ensures forall i :: 0 <= i < |draws| ==> finalBalances[i] == TrialResult(inp, draws[i]).0 >= 0.0
  {
    successful := 0;
    finalBalances := [];
    var t := 0;
    while t < |draws|
      invariant t <= |draws|
      invariant successful == CountSuccesses(inp, draws[..t])
      invariant |finalBalances| == t
      invariant forall i :: 0 <= i < t ==> finalBalances[i] == TrialResult(inp, draws[i]).0 >= 0.0
    {
      var finalBalance, succeeded := RunTrial(inp, draws[t]);
      CountStep(inp, draws, t);
      if succeeded {
        successful := successful + 1;
      }
      finalBalances := finalBalances + [finalBalance];
      t := t + 1;
    }
    assert draws[..t] == draws;
  }

  lemma RateWithinPercent(count: nat, n: int, trials: nat)
    requires n != 0 && count <= trials && trials == (if n < 0 then 0 else n)
    ensures 0.0 <= (count as real) / (n as real) * 100.0 <= 100.0
  {
    if n > 0 {
      var q := (count as real) / (n as real);
      assert q * (n as real) == count as real;
      assert q <= 1.0;
    }
  }
}
