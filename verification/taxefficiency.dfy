/**
 * The tax-efficiency score of an account allocation
 * (`calculate_tax_efficiency_score`): up to 40 points for holding both
 * traditional and Roth money, up to 40 for the share held in tax-advantaged
 * accounts, and 10 granted for HSA use, with advice where points are missed.
 */
module TaxEfficiency {

  /**
   * The balances the source reads by name, and the sum of the balances held
   * under any other account name (they only count towards the total).
   */
  datatype Allocation = Allocation(
    traditional401k: real,
    traditionalIra: real,
    roth401k: real,
    rothIra: real,
    taxable: real,
    otherAccounts: real)

  datatype TaxAdvice = StartContributing | DiversifyTraditionalRoth | MaximizeTaxAdvantaged | ConsiderHsa

  function Message(a: TaxAdvice): string {
    match a
    case StartContributing => "Start contributing to retirement accounts"
    case DiversifyTraditionalRoth => "Consider diversifying between traditional and Roth accounts"
    case MaximizeTaxAdvantaged => "Maximize tax-advantaged account contributions before taxable accounts"
    case ConsiderHsa => "Consider HSA contributions if eligible for triple tax advantage"
  }

  /** Each kind of account as a percentage of the total balance. */
  datatype Shares = Shares(traditional: real, roth: real, taxable: real)

  /** Without any balance there are no shares, only the advice to start. */
  datatype TaxReport = TaxReport(score: real, shares: Shares, recommendations: seq<TaxAdvice>)
                     | EmptyReport(score: real, recommendations: seq<TaxAdvice>)

  /** `sum(account_allocation.values())`. */
  function TotalBalance(a: Allocation): real {
    a.traditional401k + a.traditionalIra + a.roth401k + a.rothIra + a.taxable + a.otherAccounts
  }

  predicate NonNegative(a: Allocation) {
    a.traditional401k >= 0.0 && a.traditionalIra >= 0.0 && a.roth401k >= 0.0 && a.rothIra >= 0.0 &&
    a.taxable >= 0.0 && a.otherAccounts >= 0.0
  }

  predicate Balanced(share: real) {
    0.3 <= share <= 0.7
  }

  /** 30 points for holding both kinds, 10 more when both lie between 30% and 70%; 15 for one kind. */
  function DiversityPoints(traditionalShare: real, rothShare: real): real {
    if traditionalShare > 0.0 && rothShare > 0.0 then
      30.0 + (if Balanced(traditionalShare) && Balanced(rothShare) then 10.0 else 0.0)
    else if traditionalShare > 0.0 || rothShare > 0.0 then 15.0
    else 0.0
  }

  /** Bands for the tax-advantaged share from 60% on; below that, 30 points per whole. */
  function UsagePoints(taxAdvantagedShare: real): real {
    if taxAdvantagedShare >= 0.9 then 40.0
    else if taxAdvantagedShare >= 0.8 then 35.0
    else if taxAdvantagedShare >= 0.7 then 30.0
    else if taxAdvantagedShare >= 0.6 then 20.0
    else taxAdvantagedShare * 30.0
  }

  function Min(a: real, b: real): real {
    if a <= b then a else b
  }

  lemma RatioTimesBase(part: real, base: real)
    requires base != 0.0
    ensures (part / base) * base == part
  {
  }

  /**
   * The score accumulates as in the source. The shares are the named
   * balances' parts of the total, the HSA advice always comes last, and the
   * cap at 100 never applies: no allocation scores above 90.
   */
  method CalculateTaxEfficiencyScore(a: Allocation) returns (report: TaxReport)
    ensures report.EmptyReport? <==> TotalBalance(a) == 0.0
    ensures report.EmptyReport? ==> report.score == 0.0 && report.recommendations == [StartContributing]
    ensures report.TaxReport? ==>
      && report.shares.traditional * TotalBalance(a) == (a.traditional401k + a.traditionalIra) * 100.0
      && report.shares.roth * TotalBalance(a) == (a.roth401k + a.rothIra) * 100.0
      && report.shares.taxable * TotalBalance(a) == a.taxable * 100.0
      && report.score ==
           DiversityPoints(report.shares.traditional / 100.0, report.shares.roth / 100.0) +
           UsagePoints(report.shares.traditional / 100.0 + report.shares.roth / 100.0) + 10.0
      && report.score <= 90.0
      && (DiversifyTraditionalRoth in report.recommendations <==>
            (report.shares.traditional > 0.0) != (report.shares.roth > 0.0))
      && (MaximizeTaxAdvantaged in report.recommendations <==>
            report.shares.traditional / 100.0 + report.shares.roth / 100.0 < 0.6)
      && StartContributing !in report.recommendations
      && |report.recommendations| > 0 && report.recommendations[|report.recommendations| - 1] == ConsiderHsa
  {
    var totalBalance := TotalBalance(a);
    if totalBalance == 0.0 {
      return EmptyReport(0.0, [StartContributing]);
    }
    var traditionalPct := (a.traditional401k + a.traditionalIra) / totalBalance;
    var rothPct := (a.roth401k + a.rothIra) / totalBalance;
    var taxablePct := a.taxable / totalBalance;

    var score := 0.0;
    var recommendations: seq<TaxAdvice> := [];

    if traditionalPct > 0.0 && rothPct > 0.0 {
      score := score + 30.0;
      if 0.3 <= traditionalPct <= 0.7 && 0.3 <= rothPct <= 0.7 {
        score := score + 10.0;
      }
    } else if traditionalPct > 0.0 || rothPct > 0.0 {
      score := score + 15.0;
      recommendations := recommendations + [DiversifyTraditionalRoth];
    }

    var taxAdvantagedPct := traditionalPct + rothPct;
    if taxAdvantagedPct >= 0.9 {
      score := score + 40.0;
    } else if taxAdvantagedPct >= 0.8 {
      score := score + 35.0;
    } else if taxAdvantagedPct >= 0.7 {
      score := score + 30.0;
    } else if taxAdvantagedPct >= 0.6 {
      score := score + 20.0;
    } else {
      score := score + taxAdvantagedPct * 30.0;
      recommendations := recommendations + [MaximizeTaxAdvantaged];
    }

    score := score + 10.0;
    recommendations := recommendations + [ConsiderHsa];

    RatioTimesBase(a.traditional401k + a.traditionalIra, totalBalance);
    RatioTimesBase(a.roth401k + a.rothIra, totalBalance);
    RatioTimesBase(a.taxable, totalBalance);
    report := TaxReport(Min(score, 100.0), Shares(traditionalPct * 100.0, rothPct * 100.0, taxablePct * 100.0),
                        recommendations);
  }

  /** Shares of non-negative balances lie between 0 and 1 and add up to at most 1. */
  lemma ShareBounds(part: real, rest: real)
    requires part >= 0.0 && rest >= 0.0 && part + rest > 0.0
    ensures 0.0 <= part / (part + rest) <= 1.0
  {
  }

  /**
   * With non-negative balances every allocation with money in it scores at
   * least the 10 HSA points, and all of it in balanced traditional and Roth
   * accounts scores the top 90.
   */
  lemma TaxScoreRange(a: Allocation)
    requires NonNegative(a) && TotalBalance(a) > 0.0
    ensures var t := (a.traditional401k + a.traditionalIra) / TotalBalance(a);
      var r := (a.roth401k + a.rothIra) / TotalBalance(a);
      && 10.0 <= DiversityPoints(t, r) + UsagePoints(t + r) + 10.0 <= 90.0
      && (Balanced(t) && Balanced(r) && t + r >= 0.9 ==> DiversityPoints(t, r) + UsagePoints(t + r) + 10.0 == 90.0)
  {
    var total := TotalBalance(a);
    var named := a.traditional401k + a.traditionalIra + a.roth401k + a.rothIra;
    ShareBounds(named, a.taxable + a.otherAccounts);
    SharesAdd(a.traditional401k + a.traditionalIra, a.roth401k + a.rothIra, total);
  }

  lemma SharesAdd(x: real, y: real, total: real)
    requires total != 0.0
    ensures x / total + y / total == (x + y) / total
  {
    RatioTimesBase(x, total);
    RatioTimesBase(y, total);
    RatioTimesBase(x + y, total);
    assert (x / total + y / total - (x + y) / total) * total == 0.0;
  }
}
