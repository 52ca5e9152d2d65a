/**
 * The general helpers: a percentage that is zero against a zero whole, a
 * check that a figure is not negative, and a summary of income and expense
 * lists.
 */
module BasicHelpers {
  import opened Outcomes
  import opened Numeric

  /** `part` as a percentage of `whole`; 0 when the whole is 0. */
  function CalculatePercentage(part: real, whole: real): (r: real)
    ensures whole == 0.0 ==> r == 0.0
    ensures whole != 0.0 ==> r * whole == part * 100.0
  {
    if whole == 0.0 then 0.0 else (part / whole) * 100.0
  }

  /**
   * Against a non-zero whole, the percentage is the part's share of the
   * whole times 100, whatever the share.
   */
  lemma PercentageOfShare(share: real, whole: real)
    requires whole != 0.0
    ensures CalculatePercentage(share * whole, whole) == share * 100.0
  {
    var r := CalculatePercentage(share * whole, whole);
    assert (share * 100.0) * whole == (share * whole) * 100.0;
    CancelWhole(r, share * 100.0, whole);
  }

  /** A larger part of the same positive whole is a larger percentage. */
  lemma PercentageMonotone(part: real, more: real, whole: real)
    requires whole > 0.0 && part <= more
    ensures CalculatePercentage(part, whole) <= CalculatePercentage(more, whole)
  {
    var r, r' := CalculatePercentage(part, whole), CalculatePercentage(more, whole);
    if r > r' {
      MulMonotone(whole, r', r);
    }
  }

  lemma CancelWhole(r: real, p: real, whole: real)
    requires whole != 0.0 && r * whole == p * whole
    ensures r == p
  {
    assert (r - p) * whole == 0.0;
  }

  /** Negative values are refused; every other value, zero included, passes. */
  function ValidatePositiveNumber(value: real): (r: Result<bool>)
    ensures r.Err? <==> value < 0.0
    ensures r.Err? ==> r.error == ValueError("Value must be a positive number.")
    ensures r.Ok? ==> r.value
  {
    if value < 0.0 then Err(ValueError("Value must be a positive number.")) else Ok(true)
  }

  datatype Summary = Summary(totalExpenses: real, totalIncome: real, netWorth: real, expensePercentage: real)

  /** The totals, their difference, and expenses as a percentage of income. */
  function SummarizeFinancialData(expenses: seq<real>, income: seq<real>): (s: Summary)
    ensures s.netWorth == s.totalIncome - s.totalExpenses
    ensures s.totalExpenses == Sum(expenses) && s.totalIncome == Sum(income)
    ensures s.totalIncome == 0.0 ==> s.expensePercentage == 0.0
    ensures s.totalIncome != 0.0 ==> s.expensePercentage * s.totalIncome == s.totalExpenses * 100.0
  {
    var totalExpenses := Sum(expenses);
    var totalIncome := Sum(income);
    Summary(totalExpenses, totalIncome, totalIncome - totalExpenses, CalculatePercentage(totalExpenses, totalIncome))
  }

  /** One more expense raises the expense total by its amount and lowers the net worth by the same. */
  lemma {:induction false} SummaryAddExpense(expenses: seq<real>, income: seq<real>, amount: real)
    ensures SummarizeFinancialData(expenses + [amount], income).totalExpenses ==
      SummarizeFinancialData(expenses, income).totalExpenses + amount
    ensures SummarizeFinancialData(expenses + [amount], income).netWorth ==
      SummarizeFinancialData(expenses, income).netWorth - amount
  {
    SumAppend(expenses, [amount]);
    assert [amount][..0] == [];
  }

  /** Splitting either list in two splits its total the same way. */
  lemma {:induction false} SummarySplits(e1: seq<real>, e2: seq<real>, i1: seq<real>, i2: seq<real>)
    ensures SummarizeFinancialData(e1 + e2, i1 + i2).netWorth ==
      SummarizeFinancialData(e1, i1).netWorth + SummarizeFinancialData(e2, i2).netWorth
  {
    SumAppend(e1, e2);
    SumAppend(i1, i2);
  }
}
