# Retirement planning calculations in Dafny

This project models the calculation core of a personal-finance application's retirement planner.

The retirement calculation engine holds the planning assumptions (`RetirementInputs`) and computes:

- the retirement needs, meaning the inflated income gap and the corpus that funds it;
- the savings projection: current savings and employer-matched contributions compounded to retirement, set against that corpus;
- the catalogue of withdrawal strategies;
- a one-at-a-time sensitivity sweep;
- the Monte Carlo trial logic;
- a tax analysis, with a bracket table and a recommendation list;
- the year-by-year projection;
- a comprehensive plan stored on the engine object.

The goal tracker turns age milestones into savings goals and rates a goal's feasibility.

The retirement helpers cover the standalone calculators:

- inflation impact, compound growth and the required savings rate;
- income replacement from a list of expenses;
- risk factors, salary-multiple milestones and catch-up strategies;
- the Social Security estimate;
- the planning calendar;
- input validation;
- the readiness score and its recommendations;
- the tax efficiency of an account allocation.

The general helpers add a safe percentage, a non-negativity check and a financial summary.

Python floats are modelled as exact reals. Every path on which the Python code raises is modelled as an `Err` of `Outcomes.Result`, not as a precondition. These are `ZeroDivisionError` (a division by zero, or `0.0` raised to a negative power), the `UnboundLocalError` of the catch-up strategies, and the `ValueError` of the number check.

Where the source updates state step by step, the model does the same with a method:

- the engine object's stored results;
- loops that append to lists;
- dictionaries filled in a loop;
- running score totals.

Each such method is proved against a specification function, and the properties are proved about that function.

Values the program reads from the environment are parameters here: the current year, the time of the calculation, and the random draws of the Monte Carlo trials.

## Model

| member | source | states |
|---|---|---|
| Engine.CalculateRetirementNeeds | src/services/retirement_service.py:67-107 | fails (division by zero) exactly when retirement is past and inflation is -100%; otherwise gives the needs record |
| Engine.CorpusFundsPayments | src/services/retirement_service.py:88-96 | `FundsPayments`: at a positive real return the corpus, compounded at that return over the retirement years, equals what the end-of-year payments of the inflated need accumulate to, so it is exactly their present value; at a zero or negative real return it equals those payments added up |
| Engine.AnnuityPresentValue | src/services/retirement_service.py:95-96 | `need * (1 - (1 + r) ** -n) / r` is the present value of `n` end-of-year payments of `need` at a positive rate `r` |
| Engine.CorpusBetweenZeroAndUndiscountedNeed | src/services/retirement_service.py:86-96 | the corpus is never negative and never above the undiscounted sum of retirement payments; at a zero real return it equals that sum |
| Engine.PresentValueFactorBounds | src/services/retirement_service.py:88-93 | the annuity factor `(1 - (1+r)^-n)/r` lies between 0 and n for r > 0 |
| Engine.AnnuityClosedForm | src/services/retirement_service.py:123-131 | the closed-form future value of contributions equals deposit-by-deposit accumulation (a separate reference definition), including the zero-rate case |
| Engine.EmployerMatchCapped | src/services/retirement_service.py:438-453 | the employer match never exceeds income × limit × rate, however large the contribution |
| Engine.EmployerMatchWithoutIncome | src/services/retirement_service.py:438-453 | without a positive salary there is no match |
| Engine.EffectiveAtLeastOwnContribution | src/services/retirement_service.py:438-453 | with non-negative rates, the effective monthly contribution is at least the employee's own |
| Engine.EffectiveContributionMonotone | src/services/retirement_service.py:438-453 | a larger own contribution never gives a smaller effective contribution |
| Engine.SinkingFundMonthly | src/services/retirement_service.py:134-143 | the sinking-fund payment fails only by dividing by zero; at a zero rate it is always defined |
| Engine.SinkingFundClosesGap | src/services/retirement_service.py:134-143 | depositing the payment every month accumulates exactly the gap; for a non-negative rate it is defined, and positive when the gap is |
| Engine.AdditionalMonthly | src/services/retirement_service.py:134-145 | an additional monthly amount is only asked for when there is a gap and time left |
| Engine.CalculateSavingsProjections | src/services/retirement_service.py:109-158 | errors are division by zero; shortfall and surplus are non-negative, at most one is non-zero, and their difference is the corpus minus the projection |
| Engine.SplitGap | src/services/retirement_service.py:146-147 | `max(gap,0)` and `max(-gap,0)` are non-negative, one is zero, and they differ by the gap |
| Engine.ZeroReturnUsesLinearFormulas | src/services/retirement_service.py:117-131 | a zero pre-retirement return uses plain sums |
| Engine.ProjectionsDefined | src/services/retirement_service.py:109-158 | with a non-zero salary, a non-negative return and retirement ahead, the projection never fails |
| Engine.ProjectionMatchesDeposits | src/services/retirement_service.py:120-131 | the contributions' future value equals yearly deposits of the effective contribution grown deposit by deposit (reference definition) |
| Engine.SavingsCompound | src/services/retirement_service.py:115-116 | today's savings grow by the growth factor, which is `(1 + r)` to the power of the years to retirement |
| Engine.ContributionsMonotone | src/services/retirement_service.py:123-131 | a larger yearly contribution never has a smaller future value at a non-negative rate |
| Engine.AdditionalMonthlyClosesShortfall | src/services/retirement_service.py:134-145 | depositing the additional monthly amount until retirement accumulates exactly the shortfall |
| Engine.ProjectedSavingsMonotoneInContribution | src/services/retirement_service.py:109-158 | a higher monthly contribution never lowers the total projected savings |
| Engine.TotalProjectedMonotone | src/services/retirement_service.py:117-131 | the same monotonicity, for the projected total before the gap |
| Engine.ProjectedSavingsMonotoneInRetirementAge | src/services/retirement_service.py:109-130 | a later retirement age never lowers the years to retirement or, with non-negative savings, contributions and return, the total projected savings |
| Engine.TotalProjectedGrowsWithYears | src/services/retirement_service.py:112-130 | the same for the projected total: more years of compounding and deposits never lose money |
| Engine.DepositsGrowWithYears | src/services/retirement_service.py:120-128 | non-negative deposits at a non-negative rate are never negative and never shrink as years are added |
| Engine.TotalMatchesDeposits | src/services/retirement_service.py:117-131 | the projected total is the deposit-by-deposit reference |
| Rules.TaxRateMatchesTable | src/services/retirement_service.py:455-472 | the rate is bracket i's exactly when income lies in bracket i (inclusive upper bounds); only the seven rates occur |
| Rules.TaxRateMonotone | src/services/retirement_service.py:455-472 | a higher income never gets a lower rate |
| Rules.TaxRecommendations | src/services/retirement_service.py:474-504 | traditional, Roth or balanced advice exactly when the current rate is higher, lower or equal; the list always ends with the three universal items |
| Rules.AnalyzeTaxImplications | src/services/retirement_service.py:349-376 | today's rate is the bracket rate of today's income, the retirement rate that of income × the replacement ratio; the difference and the advice follow from the two rates |
| Rules.NoRothAdviceWhenIncomeFalls | src/services/retirement_service.py:349-376 | replacing at most all of income never raises the bracket, so Roth-first advice never appears |
| Rules.AssessRiskLevel | src/services/retirement_service.py:506-516 | low, medium, high or very high exactly on [90,∞), [75,90), [60,75) and below 60 |
| Rules.RiskLevelMonotone | src/services/retirement_service.py:506-516 | a higher success rate is never rated more severe |
| Rules.AnalyzeWithdrawalStrategies | src/services/retirement_service.py:160-217 | fails exactly when the needs do; gives 4% of the corpus, and a bond ladder costing 110% of the corpus and paying the inflated need |
| YearlyProjections.ProjectYears | src/services/retirement_service.py:385-436 | the loop, with its break on an exhausted balance, produces exactly the recursive projection |
| YearlyProjections.GenerateYearlyProjections | src/services/retirement_service.py:378-436 | the loop's rows equal the recursive projection; it fails exactly when the needs do |
| YearlyProjections.ProjectFromTimeline | src/services/retirement_service.py:378-436 | rows run over consecutive ages with the calendar year, in accumulation exactly before retirement |
| YearlyProjections.ProjectFromBalanceChain | src/services/retirement_service.py:395-432 | each row opens with the previous closing balance, positive for all but the last; withdrawal balances are floored at 0 |
| YearlyProjections.ProjectionShape | src/services/retirement_service.py:378-436 | timeline and balance chain hold, with at most `life_expectancy - current_age + 1` rows, and at least one when not past it |
| YearlyProjections.NoNeedRunsToLifeExpectancy | src/services/retirement_service.py:378-436 | with no withdrawal need and non-negative returns, the projection runs to the life expectancy |
| MonteCarlo.Withdrawals | src/services/retirement_service.py:318-327 | one withdrawal per retirement year: the need inflated by that year's drawn rate |
| MonteCarlo.WithdrawFromSurvives | src/services/retirement_service.py:318-332 | the early-exit loop survives exactly when every balance of the uninterrupted walk is positive |
| MonteCarlo.TrialSucceedsIffSolventEveryYear | src/services/retirement_service.py:303-336 | a trial succeeds exactly when its balance stays positive through retirement; its final balance is never negative |
| MonteCarlo.AccumulateTrial | src/services/retirement_service.py:306-315 | the accumulation loop reaches the reference balance at retirement |
| MonteCarlo.WithdrawTrial | src/services/retirement_service.py:318-332 | the withdrawal loop, with its break, gives the reference result |
| MonteCarlo.RunTrial | src/services/retirement_service.py:283-336 | one trial equals the reference trial result |
| MonteCarlo.CountSuccesses | src/services/retirement_service.py:283-336 | the number of successes never exceeds the number of trials |
| MonteCarlo.RunTrials | src/services/retirement_service.py:284-333 | the trial loop records each trial's floored final balance in order and counts exactly the successful trials |
| MonteCarlo.RunMonteCarloSimulation | src/services/retirement_service.py:266-347 | no time before or in retirement gives the invalid-parameters result; zero trials divide by zero; otherwise the success rate is the share of successful trials, in 0..100, with the matching risk level |
| MonteCarlo.RateWithinPercent | src/services/retirement_service.py:338-340 | a success count out of n trials is a percentage between 0 and 100 |
| Sensitivity.Changes | src/services/retirement_service.py:222-227 | five strictly increasing changes per variable, the middle one zero |
| Sensitivity.EntryOf | src/services/retirement_service.py:248-257 | the gap change is the variant's projection minus the baseline; the percentage change is relative to a positive baseline, else 0 |
| Sensitivity.SweepVariable | src/services/retirement_service.py:236-260 | one variable's five rows, each computed from its own variant; fails exactly when some variant cannot be projected |
| Sensitivity.PerformSensitivityAnalysis | src/services/retirement_service.py:219-264 | four variables in order with five rows each, every row computed from its variant; fails exactly when the baseline or a variant cannot be projected |
| Sensitivity.ModifiedChangesOnlyItsVariable | src/services/retirement_service.py:232-245 | a variant changes only its variable; the retirement age is floored at 50 and the contribution at 0 |
| Sensitivity.ZeroChangeReproducesBaseline | src/services/retirement_service.py:219-264 | the zero-change row has no gap or percentage change unless a floor moves the input |
| Sensitivity.ContributionRowsNonDecreasing | src/services/retirement_service.py:219-264 | larger contribution changes never project less |
| Goals.MilestoneAges | src/services/retirement_service.py:530-540 | eight rule ages, the last being the retirement age |
| Goals.CreateMilestoneGoals | src/services/retirement_service.py:525-567 | for a profile already given as planning inputs, the append loop gives the milestones in window, then the final corpus goal; fails exactly when the needs do |
| Goals.MilestonesInWindow | src/services/retirement_service.py:542-555 | every milestone lies after today and no later than retirement, is priority 1 exactly when at most 5 years away, and comes from a rule |
| Goals.MilestonesComplete | src/services/retirement_service.py:542-555 | every rule in the window yields its milestone |
| Goals.MilestonesInRuleOrder | src/services/retirement_service.py:542-555 | milestones keep rule order, so salary multiples increase |
| Goals.FinalCorpusGoalLast | src/services/retirement_service.py:557-567 | the list ends with the priority-1 corpus goal, due at retirement; at most 9 goals |
| Goals.CalculateGoalFeasibility | src/services/retirement_service.py:569-611 | no time means not feasible; otherwise feasible exactly when nothing is missing; the gap is non-negative; the success probability is capped at 100 |
| Goals.ProjectedAmountMatchesDeposits | src/services/retirement_service.py:577-590 | the projected amount is savings compounded plus yearly deposits (reference definition) |
| Goals.AdditionalMonthlyClosesGoalGap | src/services/retirement_service.py:592-604 | the extra monthly amount, deposited every month, accumulates exactly the gap |
| PlanEngine.RetirementCalculationEngine.constructor | src/services/retirement_service.py:33-35 | the engine holds the inputs and no results yet |
| PlanEngine.RetirementCalculationEngine.CalculateComprehensivePlan | src/services/retirement_service.py:37-65 | runs every part in the source's order and stores the plan: needs, projections, strategies, tax analysis and yearly rows are the functions of the inputs, each of the four sensitivity sweeps is the rows of its own variants, and the Monte Carlo report is the count, rate, floored balances and risk band of the given draws; fails exactly when a projection does, leaving the stored results unchanged |
| PlanEngine.PlanIsConsistent | src/services/retirement_service.py:37-65 | a stored plan is internally consistent: the gap split, the shared corpus, the yearly timeline and balance chain, and the ladder paying the inflated need |
| GrowthCalculators.CalculateInflationImpact | src/utils/retirement_helpers.py:22-35 | fails exactly for a zero inflation factor over a non-zero number of years; the future value and purchasing power are the amount scaled up and down by the factor |
| GrowthCalculators.InflationRoundTrip | src/utils/retirement_helpers.py:22-35 | purchasing power times the inflation factor gives the amount back |
| GrowthCalculators.InflationErodesPurchasingPower | src/utils/retirement_helpers.py:22-35 | with non-negative inflation, purchasing power never exceeds the amount and the erosion is between 0% and 100% |
| GrowthCalculators.ReturnPercentage | src/utils/retirement_helpers.py:54-60 | the return percentage is the relative gain over what was invested, 0 when nothing was |
| GrowthCalculators.GrownValue | src/utils/retirement_helpers.py:46-52 | fails exactly for a rate of -100% over a negative time |
| GrowthCalculators.CompoundGrowthAsWritten | src/utils/retirement_helpers.py:37-62 | the calculator as written, including its zero-rate growth figure |
| GrowthCalculators.CalculateCompoundGrowth | src/utils/retirement_helpers.py:37-62 | final value equals principal plus contributions plus growth in both branches; at a zero rate there is no growth |
| GrowthCalculators.CompoundGrowthZeroRateMisreported | src/utils/retirement_helpers.py:40-44 | a zero rate with contributions reports the contributions as investment growth |
| GrowthCalculators.CompoundGrowthDifference | src/utils/retirement_helpers.py:37-62 | the two versions differ only in the zero-rate growth figure |
| GrowthCalculators.CompoundGrowthMatchesDeposits | src/utils/retirement_helpers.py:46-52 | the final value is the principal compounded plus one deposit per year (reference definition) |
| GrowthCalculators.GrownValueClosedForm | src/utils/retirement_helpers.py:46-52 | the closed form of the non-zero-rate branch |
| GrowthCalculators.CalculateRequiredSavingsRate | src/utils/retirement_helpers.py:64-93 | fails exactly for no years, a zero power with a negative exponent, or a growth factor of 1; sizes the corpus at 4% withdrawals |
| GrowthCalculators.LevelDepositAccumulates | src/utils/retirement_helpers.py:78-86 | the level deposit accumulates exactly its target |
| GrowthCalculators.RequiredSavingsCloseGap | src/utils/retirement_helpers.py:64-93 | the required yearly savings, deposited at the return rate, accumulate exactly the additional corpus |
| GrowthCalculators.NoYearsAlwaysRaises | src/utils/retirement_helpers.py:78-86 | with no years to retirement both branches divide by zero |
| IncomeReplacement.LowerFacts | src/utils/retirement_helpers.py:112 | lower-casing keeps the length, leaves no upper-case letter and is idempotent |
| IncomeReplacement.GetPut | src/utils/retirement_helpers.py:115 | after `d[k] = v`, reading `k` gives `v` |
| IncomeReplacement.GetPutOther | src/utils/retirement_helpers.py:115 | `d[k] = v` leaves every other key's amount unchanged |
| IncomeReplacement.PutKeys | src/utils/retirement_helpers.py:115 | `d[k] = v` adds `k` to the keys and no other key |
| IncomeReplacement.PutTotal | src/utils/retirement_helpers.py:115-120 | `d[k] = v` moves the sum of the values by `v` minus the old amount of `k` |
| IncomeReplacement.PutUnique | src/utils/retirement_helpers.py:115 | `d[k] = v` never makes a key occur twice |
| IncomeReplacement.CurrentLedgerUnique | src/utils/retirement_helpers.py:111-115 | the ledger of the expenses never holds a category twice |
| IncomeReplacement.FileExpenses | src/utils/retirement_helpers.py:111-118 | the loop's two dictionaries are the ledger of the expenses and that ledger scaled category by category |
| IncomeReplacement.CurrentLedgerGet | src/utils/retirement_helpers.py:111-115 | each category holds the sum of the amounts filed under it |
| IncomeReplacement.CurrentLedgerKeys | src/utils/retirement_helpers.py:111-115 | the categories present are exactly those that occur |
| IncomeReplacement.CurrentLedgerTotal | src/utils/retirement_helpers.py:111-120 | the current total is the sum of all amounts |
| IncomeReplacement.CalculateIncomeReplacement | src/utils/retirement_helpers.py:95-129 | the loop's dictionaries equal the category ledger and its scaling; the totals are their sums; the annual figure is 12 months; ratio × current = retirement, or 0 when nothing is spent |
| IncomeReplacement.BreakdownPerCategory | src/utils/retirement_helpers.py:111-127 | one breakdown entry per category present, holding that category's total times its factor (default 1.0) |
| IncomeReplacement.ReplacementRatio | src/utils/retirement_helpers.py:126 | with spending today, ratio × current total = retirement total; 0 otherwise |
| IncomeReplacement.ScaledTotalBounds | src/utils/retirement_helpers.py:117-121 | factors between lo and hi put the retirement total between lo and hi times the current total |
| IncomeReplacement.DefaultReplacementBetween | src/utils/retirement_helpers.py:98-106 | with the default factors and non-negative amounts, retirement spending is 60%-150% of today's |
| IncomeReplacement.CurrentLedgerNonNegative | src/utils/retirement_helpers.py:111-115 | non-negative amounts give non-negative category totals |
| RiskFactors.AssessRetirementRiskFactors | src/utils/retirement_helpers.py:131-205 | exactly the six factors, each scored 1..9 by its band applied to the profile value or its default |
| RiskFactors.RiskBandsMonotone | src/utils/retirement_helpers.py:139-203 | each band moves one way: more time or savings never raises risk; higher return, inflation or longevity never lowers it |
| Milestones.GenerateRetirementMilestones | src/utils/retirement_helpers.py:207-231 | the loop keeps exactly the rules in window, in order |
| Milestones.MilestonesInWindow | src/utils/retirement_helpers.py:220-229 | every milestone lies after today and no later than retirement, is a salary multiple, and is high priority exactly when at most 5 years away |
| Milestones.MilestonesComplete | src/utils/retirement_helpers.py:220-229 | every rule in window yields its milestone |
| Milestones.MilestonesFollowRuleOrder | src/utils/retirement_helpers.py:220-229 | ascending rule ages give ascending milestone ages |
| Milestones.RetirementMilestonesOrdered | src/utils/retirement_helpers.py:207-231 | at most 9 milestones, in age order, with the 10× retirement milestone last when retirement lies ahead |
| CatchUp.CalculateCatchUpStrategies | src/utils/retirement_helpers.py:233-277 | the loops' strategies equal the plan: none without a shortfall, 7 with years left, the unbound-variable error, or the 3 reductions |
| CatchUp.AppendWorkLonger | src/utils/retirement_helpers.py:250-262 | the work-longer loop reads the monthly amount only when it exists, else raises the unbound-variable error |
| CatchUp.AppendReductions | src/utils/retirement_helpers.py:264-275 | the reduction loop appends one strategy per reduction in order |
| CatchUp.CatchUpShape | src/utils/retirement_helpers.py:233-277 | result sizes and kinds for each case of shortfall and years |
| CatchUp.IncreaseClosesShortfall | src/utils/retirement_helpers.py:239-248 | the added total, grown by the discount, is the shortfall; high feasibility exactly when under half the current saving |
| CatchUp.WorkingLongerNeedsLess | src/utils/retirement_helpers.py:250-262 | each extra year lowers the monthly amount needed, given a discount that does not fall |
| CatchUp.ReductionScalesAmount | src/utils/retirement_helpers.py:264-275 | a reduction scales the monthly amount by the remaining share of the shortfall; medium for 10%/15%, low for 20% |
| SocialSecurity.LastTen | src/utils/retirement_helpers.py:283-284 | the last ten earnings, or all when fewer |
| SocialSecurity.EarlyReduction | src/utils/retirement_helpers.py:303-307 | early claiming loses more than 0 and at most 25% |
| SocialSecurity.MonthlyAverage | src/utils/retirement_helpers.py:287-288 | twelve months of the average in each year add up to the total |
| SocialSecurity.CalculateSocialSecurityEstimate | src/utils/retirement_helpers.py:279-317 | fails exactly for an empty earnings history; the monthly average times 12 times the count is the total |
| SocialSecurity.PrimaryInsuranceAmountMonotone | src/utils/retirement_helpers.py:290-299 | the three-tier amount is non-decreasing and gains 15%-90% of each extra dollar, so the tiers meet |
| SocialSecurity.ClaimingAgeAdjustment | src/utils/retirement_helpers.py:301-311 | early claiming keeps at least 75%; each year of delay adds 8%; claiming at 67 pays the amount itself |
| RetirementCalendar.CreateRetirementCalendar | src/utils/retirement_helpers.py:319-376 | the two loops plus the retirement event, sorted by year, equal the specification |
| RetirementCalendar.SortByYearCorrect | src/utils/retirement_helpers.py:376 | the sort orders by year, is a permutation, and keeps collection order within each year (stable) |
| RetirementCalendar.InsertSorted | src/utils/retirement_helpers.py:376 | insertion into a sorted list keeps it sorted |
| RetirementCalendar.InsertPermutes | src/utils/retirement_helpers.py:376 | insertion adds exactly the event |
| RetirementCalendar.InsertStable | src/utils/retirement_helpers.py:376 | an inserted event goes after the events of its own year |
| RetirementCalendar.MilestoneEventsFacts | src/utils/retirement_helpers.py:343-352 | milestones are exactly the listed ages at or after today, dated by the years to them |
| RetirementCalendar.ReviewsFacts | src/utils/retirement_helpers.py:365-374 | one review per year, from next year to the last one |
| RetirementCalendar.CollectedDating | src/utils/retirement_helpers.py:343-374 | every event's year minus its age is the current year minus the current age |
| RetirementCalendar.CollectedReviews | src/utils/retirement_helpers.py:365-374 | a review for every year from 1 to `retirement_age - current_age + 4` |
| RetirementCalendar.CollectedKinds | src/utils/retirement_helpers.py:343-374 | before sorting, the milestone events are the listed ages ahead and the retirement event is the only one; the count is milestones + 1 + reviews |
| RetirementCalendar.CalendarContents | src/utils/retirement_helpers.py:319-376 | the calendar is sorted, holds the milestones ahead, the retirement date as its only retirement event, and every review; its length is their count |
| Validation.CheckRequiredFields | src/utils/retirement_helpers.py:385-388 | an error for a required field exactly when it is missing or not positive; none exactly when all four are positive |
| Validation.CheckSavingsRate | src/utils/retirement_helpers.py:417-425 | too high above 50%, too low below 10%, only when both figures are positive |
| Validation.CheckRateRanges | src/utils/retirement_helpers.py:403-415 | a warning for each of the two returns and inflation exactly when its value (default 0) is negative or above its ceiling |
| Validation.CheckEmployerMatch | src/utils/retirement_helpers.py:427-433 | a warning exactly when the match rate exceeds 100% or the limit 15% |
| Validation.CheckPlausibility | src/utils/retirement_helpers.py:403-433 | each range warning exactly when its figure (or default) is out of range |
| Validation.ValidateRetirementInputs | src/utils/retirement_helpers.py:378-435 | the order errors exactly when both ages are set and out of order; no errors exactly when the required figures are positive and the ages strictly increase; short-horizon warnings only when the order check passed |
| Readiness.ComponentBounds | src/utils/retirement_helpers.py:444-536 | each component stays within its maximum; feasibility fails exactly for a shortfall against a zero corpus |
| Readiness.CalculateRetirementReadinessScore | src/utils/retirement_helpers.py:437-574 | components recorded with their maxima; the total is their sum, between 7 and 100; the percentage equals the total; grade and recommendations follow the components |
| Readiness.Percentage | src/utils/retirement_helpers.py:544 | out of a maximum of 100 the percentage is the score |
| Readiness.ScoreBandsMonotone | src/utils/retirement_helpers.py:444-561 | more time, savings rate or progress never score lower; a larger shortfall share never scores higher; the grade never drops as the percentage rises |
| Readiness.ProgressMonotone | src/utils/retirement_helpers.py:487-510 | more savings never lower the progress score |
| Readiness.DiversificationAdviceWithoutMatch | src/utils/retirement_helpers.py:528-536 | diversification advice is given exactly when there is no employer match |
| Readiness.GroupAdviceFacts | src/utils/retirement_helpers.py:576-609 | each component's advice is exactly the advice naming it, in order |
| Readiness.RankFollowsFactor | src/utils/retirement_helpers.py:576-609 | advice for an earlier component comes first |
| Readiness.AppendGroup | src/utils/retirement_helpers.py:581-607 | appends a component's advice exactly when it is below threshold, keeping order |
| Readiness.GenerateScoreBasedRecommendations | src/utils/retirement_helpers.py:576-609 | a piece of advice appears exactly when its component is below threshold, once, in the source's order |
| TaxEfficiency.CalculateTaxEfficiencyScore | src/utils/retirement_helpers.py:660-711 | a zero total gives 0 and the start advice; otherwise the shares are the balances' parts of the total, the score is never above 90, the advice matches its conditions, and HSA advice comes last |
| TaxEfficiency.TaxScoreRange | src/utils/retirement_helpers.py:677-703 | with non-negative balances the score is 10..90, and a balanced, fully tax-advantaged allocation scores 90 |
| BasicHelpers.CalculatePercentage | src/utils/helpers.py:19-23 | 0 against a zero whole, otherwise result × whole = part × 100 |
| BasicHelpers.PercentageOfShare | src/utils/helpers.py:19-23 | for any share and non-zero whole, `share * whole` is `share * 100` percent of the whole |
| BasicHelpers.PercentageMonotone | src/utils/helpers.py:19-23 | against the same positive whole, a larger part is never a smaller percentage |
| BasicHelpers.ValidatePositiveNumber | src/utils/helpers.py:5-9 | raises exactly for a negative value; accepts 0 |
| BasicHelpers.SummarizeFinancialData | src/utils/helpers.py:25-34 | the totals are the list sums; net worth is income minus expenses; the expense percentage is 0 without income |
| BasicHelpers.SummaryAddExpense | src/utils/helpers.py:25-34 | one more expense raises the expense total and lowers net worth by its amount |
| BasicHelpers.SummarySplits | src/utils/helpers.py:25-34 | net worth adds up over split lists |

## Left out

- Random draws: the Monte Carlo returns and inflation draws (numpy normal samples) are parameters. The model does not cover the distributions, the seed, or the mean, median and percentile statistics of the final balances.
- Clock: `datetime.now()` is a parameter, both as the current year and as the time of a calculation.
- Floating point: Python floats are exact reals, so rounding and overflow are not modelled.
- Catch-up discount: `1.07 ** (years / 2)` has a fractional exponent, so `CatchUp` takes it as a positive function `discount` of the years.
- `CatchUp.WorkingLongerNeedsLess` assumes that discount does not fall as the years grow, which `1.07 ** (n / 2)` satisfies.
- Database and session functions: `calculate_retirement_plan`, `calculate_retirement_score`, `generate_retirement_recommendations`, `init_retirement_service` and `RetirementGoalTracker.__init__`. They are ORM I/O.
- Goals.CreateMilestoneGoals: takes the profile as an already converted `RetirementInputs` value and does not model the conversion `RetirementInputs(**profile.__dict__)` at src/services/retirement_service.py:554. A profile loaded from the database (src/database/models.py:74-116) also carries its mapper state, `id`, `user_id`, timestamps and `is_active` in `__dict__`. The dataclass constructor rejects those keys with TypeError, so for such a profile the source raises instead of returning goals. The model does not capture that failure.
- Display code: `format_currency`, `format_percentage`, `format_financial_summary`, `parse_date`, the CSV export and the Streamlit display helpers are formatting or UI.
- Message text:
  - validation errors and warnings, readiness advice and tax advice are constructors. `Readiness.Message`, `TaxEfficiency.Message` and `Rules.Text` give the advice texts.
  - milestone and calendar titles and descriptions are not modelled.
- Social Security: `birth_year` is accepted and unused, as in the source.
- Case folding: category lower-casing covers ASCII letters only.
- Tax efficiency input: the account dictionary is its five named balances plus one sum of all other balances, which only count towards the total.
- Readiness input: the calculation results are modelled by their `savings_projections` entry only, and profile values are reals.
- Validation input: the inputs dictionary is a `map` keyed by the `Field` datatype of the ten keys the validator reads; entries under other keys are never read, so they are not represented.
- Python dictionaries are `map`s where only lookups matter. Where insertion order or a sum of values matters (the income-replacement ledgers), they are association lists.
- Calendar ages: the current and retirement ages are integers, as `range` requires.

## Findings

| source | as written | input that shows it | evidently intended | confidence | as-written member | corrected member |
|---|---|---|---|---|---|---|
| src/utils/retirement_helpers.py:40-44 | with a zero rate, `investment_growth` is set to `contributions * time`, i.e. the deposits themselves | principal 1000, rate 0, time 10, contributions 100: final value 2000, total contributions 1000, investment growth reported as 1000 | growth is what the final value adds beyond principal and contributions, as in the non-zero branch: 0 at a zero rate | high (not executed) | GrowthCalculators.CompoundGrowthZeroRateMisreported | GrowthCalculators.CalculateCompoundGrowth |
