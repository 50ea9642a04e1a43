# Karaoke-pub investment appraisal, modelled in Dafny

This project models the computational core of a small Streamlit application
that compares two investment proposals: Planet Karaoke Pub, a 4-year lease,
and Beach Karaoke Pub, a 6-year build. The model covers these parts:

- **Appraisal engine** (`src/util/functions.py`): the discount-rate
  validator, NPV, the IRR objective, the payback period, the extension of a
  series to a common (LCM) horizon, the equivalent annual annuity (EAA) and
  the profitability index.
- **Cash-flow builder** (`src/util/create_df.py`): each project's yearly
  schedule. The scenario constants give Initial Investment, revenues, costs
  and depreciation. EBT, Net Income and Operating Cash Flow are derived from
  them in that order, and the table is then transposed.
- **Series extraction** (`src/pages/2_Analysis.py`): the cash-flow series
  the Analysis page builds from the transposed table. It takes year 0 of the
  Initial Investment row, then years 1..N of the Operating Cash Flow row.
- **Charts** (`src/util/charts.py`): the numbers the charts plot. These are
  the discounted cash flows, the waterfall bar values and labels, the
  cumulative sums, and the payback index of the payback plot.

Python floats are modelled as exact reals (`real`), and `x ** n` as a
recursive `Pow` with a natural exponent.

Module layout:

- `real_math.dfy` (`RealMath`): `Pow`, the left-to-right `Sum`, and their
  lemmas.
- `appraisal.dfy` (`Appraisal`): `functions.py`.
- `cash_flow_builder.dfy` (`CashFlowBuilder`): `create_df.py`. A frame is a
  record with one sequence per column. A derived column is `[]` until its
  step has run.
- `charts.dfy` (`Charts`): `charts.py`.
- `analysis.dfy` (`Analysis`): the series the Analysis page hands to the
  engine, plus the properties of the whole pipeline for the inputs the
  sidebar allows.
- `wrappers.dfy` (`Wrappers`): `Option` and `Result`.

Three loops are modelled as methods and proved against specification
functions:

- `compute_payback_period` against `PaybackPeriod`;
- `extend_cashflows_for_LCM` against `ExtendedCashflows`;
- the break-loop of `plot_payback_period` against `ChartPaybackIndex`.

`compute_discounted_cash_flow` is proved against `PresentValues`, the same
list the IRR objective sums.

Where the code raises or crashes, the model does this:

- `compute_NPV` rejects a rate outside [0, 1] with a `ValueError`. The model
  returns `Failure(DiscountRateOutOfRange)`.
- Indexing an empty list raises `IndexError`. The model makes a non-empty
  series a precondition.
- A zero denominator raises `ZeroDivisionError`. The model makes a non-zero
  denominator a precondition. One case is `1 + rate == 0` with a later flow
  present; Python's `0.0 ** 0` is 1, so a single-element series is still
  allowed there.

## Model

| member | source | states |
|---|---|---|
| Appraisal.ValidateDiscountRate | src/util/functions.py:13-18 | the rate is accepted exactly when 0 <= rate <= 1 |
| Appraisal.PresentValues | src/util/functions.py:140-142 | every flow divided by (1 + r) to the power of its own index, year 0 included; one entry per flow (its sum is related to the NPV by IrrObjectiveIsNpv) |
| Appraisal.DiscountedInflows | src/util/functions.py:34-36 | the flows of years 1..N, each divided by (1 + r) to the power of its year; one entry per later flow |
| Appraisal.NpvValue | src/util/functions.py:34-36 | CF_0 plus the sum of the discounted later flows; NpvAtZeroRate and NpvDecreasesWithRate state its value at rate 0 and its monotonicity |
| Appraisal.ComputeNpv | src/util/functions.py:21-37 | fails exactly when the rate is outside [0, 1]; otherwise returns CF_0 plus the sum of CF_t / (1 + r)^t over t >= 1 |
| Appraisal.IrrObjective | src/util/functions.py:52 | the sum of every flow discounted by its own index; IrrObjectiveIsNpv proves it is the NPV wherever both are defined |
| Appraisal.IrrObjectiveIsNpv | src/util/functions.py:52 | the IRR objective, which sums every flow discounted by its own index, equals the NPV at every rate where both are defined |
| Appraisal.ComputeNpvIsIrrObjective | src/util/functions.py:31-37 | for every valid rate compute_NPV returns the IRR objective's value; for any other rate it returns the range error |
| Appraisal.NpvOfOneFlow | src/util/functions.py:34-36 | a one-element series has NPV equal to that element, whatever the rate |
| Appraisal.NpvAtZeroRate | src/util/functions.py:34-36 | at rate 0 the NPV is the plain sum of the flows |
| Appraisal.PresentValueAtZeroRate | src/util/functions.py:35 | at rate 0 a flow's present value is the flow itself, whatever its year |
| Appraisal.DiscountedInflowsAtZeroRate | src/util/functions.py:34-36 | at rate 0 the discounted later flows are exactly CF_1..CF_N |
| Appraisal.NpvDecreasesWithRate | src/util/functions.py:34-36 | when later flows are non-negative and one is positive, NPV strictly decreases as the rate rises above -100% |
| Appraisal.IrrRootIsUnique | src/util/functions.py:52-56 | for such a series the IRR objective has at most one root above -100%; a root below -100% may still exist, and fsolve may return it |
| Appraisal.IrrObjectiveRootBelowMinusOne | src/util/functions.py:52-56 | the objective of [-1, 0, 4], a series meeting IrrRootIsUnique's conditions, vanishes both at 100% and at -300% |
| Appraisal.IrrOfSimpleInvestment | src/util/functions.py:52 | the objective of [-1000, 1100] vanishes at 10%, and its undiscounted NPV is 100 |
| Appraisal.PaybackFrom | src/util/functions.py:76-81 | returns the first payback year at or after p, or None when no later year pays back |
| Appraisal.PaybackPeriod | src/util/functions.py:62-81 | returns the least year p >= 1 whose running sum CF_1..CF_p reaches abs(CF_0), or None exactly when no year does |
| Appraisal.ComputePaybackPeriod | src/util/functions.py:72-81 | the running-sum loop returns exactly PaybackPeriod |
| Appraisal.PaybackExamples | src/util/functions.py:62-81 | [-1000, 400, 400, 400, 400] pays back in year 3; [-1000, 100] never does |
| Appraisal.Repeat | src/util/functions.py:101-102 | k repetitions of a block have k times its length |
| Appraisal.ExtendedCashflows | src/util/functions.py:84-104 | CF_0 once, then max(0, lcm // (n - 1)) copies of CF_1..CF_{n-1}; it has that length |
| Appraisal.ExtendCashflowsForLcm | src/util/functions.py:97-104 | the extend loop builds exactly ExtendedCashflows |
| Appraisal.RepeatAt | src/util/functions.py:101-102 | element j of copy i of the block is block[j] |
| Appraisal.ExtendedCashflowsAt | src/util/functions.py:100-102 | in the extended series, position 1 + i(n-1) + j holds CF_{1+j} for each copy i |
| Appraisal.ExtendedCashflowsCycle | src/util/functions.py:100-102 | every later position m holds CF_{1 + (m-1) mod (n-1)}; the initial investment is never repeated |
| Appraisal.ExtendedCashflowsOneLife | src/util/functions.py:97-102 | extending to the project's own life returns the series unchanged |
| Appraisal.ExtendedCashflowsExample | src/util/functions.py:84-104 | [-100, 50, 50] over 6 years becomes CF_0 followed by six 50s, seven elements |
| Appraisal.CalculateEaa | src/util/functions.py:107-123 | the NPV times the annuity factor r / (1 - (1 + r)^-n), defined exactly where Python does not divide by zero; EaaAnnuityHasSameNpv proves it is the level payment with that NPV |
| Appraisal.EaaDomain | src/util/functions.py:120 | the annuity factor is defined only for a non-zero rate and n >= 1, and is always defined for a positive rate and n >= 1 |
| Appraisal.EaaHasSignOfNpv | src/util/functions.py:120-121 | for a positive rate the EAA is positive, negative or zero exactly when the NPV is |
| Appraisal.EaaOneYear | src/util/functions.py:120-121 | over one year the EAA is npv * (1 + r) |
| Appraisal.OneYearFactor | src/util/functions.py:120 | for n = 1 the annuity factor r / (1 - (1 + r)^-1) is 1 + r |
| Appraisal.AnnuityClosedForm | src/util/functions.py:120 | rate times the sum of 1/(1+r)^t for t = 1..n equals 1 - (1+r)^-n, the denominator of the annuity factor |
| Appraisal.AnnuityCashFlows | src/util/functions.py:107-123 | the annuity series is 0 in year 0, then the payment in each of years 1..n |
| Appraisal.AnnuityPresentValueIsSum | src/util/functions.py:120 | the annuity's present value is the sum of the discount weights 1 / (1 + r)^t over t = 1..n |
| Appraisal.AnnuityInflowsScaled | src/util/functions.py:34-36 | each discounted annuity payment is the payment times that year's discount weight |
| Appraisal.AnnuityInflowsSum | src/util/functions.py:120 | the discounted inflows of that annuity add up to payment times the annuity present value |
| Appraisal.AnnuityNpv | src/util/functions.py:31-37 | the NPV of a level n-year annuity is the payment times the annuity's present value |
| Appraisal.AnnuityFactorIsReciprocal | src/util/functions.py:120 | the annuity factor times the annuity's present value is 1, so the factor turns a present value into its level payment |
| Appraisal.EaaAnnuityHasSameNpv | src/util/functions.py:107-123 | an annuity paying the EAA for n years has exactly the NPV the EAA was computed from |
| Appraisal.ProfitabilityIndex | src/util/functions.py:126-147 | the present value of all flows minus CF_0, divided by -CF_0; ProfitabilityIndexMatchesNpv relates it to the NPV |
| Appraisal.ProfitabilityIndexMatchesNpv | src/util/functions.py:126-147 | PI is the present value of CF_1.. per unit of -CF_0, and equals 1 + NPV / -CF_0; for an outlay, PI > 1 exactly when NPV > 0 and PI = 1 exactly when NPV = 0 |
| Appraisal.ShiftedRatio | src/util/functions.py:145-147 | with c = -CF_0 > 0, (npv + c) / c is 1 + npv / c; it exceeds 1 exactly when npv > 0 and equals 1 exactly when npv = 0 |
| RealMath.Pow | src/util/functions.py:35 | (1 + r) ** t is non-zero when the base is, positive for a positive base, and at least 1 for a base of at least 1 |
| RealMath.PowStrictlyIncreasing | src/util/functions.py:35 | a larger positive base gives a strictly larger positive power, so discount factors grow with the rate |
| RealMath.SumConcat | src/util/functions.py:34-36 | the sum of a concatenation is the sum of the parts |
| RealMath.SumMonotone | src/util/functions.py:34-36 | sums are monotone in each element |
| RealMath.SumStrictlyMonotone | src/util/functions.py:34-36 | sums are strictly monotone once one element is strictly smaller |
| RealMath.SumScaled | src/util/functions.py:34-36 | scaling every element by k scales the sum by k |
| CashFlowBuilder.SumPlus | src/util/create_df.py:38 | the column sum of Net Income + Depreciation is the sum of the two column sums |
| CashFlowBuilder.SumTimes | src/util/create_df.py:37 | the column sum of EBT * (1 - tax) is (1 - tax) times the EBT sum |
| CashFlowBuilder.CashFlowCoversDepreciation | src/util/create_df.py:37-38 | for non-negative EBT and a tax rate of at most 1, Operating Cash Flow is at least Depreciation |
| CashFlowBuilder.ComputeFinancialsPlanet | src/util/create_df.py:4-40 | the planet frame: the scenario columns, then EBT, Net Income and Operating Cash Flow derived in that order; the Planet* lemmas below state its columns |
| CashFlowBuilder.PlanetColumnsSpanFiveYears | src/util/create_df.py:4-40 | the planet frame has years 0..4 and every column, derived ones included, spans five years |
| CashFlowBuilder.PlanetInitialInvestment | src/util/create_df.py:7 | the planet outlay -investment sits in year 0 and nowhere else |
| CashFlowBuilder.PlanetDepreciation | src/util/create_df.py:18-24 | depreciation is 0 in year 0 and investment / 4 in years 1..4, adding up to the investment |
| CashFlowBuilder.PlanetDerivedColumns | src/util/create_df.py:30-38 | EBT, Net Income and Operating Cash Flow in each year follow from the input columns and the tax rate |
| CashFlowBuilder.PlanetIgnoresNetRoomRevenue | src/util/create_df.py:30-38 | Net Room Revenue influences none of the derived planet columns |
| CashFlowBuilder.PlanetYearZero | src/util/create_df.py:30-38 | EBT, Net Income and Operating Cash Flow are 0 in year 0 |
| CashFlowBuilder.PlanetTaxExtremes | src/util/create_df.py:37-38 | at 0% tax the planet cash flow is revenue minus costs; at 100% tax it is the depreciation alone |
| CashFlowBuilder.TransposePlanet | src/util/create_df.py:43-52 | the planet table with one row per column in frame order; TransposePlanetShape states its rows |
| CashFlowBuilder.TransposePlanetShape | src/util/create_df.py:43-52 | the transposed planet table has nine distinctly named rows, each spanning Year 0..Year 4, opening with Initial Investment and closing with Operating Cash Flow |
| CashFlowBuilder.ComputeFinancialsBeach | src/util/create_df.py:55-130 | the beach frame, built the same way over seven years; the Beach* lemmas below state its columns |
| CashFlowBuilder.BeachColumnsSpanSevenYears | src/util/create_df.py:55-130 | the beach frame has years 0..6 and every column spans seven years |
| CashFlowBuilder.BeachInitialInvestment | src/util/create_df.py:58-66 | the beach outlay -investment - 900000 sits in year 0 and nowhere else |
| CashFlowBuilder.BeachDepreciation | src/util/create_df.py:105-113 | depreciation is (investment + 900000) / 6 in years 1..6 and adds up to minus the year-0 outlay |
| CashFlowBuilder.BeachDerivedColumns | src/util/create_df.py:118-128 | the beach EBT, Net Income and Operating Cash Flow in each year follow from the input columns and the tax rate |
| CashFlowBuilder.BeachIgnoresNetRoomRevenue | src/util/create_df.py:118-128 | Net Room Revenue influences none of the derived beach columns |
| CashFlowBuilder.BeachYearZero | src/util/create_df.py:118-128 | the beach derived columns are 0 in year 0 |
| CashFlowBuilder.BeachTaxExtremes | src/util/create_df.py:127-128 | at 0% tax the beach cash flow is revenue minus costs; at 100% tax it is the depreciation alone |
| CashFlowBuilder.TransposeBeach | src/util/create_df.py:133-153 | the beach table with one row per column in frame order; TransposeBeachShape states its rows |
| CashFlowBuilder.TransposeBeachShape | src/util/create_df.py:133-153 | the transposed beach table has eleven distinctly named rows, each spanning Year 0..Year 6 |
| Charts.ComputeDiscountedCashFlow | src/util/charts.py:48-65 | leaves CF_0 as is, divides each later CF_t by (1 + r)^t, and is the list the IRR objective sums; at rate 0 it is the input |
| Charts.WaterfallLabels | src/util/charts.py:88-92 | n + 2 labels, opening with "Before investment" and closing with "End of project"; WaterfallLabelsDistinct proves them pairwise distinct |
| Charts.NatToStringRoundTrip | src/util/charts.py:90 | reading a year's decimal label back gives the year |
| Charts.YearLabelsDiffer | src/util/charts.py:90 | two different years get different "Year i" labels |
| Charts.WaterfallLabelInitials | src/util/charts.py:88-92 | the first bar's label starts with B, every year bar's with Y and the last bar's with E |
| Charts.WaterfallLabelsDistinct | src/util/charts.py:88-92 | the waterfall bar labels are pairwise distinct |
| Charts.CreateWaterfallChart | src/util/charts.py:68-92 | the bars are a 0 start, the discounted flows, and a total equal to the NPV compute_NPV returns for the same valid rate; the labels run from "Before investment" through "Year 0".."Year N" to "End of project" |
| Charts.Cumulative | src/util/charts.py:148 | one cumulative value per year; CumulativeIsRunningTotal proves it a running total |
| Charts.CumulativeIsRunningTotal | src/util/charts.py:148 | each cumulative value is the previous one plus the year's flow, and the last is the total |
| Charts.RecoveryFrom | src/util/charts.py:152-155 | returns the first year at or after i whose cumulative sum is >= 0, or None when there is none |
| Charts.ChartPaybackIndex | src/util/charts.py:150-155 | the payback plot marks the least year whose cumulative sum is >= 0, or nothing exactly when no year qualifies |
| Charts.PlotPaybackPeriod | src/util/charts.py:146-155 | the loop with break finds exactly ChartPaybackIndex, and the marked cumulative value is >= 0 |
| Charts.ChartPaybackAgreesWithEngine | src/util/charts.py:146-155 | when CF_0 < 0 the chart marks the year compute_payback_period returns; otherwise the chart marks year 0, which compute_payback_period never returns |
| Analysis.ExtractCashFlow | src/pages/2_Analysis.py:67-69 | the series has the last row's length, starts with the first row's year-0 value and continues with the last row's years 1.. |
| Analysis.PlanetCashFlow | src/pages/2_Analysis.py:67-69 | the planet series read off the transposed planet table; PlanetCashFlowSeries states its flows |
| Analysis.BeachCashFlow | src/pages/2_Analysis.py:74-76 | the beach series read off the transposed beach table; BeachCashFlowSeries states its flows |
| Analysis.PlanetCashFlowSeries | src/pages/2_Analysis.py:67-69 | the planet series is -investment followed by the Operating Cash Flow of years 1..4, five flows |
| Analysis.BeachCashFlowSeries | src/pages/2_Analysis.py:74-76 | the beach series is -investment - 900000 followed by the Operating Cash Flow of years 1..6, seven flows |
| Analysis.PlanetNpvAtZeroRate | src/pages/2_Analysis.py:67-69 | the undiscounted planet NPV is (1 - tax) times total EBT, because the depreciation added back repays the outlay exactly |
| Analysis.BeachNpvAtZeroRate | src/pages/2_Analysis.py:74-76 | the same for the beach series |
| Analysis.PlanetEarningsPositive | src/util/create_df.py:30-35 | for any planet investment up to 1000000, EBT is positive in every operating year |
| Analysis.BeachEarningsPositive | src/util/create_df.py:118-125 | for any beach investment up to 1200000, EBT is positive in every operating year |
| Analysis.CoveredSeriesIsConventional | src/util/create_df.py:37-38 | if each later cash flow covers a positive depreciation charge and those charges add up to the outlay, the series starts with an outlay, earns in every later year and repays the outlay |
| Analysis.PlanetColumnsCoverOutlay | src/util/create_df.py:4-40 | the planet frame meets those conditions for every sidebar input |
| Analysis.BeachColumnsCoverOutlay | src/util/create_df.py:55-130 | the beach frame meets those conditions for every sidebar input |
| Analysis.PlanetSeriesIsConventional | src/util/sidebar.py:33-39 | for every tax rate in [0, 1] and every planet investment in [770000, 1000000], the planet series is an outlay followed by positive flows that repay it |
| Analysis.BeachSeriesIsConventional | src/util/sidebar.py:45-51 | the same for every beach investment in [800000, 1200000] |
| Analysis.ConventionalConsequences | src/pages/2_Analysis.py:81-92 | such a series pays back by its last year; the chart and compute_payback_period agree; NPV falls as the rate rises; the IRR objective has at most one root above -100% |
| Analysis.AnalysisPaybackConsistent | src/pages/2_Analysis.py:90-92 | for every sidebar input both projects have a payback period, and each payback chart marks that same year |

## Left out

- compute_IRR's root search: `fsolve` from SciPy (functions.py:55-58) is numerical foreign code. The model states the objective it solves and proves that it has at most one root above -100% for conventional series, but computes no root. fsolve may still return a root below -100% (`IrrObjectiveRootBelowMinusOne`).
- Validator.validate_cash_flows and the `isinstance` checks: the model's types already make the series a list of numbers.
- The discount rate's `isinstance` check is left out for the same reason. Only the range check is modelled.
- IEEE-754 rounding: every float is an exact real. The `round` calls on the pages are also left out.
- ProfitabilityIndex: for CF_0 == 0 numpy returns inf or nan instead of raising. The model requires CF_0 != 0 and does not model that result.
- ExtendCashflowsForLcm: a one-element series raises `ZeroDivisionError` at `// 0`. The model requires at least two elements.
- CalculateEaa: a negative lifespan n is not modelled, because n is a natural number. The zero-denominator cases are preconditions: rate 0, n 0, rate -1, and rate -2 with an even n, where (1 + r)^-n is 1.
- Discount rate -1 with a later flow present (`0.0 ** t` in a denominator) is a precondition wherever flows are discounted.
- The page scripts' duplicated helpers in Home.py and 1_Cashflow.py are not part of this model. Neither are 1_Data.py and 3_Evaluation.py.
- The one-argument `compute_NPV(planet_cash_flow)` calls at 2_Analysis.py:82-83 raise `TypeError` in the source. The model gives compute_NPV its declared two arguments.
- Plotly figure construction, `plot_irr_gauge` (a gauge display of a given number) and the waterfall's `print` are display only.
- Streamlit widgets and layout are not modelled. The sidebar's ranges appear only as the input predicates of the Analysis lemmas.
- The sidebar's debt, cost of equity and interest-rate inputs (sidebar.py:11-30) are unpacked by the pages but feed no function in the modelled files, so the model has no counterpart for them.
