/** The cash-flow builder of src/util/create_df.py. Each builder fills a
    DataFrame from the scenario constants, one investment amount and a tax
    rate, then adds the derived columns EBT, Net Income and Operating Cash
    Flow one after the other. A frame is a record with one equal-length
    sequence per column (index = year); a derived column is [] until the
    step that adds it has run. */
module CashFlowBuilder {
  import opened RealMath

  // ---------------------------------------------------------------------
  // Element-wise column arithmetic, as pandas evaluates df["a"] - df["b"].

  function Minus(a: seq<real>, b: seq<real>): (c: seq<real>)
    requires |a| == |b|
  {
    seq(|a|, i requires 0 <= i < |a| => a[i] - b[i])
  }

  function Plus(a: seq<real>, b: seq<real>): (c: seq<real>)
    requires |a| == |b|
  {
    seq(|a|, i requires 0 <= i < |a| => a[i] + b[i])
  }

  function Times(a: seq<real>, k: real): (c: seq<real>) {
    seq(|a|, i requires 0 <= i < |a| => a[i] * k)
  }

  /** Column sums distribute over element-wise addition. */
  lemma {:induction false} SumPlus(a: seq<real>, b: seq<real>)
    requires |a| == |b|
    ensures Sum(Plus(a, b)) == Sum(a) + Sum(b)
    decreases |a|
  {
    if |a| > 0 {
      var n := |a| - 1;
      assert Plus(a, b)[..n] == Plus(a[..n], b[..n]);
      SumPlus(a[..n], b[..n]);
    }
  }

  /** Column sums scale with an element-wise factor. */
  lemma {:induction false} SumTimes(a: seq<real>, k: real)
    ensures Sum(Times(a, k)) == Sum(a) * k
    decreases |a|
  {
    if |a| > 0 {
      var n := |a| - 1;
      var front := Times(a, k)[..n];
      assert |front| == |Times(a[..n], k)|;
      forall i | 0 <= i < n
        ensures front[i] == Times(a[..n], k)[i]
      {
      }
      assert front == Times(a[..n], k);
      SumTimes(a[..n], k);
    }
  }

  /** Net Income is EBT scaled by the share the tax leaves, year by year. */
  function NetIncomeColumn(ebt: seq<real>, tax: real): seq<real> {
    Times(ebt, 1.0 - tax)
  }

  /** Operating Cash Flow adds Depreciation back to Net Income, year by year. */
  function OperatingCashFlowColumn(netIncome: seq<real>, depreciation: seq<real>): seq<real>
    requires |netIncome| == |depreciation|
  {
    Plus(netIncome, depreciation)
  }

  /** Non-negative EBT keeps Operating Cash Flow at least Depreciation for a
      tax rate of at most 100%. */
  lemma CashFlowCoversDepreciation(ebt: real, tax: real, dep: real)
    requires ebt >= 0.0 && tax <= 1.0
    ensures ebt * (1.0 - tax) + dep >= dep
  {
    assert ebt * (1.0 - tax) >= 0.0;
  }

  /** One line of the transposed table: a category and its values for
      Year 0, Year 1, ... */
  datatype Row = Row(category: string, values: seq<real>)

  // ---------------------------------------------------------------------
  // compute_financials_planet: the 4-year lease, years 0..4.

  const PlanetYears: nat := 5

  datatype PlanetFrame = PlanetFrame(
    year: seq<int>,
    initialInvestment: seq<real>,
    netRoomRevenue: seq<real>,
    rentalRevenue: seq<real>,
    patronage: seq<real>,           // "25% Patronage Rate"
    repairCost: seq<real>,          // "Repair/Maintenance Cost"
    depreciation: seq<real>,
    ebt: seq<real>,
    netIncome: seq<real>,
    operatingCashFlow: seq<real>)

  /** The columns the data dictionary supplies all span years 0..4. */
  predicate PlanetDataShaped(f: PlanetFrame) {
    && |f.year| == PlanetYears
    && |f.initialInvestment| == PlanetYears
    && |f.netRoomRevenue| == PlanetYears
    && |f.rentalRevenue| == PlanetYears
    && |f.patronage| == PlanetYears
    && |f.repairCost| == PlanetYears
    && |f.depreciation| == PlanetYears
  }

  /** The DataFrame built from the data dictionary, before any derived column. */
  function PlanetData(investment: real): (f: PlanetFrame)
    ensures PlanetDataShaped(f)
  {
    PlanetFrame(
      year := [0, 1, 2, 3, 4],
      initialInvestment := [-1.0 * investment, 0.0, 0.0, 0.0, 0.0],
      netRoomRevenue := [0.0, 13200000.0, 13464000.0, 14137000.0, 14844000.0],
      rentalRevenue := [0.0, 170000.0 * 12.0, 170000.0 * 12.0, 170000.0 * 1.05 * 12.0, 170000.0 * 1.05 * 12.0],
      patronage := [0.0, 1650000.0, 1683000.0, 1767125.0, 1855500.0],
      repairCost := [0.0, 10000.0, 10000.0, 10000.0, 10000.0],
      depreciation := [0.0, investment / 4.0, investment / 4.0, investment / 4.0, investment / 4.0],
      ebt := [], netIncome := [], operatingCashFlow := [])
  }

  /** df["EBT"] = Rental - Repair - Depreciation - Patronage */
  function PlanetAddEbt(f: PlanetFrame): PlanetFrame
    requires PlanetDataShaped(f)
  {
    f.(ebt := Minus(Minus(Minus(f.rentalRevenue, f.repairCost), f.depreciation), f.patronage))
  }

  function PlanetAddNetIncome(f: PlanetFrame, tax: real): PlanetFrame {
    f.(netIncome := NetIncomeColumn(f.ebt, tax))
  }

  function PlanetAddOperatingCashFlow(f: PlanetFrame): PlanetFrame
    requires |f.netIncome| == |f.depreciation|
  {
    f.(operatingCashFlow := OperatingCashFlowColumn(f.netIncome, f.depreciation))
  }

  /** compute_financials_planet(planet_investment_amount, tax). */
  function ComputeFinancialsPlanet(investment: real, tax: real): PlanetFrame {
    var data := PlanetData(investment);
    var withEbt := PlanetAddEbt(data);
    var withNetIncome := PlanetAddNetIncome(withEbt, tax);
    PlanetAddOperatingCashFlow(withNetIncome)
  }

  /** Every column of the finished planet frame spans exactly years 0..4. */
  lemma PlanetColumnsSpanFiveYears(investment: real, tax: real)
    ensures var f := ComputeFinancialsPlanet(investment, tax);
      && f.year == [0, 1, 2, 3, 4]
      && PlanetDataShaped(f)
      && |f.ebt| == PlanetYears && |f.netIncome| == PlanetYears && |f.operatingCashFlow| == PlanetYears
  {
  }

  /** The outlay -investment sits in year 0 and nowhere else. */
  lemma PlanetInitialInvestment(investment: real, tax: real)
    ensures var f := ComputeFinancialsPlanet(investment, tax);
      && f.initialInvestment[0] == -investment
      && forall t :: 1 <= t < PlanetYears ==> f.initialInvestment[t] == 0.0
  {
  }

  /** Straight-line depreciation of the investment over years 1..4, nothing
      in year 0, adding up to the investment. */
  lemma PlanetDepreciation(investment: real, tax: real)
    ensures var f := ComputeFinancialsPlanet(investment, tax);
      && f.depreciation[0] == 0.0
      && (forall t :: 1 <= t < PlanetYears ==> f.depreciation[t] == investment / 4.0)
      && Sum(f.depreciation[1..]) == investment
      && Sum(f.depreciation) == investment
  {
    var d := ComputeFinancialsPlanet(investment, tax).depreciation;
    SumConstant(d[1..], investment / 4.0);
    SumFirst(d);
  }

  /** The derived columns, year by year. Net Room Revenue is not an input
      to any of them. */
  lemma PlanetDerivedColumns(investment: real, tax: real)
    ensures var f := ComputeFinancialsPlanet(investment, tax);
      forall t :: 0 <= t < PlanetYears ==>
        && f.ebt[t] == f.rentalRevenue[t] - f.repairCost[t] - f.depreciation[t] - f.patronage[t]
        && f.netIncome[t] == f.ebt[t] * (1.0 - tax)
        && f.operatingCashFlow[t] == f.netIncome[t] + f.depreciation[t]
        && f.operatingCashFlow[t] == f.ebt[t] * (1.0 - tax) + f.depreciation[t]
  {
  }

  /** Changing Net Room Revenue before the derivation steps changes none of
      the derived columns. */
  lemma PlanetIgnoresNetRoomRevenue(f: PlanetFrame, revenue: seq<real>, tax: real)
    requires PlanetDataShaped(f) && |revenue| == PlanetYears
    ensures var g := f.(netRoomRevenue := revenue);
      && PlanetAddEbt(g).ebt == PlanetAddEbt(f).ebt
      && PlanetAddOperatingCashFlow(PlanetAddNetIncome(PlanetAddEbt(g), tax)).operatingCashFlow
         == PlanetAddOperatingCashFlow(PlanetAddNetIncome(PlanetAddEbt(f), tax)).operatingCashFlow
  {
  }

  /** Year 0 has no revenue, cost or depreciation, so EBT, Net Income and
      Operating Cash Flow are 0 there; the outlay appears only in the
      Initial Investment column. */
  lemma PlanetYearZero(investment: real, tax: real)
    ensures var f := ComputeFinancialsPlanet(investment, tax);
      f.ebt[0] == 0.0 && f.netIncome[0] == 0.0 && f.operatingCashFlow[0] == 0.0
  {
  }

  /** At 0% tax the cash flow is EBT plus depreciation (which cancels the
      depreciation charge); at 100% tax only depreciation is left. */
  lemma PlanetTaxExtremes(investment: real, tax: real)
    ensures var f := ComputeFinancialsPlanet(investment, tax);
      && (tax == 0.0 ==> forall t :: 0 <= t < PlanetYears ==>
            f.operatingCashFlow[t] == f.ebt[t] + f.depreciation[t]
            && f.operatingCashFlow[t] == f.rentalRevenue[t] - f.repairCost[t] - f.patronage[t])
      && (tax == 1.0 ==> forall t :: 0 <= t < PlanetYears ==> f.operatingCashFlow[t] == f.depreciation[t])
  {
  }

  /** transpose_and_format_planet: one row per column after "Year", in the
      order the DataFrame holds them (dictionary order, then the derived
      columns in the order they were added). */
  function TransposePlanet(f: PlanetFrame): seq<Row> {
    [ Row("Initial Investment", f.initialInvestment),
      Row("Net Room Revenue", f.netRoomRevenue),
      Row("Rental Revenue", f.rentalRevenue),
      Row("25% Patronage Rate", f.patronage),
      Row("Repair/Maintenance Cost", f.repairCost),
      Row("Depreciation", f.depreciation),
      Row("EBT", f.ebt),
      Row("Net Income", f.netIncome),
      Row("Operating Cash Flow", f.operatingCashFlow) ]
  }

  /** The transposed planet table has one row per non-Year column, each
      holding a value under every label Year 0 .. Year 4; it opens with the
      Initial Investment and closes with Operating Cash Flow. */
  lemma TransposePlanetShape(investment: real, tax: real)
    ensures var f, rows := ComputeFinancialsPlanet(investment, tax),
                           TransposePlanet(ComputeFinancialsPlanet(investment, tax));
      && |rows| == 9
      && (forall i :: 0 <= i < |rows| ==> |rows[i].values| == PlanetYears)
      && rows[0] == Row("Initial Investment", f.initialInvestment)
      && rows[|rows| - 1] == Row("Operating Cash Flow", f.operatingCashFlow)
      && (forall i, j :: 0 <= i < j < |rows| ==> rows[i].category != rows[j].category)
  {
  }

  // ---------------------------------------------------------------------
  // compute_financials_beach: the 6-year build, years 0..6.

  const BeachYears: nat := 7

  /** The fixed renovation capital added to the beach investment. */
  const RenovationCapital: real := 900000.0

  datatype BeachFrame = BeachFrame(
    year: seq<int>,
    initialInvestment: seq<real>,   // "Initial Investment (Renovation & Capital)"
    netRoomRevenue: seq<real>,
    salesRevenue: seq<real>,
    patronage: seq<real>,           // "25% Patronage Rate"
    foodBeverageCost: seq<real>,
    otherExpenses: seq<real>,
    repairCost: seq<real>,          // "Repair/Maintenance Cost"
    depreciation: seq<real>,
    ebt: seq<real>,
    netIncome: seq<real>,
    operatingCashFlow: seq<real>)

  predicate BeachDataShaped(f: BeachFrame) {
    && |f.year| == BeachYears
    && |f.initialInvestment| == BeachYears
    && |f.netRoomRevenue| == BeachYears
    && |f.salesRevenue| == BeachYears
    && |f.patronage| == BeachYears
    && |f.foodBeverageCost| == BeachYears
    && |f.otherExpenses| == BeachYears
    && |f.repairCost| == BeachYears
    && |f.depreciation| == BeachYears
  }

  function BeachData(investment: real): (f: BeachFrame)
    ensures BeachDataShaped(f)
  {
    var dep := -1.0 * (-1.0 * investment - RenovationCapital) / 6.0;
    BeachFrame(
      year := [0, 1, 2, 3, 4, 5, 6],
      initialInvestment := [-1.0 * investment - RenovationCapital, 0.0, 0.0, 0.0, 0.0, 0.0, 0.0],
      netRoomRevenue := [0.0, 13200000.0, 13464000.0, 14137000.0, 14844000.0, 15140000.0, 15443000.0],
      salesRevenue := [0.0, 4672000.0, 4905600.0, 5150880.0, 5408424.0, 5678845.0, 5962537.25],
      patronage := [0.0, 1650000.0, 1683000.0, 1767125.0, 1855500.0, 1892500.0, 1930375.0],
      foodBeverageCost := [0.0, 1168000.0, 1226400.0, 1287720.0, 1352106.0, 1419711.3, 1490696.87],
      otherExpenses := [0.0, 1027840.0, 1079232.0, 1133192.6, 1189853.3, 1249345.9, 1311813.24],
      repairCost := [0.0, 10000.0, 10000.0, 10000.0, 10000.0, 10000.0, 10000.0],
      depreciation := [0.0, dep, dep, dep, dep, dep, dep],
      ebt := [], netIncome := [], operatingCashFlow := [])
  }

  /** df["EBT"] = Sales - F&B - Other - Patronage - Repair - Depreciation */
  function BeachAddEbt(f: BeachFrame): BeachFrame
    requires BeachDataShaped(f)
  {
    f.(ebt := Minus(Minus(Minus(Minus(Minus(f.salesRevenue, f.foodBeverageCost), f.otherExpenses),
                                f.patronage), f.repairCost), f.depreciation))
  }

  function BeachAddNetIncome(f: BeachFrame, tax: real): BeachFrame {
    f.(netIncome := NetIncomeColumn(f.ebt, tax))
  }

  function BeachAddOperatingCashFlow(f: BeachFrame): BeachFrame
    requires |f.netIncome| == |f.depreciation|
  {
    f.(operatingCashFlow := OperatingCashFlowColumn(f.netIncome, f.depreciation))
  }

  /** compute_financials_beach(beach_investment_amount, tax). */
  function ComputeFinancialsBeach(investment: real, tax: real): BeachFrame {
    var data := BeachData(investment);
    var withEbt := BeachAddEbt(data);
    var withNetIncome := BeachAddNetIncome(withEbt, tax);
    BeachAddOperatingCashFlow(withNetIncome)
  }

  lemma BeachColumnsSpanSevenYears(investment: real, tax: real)
    ensures var f := ComputeFinancialsBeach(investment, tax);
      && f.year == [0, 1, 2, 3, 4, 5, 6]
      && BeachDataShaped(f)
      && |f.ebt| == BeachYears && |f.netIncome| == BeachYears && |f.operatingCashFlow| == BeachYears
  {
  }

  /** The outlay -investment - 900000 sits in year 0 and nowhere else. */
  lemma BeachInitialInvestment(investment: real, tax: real)
    ensures var f := ComputeFinancialsBeach(investment, tax);
      && f.initialInvestment[0] == -investment - RenovationCapital
      && forall t :: 1 <= t < BeachYears ==> f.initialInvestment[t] == 0.0
  {
  }

  /** Straight-line depreciation of investment + 900000 over years 1..6,
      nothing in year 0, adding up to minus the year-0 outlay. */
  lemma BeachDepreciation(investment: real, tax: real)
    ensures var f := ComputeFinancialsBeach(investment, tax);
      && f.depreciation[0] == 0.0
      && (forall t :: 1 <= t < BeachYears ==> f.depreciation[t] == (investment + RenovationCapital) / 6.0)
      && Sum(f.depreciation[1..]) == investment + RenovationCapital
      && Sum(f.depreciation) == -f.initialInvestment[0]
  {
    var d := ComputeFinancialsBeach(investment, tax).depreciation;
    SumConstant(d[1..], (investment + RenovationCapital) / 6.0);
    SumFirst(d);
  }

  /** The derived columns, year by year. Net Room Revenue is not an input
      to any of them. */
  lemma BeachDerivedColumns(investment: real, tax: real)
    ensures var f := ComputeFinancialsBeach(investment, tax);
      forall t :: 0 <= t < BeachYears ==>
        && f.ebt[t] == f.salesRevenue[t] - f.foodBeverageCost[t] - f.otherExpenses[t]
                       - f.patronage[t] - f.repairCost[t] - f.depreciation[t]
        && f.netIncome[t] == f.ebt[t] * (1.0 - tax)
        && f.operatingCashFlow[t] == f.netIncome[t] + f.depreciation[t]
        && f.operatingCashFlow[t] == f.ebt[t] * (1.0 - tax) + f.depreciation[t]
  {
  }

  lemma BeachIgnoresNetRoomRevenue(f: BeachFrame, revenue: seq<real>, tax: real)
    requires BeachDataShaped(f) && |revenue| == BeachYears
    ensures var g := f.(netRoomRevenue := revenue);
      && BeachAddEbt(g).ebt == BeachAddEbt(f).ebt
      && BeachAddOperatingCashFlow(BeachAddNetIncome(BeachAddEbt(g), tax)).operatingCashFlow
         == BeachAddOperatingCashFlow(BeachAddNetIncome(BeachAddEbt(f), tax)).operatingCashFlow
  {
  }

  lemma BeachYearZero(investment: real, tax: real)
    ensures var f := ComputeFinancialsBeach(investment, tax);
      f.ebt[0] == 0.0 && f.netIncome[0] == 0.0 && f.operatingCashFlow[0] == 0.0
  {
  }

  lemma BeachTaxExtremes(investment: real, tax: real)
    ensures var f := ComputeFinancialsBeach(investment, tax);
      && (tax == 0.0 ==> forall t :: 0 <= t < BeachYears ==>
            f.operatingCashFlow[t] == f.ebt[t] + f.depreciation[t]
            && f.operatingCashFlow[t] == f.salesRevenue[t] - f.foodBeverageCost[t] - f.otherExpenses[t]
                                         - f.patronage[t] - f.repairCost[t])
      && (tax == 1.0 ==> forall t :: 0 <= t < BeachYears ==> f.operatingCashFlow[t] == f.depreciation[t])
  {
  }

  /** transpose_and_format_beach: one row per column after "Year", in frame order. */
  function TransposeBeach(f: BeachFrame): seq<Row> {
    [ Row("Initial Investment (Renovation & Capital)", f.initialInvestment),
      Row("Net Room Revenue", f.netRoomRevenue),
      Row("Sales Revenue", f.salesRevenue),
      Row("25% Patronage Rate", f.patronage),
      Row("Food & Beverage Cost", f.foodBeverageCost),
      Row("Other Expenses", f.otherExpenses),
      Row("Repair/Maintenance Cost", f.repairCost),
      Row("Depreciation", f.depreciation),
      Row("EBT", f.ebt),
      Row("Net Income", f.netIncome),
      Row("Operating Cash Flow", f.operatingCashFlow) ]
  }

  /** The transposed beach table: eleven rows, each spanning Year 0 .. Year 6. */
  lemma TransposeBeachShape(investment: real, tax: real)
    ensures var f, rows := ComputeFinancialsBeach(investment, tax),
                           TransposeBeach(ComputeFinancialsBeach(investment, tax));
      && |rows| == 11
      && (forall i :: 0 <= i < |rows| ==> |rows[i].values| == BeachYears)
      && rows[0] == Row("Initial Investment (Renovation & Capital)", f.initialInvestment)
      && rows[|rows| - 1] == Row("Operating Cash Flow", f.operatingCashFlow)
      && (forall i, j :: 0 <= i < j < |rows| ==> rows[i].category != rows[j].category)
  {
  }
}
