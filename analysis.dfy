/** The cash-flow series that src/pages/2_Analysis.py hands to the
    appraisal engine and the charts, and what the whole pipeline
    (schedule, series, metrics) guarantees for the inputs the sidebar allows. */
module Analysis {
  import opened Wrappers
  import opened RealMath
  import opened Appraisal
  import opened CashFlowBuilder
  import opened Charts

  /** The series the Analysis page reads off the transposed table: the
      Year 0 cell of the first row, then the Year 1.. cells of the last row
      (column 0 of the transposed table is Category, column 1 is Year 0). */
  function ExtractCashFlow(rows: seq<Row>): (cf: seq<real>)
    requires |rows| >= 1 && |rows[0].values| >= 1 && |rows[|rows| - 1].values| >= 1
    ensures |cf| == |rows[|rows| - 1].values|
    ensures cf[0] == rows[0].values[0]
    ensures forall t :: 1 <= t < |cf| ==> cf[t] == rows[|rows| - 1].values[t]
  {
    [rows[0].values[0]] + rows[|rows| - 1].values[1..]
  }

  /** planet_cash_flow */
  function PlanetCashFlow(investment: real, tax: real): seq<real> {
    ExtractCashFlow(TransposePlanet(ComputeFinancialsPlanet(investment, tax)))
  }

  /** beach_cash_flow */
  function BeachCashFlow(investment: real, tax: real): seq<real> {
    ExtractCashFlow(TransposeBeach(ComputeFinancialsBeach(investment, tax)))
  }

  /** The planet series is the Initial Investment of year 0 followed by the
      Operating Cash Flow of years 1..4: five flows headed by -investment. */
  lemma PlanetCashFlowSeries(investment: real, tax: real)
    ensures var f, rows, cf := ComputeFinancialsPlanet(investment, tax),
                               TransposePlanet(ComputeFinancialsPlanet(investment, tax)),
                               PlanetCashFlow(investment, tax);
      && rows[0].category == "Initial Investment"
      && rows[|rows| - 1].category == "Operating Cash Flow"
      && |cf| == PlanetYears
      && cf[0] == -investment
      && cf == [f.initialInvestment[0]] + f.operatingCashFlow[1..]
  {
  }

  /** The beach series: seven flows headed by -investment - 900000. */
  lemma BeachCashFlowSeries(investment: real, tax: real)
    ensures var f, rows, cf := ComputeFinancialsBeach(investment, tax),
                               TransposeBeach(ComputeFinancialsBeach(investment, tax)),
                               BeachCashFlow(investment, tax);
      && rows[0].category == "Initial Investment (Renovation & Capital)"
      && rows[|rows| - 1].category == "Operating Cash Flow"
      && |cf| == BeachYears
      && cf[0] == -investment - RenovationCapital
      && cf == [f.initialInvestment[0]] + f.operatingCashFlow[1..]
  {
  }

  /** Undiscounted, the planet's NPV is the plain sum of its series, and
      that equals its total after-tax EBT: the depreciation added back in
      years 1..4 repays exactly the year-0 outlay. */
  lemma PlanetNpvAtZeroRate(investment: real, tax: real)
    ensures var cf := PlanetCashFlow(investment, tax);
      && ComputeNpv(cf, 0.0) == Success(Sum(cf))
      && Sum(cf) == (1.0 - tax) * Sum(ComputeFinancialsPlanet(investment, tax).ebt)
  {
    var f, cf := ComputeFinancialsPlanet(investment, tax), PlanetCashFlow(investment, tax);
    NpvAtZeroRate(cf);
    SumFirst(cf);
    assert cf[1..] == f.operatingCashFlow[1..];
    SumFirst(f.operatingCashFlow);
    SumPlus(f.netIncome, f.depreciation);
    SumTimes(f.ebt, 1.0 - tax);
    PlanetDepreciation(investment, tax);
  }

  /** The same for the beach series. */
  lemma BeachNpvAtZeroRate(investment: real, tax: real)
    ensures var cf := BeachCashFlow(investment, tax);
      && ComputeNpv(cf, 0.0) == Success(Sum(cf))
      && Sum(cf) == (1.0 - tax) * Sum(ComputeFinancialsBeach(investment, tax).ebt)
  {
    var f, cf := ComputeFinancialsBeach(investment, tax), BeachCashFlow(investment, tax);
    NpvAtZeroRate(cf);
    SumFirst(cf);
    assert cf[1..] == f.operatingCashFlow[1..];
    SumFirst(f.operatingCashFlow);
    SumPlus(f.netIncome, f.depreciation);
    SumTimes(f.ebt, 1.0 - tax);
    BeachDepreciation(investment, tax);
  }

  /** The ranges the sidebar lets a user pick. */
  predicate PlanetInputsAllowed(investment: real, tax: real) {
    770000.0 <= investment <= 1000000.0 && 0.0 <= tax <= 1.0
  }

  predicate BeachInputsAllowed(investment: real, tax: real) {
    800000.0 <= investment <= 1200000.0 && 0.0 <= tax <= 1.0
  }

  /** A series that starts with an outlay and then only earns. */
  predicate Conventional(cf: seq<real>) {
    |cf| >= 2 && cf[0] < 0.0 && forall t :: 1 <= t < |cf| ==> cf[t] > 0.0
  }

  /** What follows for a conventional series: it pays back by its last
      year, the chart marks the same year as compute_payback_period, NPV
      falls as the rate rises and the IRR objective has at most one root
      above -100%. */
  lemma ConventionalConsequences(cf: seq<real>)
    requires Conventional(cf) && Sum(cf[1..]) >= -cf[0]
    ensures PaysBack(cf, |cf| - 1)
    ensures PaybackPeriod(cf).Some?
    ensures ChartPaybackIndex(cf) == PaybackPeriod(cf)
    ensures forall r1, r2 :: -1.0 < r1 < r2 ==> NpvValue(cf, r2) < NpvValue(cf, r1)
    ensures forall r1, r2 :: -1.0 < r1 && -1.0 < r2 && IrrObjective(cf, r1) == 0.0 && IrrObjective(cf, r2) == 0.0 ==> r1 == r2
  {
    assert cf[1..|cf|] == cf[1..];
    assert PaysBack(cf, |cf| - 1);
    ChartPaybackAgreesWithEngine(cf);
    assert cf[1] > 0.0;
    forall r1, r2 | -1.0 < r1 < r2
      ensures NpvValue(cf, r2) < NpvValue(cf, r1)
    {
      NpvDecreasesWithRate(cf, r1, r2);
    }
    forall r1, r2 | -1.0 < r1 && -1.0 < r2 && IrrObjective(cf, r1) == 0.0 && IrrObjective(cf, r2) == 0.0
      ensures r1 == r2
    {
      IrrRootIsUnique(cf, r1, r2);
    }
  }

  /** Over the allowed investments every operating year earns a positive
      EBT: the margins before depreciation (380000, 347000, 364875 and
      276500) exceed the yearly charge of at most 250000. */
  lemma PlanetEarningsPositive(investment: real, tax: real)
    requires 0.0 < investment <= 1000000.0
    ensures var f := ComputeFinancialsPlanet(investment, tax);
      forall t :: 1 <= t < PlanetYears ==> f.ebt[t] > 0.0 && f.depreciation[t] > 0.0
  {
    var f := ComputeFinancialsPlanet(investment, tax);
    PlanetDerivedColumns(investment, tax);
    var d := investment / 4.0;
    assert f.ebt[1] == 380000.0 - d;
    assert f.ebt[2] == 347000.0 - d;
    assert f.ebt[3] == 364875.0 - d;
    assert f.ebt[4] == 276500.0 - d;
  }

  /** The same for the beach over years 1..6, against a yearly charge of
      at most 350000. */
  lemma BeachEarningsPositive(investment: real, tax: real)
    requires 0.0 < investment <= 1200000.0
    ensures var f := ComputeFinancialsBeach(investment, tax);
      forall t :: 1 <= t < BeachYears ==> f.ebt[t] > 0.0 && f.depreciation[t] > 0.0
  {
    var f := ComputeFinancialsBeach(investment, tax);
    BeachDerivedColumns(investment, tax);
    var d := (investment + RenovationCapital) / 6.0;
    assert f.depreciation[1] == d;
    assert f.ebt[1] == 816160.0 - d;
    assert f.ebt[2] == 906968.0 - d;
    assert f.ebt[3] == 952842.4 - d;
    assert f.ebt[4] == 1000964.7 - d;
    assert f.ebt[5] == 1107287.8 - d;
    assert f.ebt[6] == 1219652.14 - d;
  }

  /** Each later cash flow is EBT after tax plus a positive depreciation
      charge on a positive EBT, and the charges add up to the outlay. */
  predicate CoversOutlay(outlay: real, ocf: seq<real>, ebt: seq<real>, dep: seq<real>, tax: real) {
    && |ocf| >= 2 && |ebt| == |ocf| && |dep| == |ocf| && tax <= 1.0
    && (forall t :: 1 <= t < |ocf| ==> ocf[t] == ebt[t] * (1.0 - tax) + dep[t])
    && (forall t :: 1 <= t < |ocf| ==> ebt[t] > 0.0 && dep[t] > 0.0)
    && outlay < 0.0 && Sum(dep[1..]) == -outlay
  }

  /** A series whose later flows each cover a positive depreciation charge
      adding up to the outlay is conventional and repays the outlay. */
  lemma CoveredSeriesIsConventional(outlay: real, ocf: seq<real>, ebt: seq<real>, dep: seq<real>, tax: real)
    requires CoversOutlay(outlay, ocf, ebt, dep, tax)
    ensures Conventional([outlay] + ocf[1..])
    ensures Sum(([outlay] + ocf[1..])[1..]) >= -outlay
  {
    var cf := [outlay] + ocf[1..];
    assert cf[1..] == ocf[1..];
    forall t | 1 <= t < |ocf|
      ensures ocf[t] >= dep[t]
    {
      CashFlowCoversDepreciation(ebt[t], tax, dep[t]);
    }
    SumMonotone(dep[1..], ocf[1..]);
  }

  /** The planet frame meets the conditions of CoveredSeriesIsConventional. */
  lemma PlanetColumnsCoverOutlay(investment: real, tax: real)
    requires PlanetInputsAllowed(investment, tax)
    ensures var f := ComputeFinancialsPlanet(investment, tax);
      CoversOutlay(f.initialInvestment[0], f.operatingCashFlow, f.ebt, f.depreciation, tax)
  {
    PlanetColumnsSpanFiveYears(investment, tax);
    PlanetDerivedColumns(investment, tax);
    PlanetEarningsPositive(investment, tax);
    PlanetDepreciation(investment, tax);
  }

  /** For every investment and tax rate the sidebar allows, the planet
      series is conventional and repays its outlay within the four years. */
  lemma PlanetSeriesIsConventional(investment: real, tax: real)
    requires PlanetInputsAllowed(investment, tax)
    ensures Conventional(PlanetCashFlow(investment, tax))
    ensures Sum(PlanetCashFlow(investment, tax)[1..]) >= -PlanetCashFlow(investment, tax)[0]
  {
    var f := ComputeFinancialsPlanet(investment, tax);
    PlanetColumnsCoverOutlay(investment, tax);
    CoveredSeriesIsConventional(f.initialInvestment[0], f.operatingCashFlow, f.ebt, f.depreciation, tax);
    PlanetCashFlowSeries(investment, tax);
  }

  /** The beach frame meets the conditions of CoveredSeriesIsConventional. */
  lemma BeachColumnsCoverOutlay(investment: real, tax: real)
    requires BeachInputsAllowed(investment, tax)
    ensures var f := ComputeFinancialsBeach(investment, tax);
      CoversOutlay(f.initialInvestment[0], f.operatingCashFlow, f.ebt, f.depreciation, tax)
  {
    BeachColumnsSpanSevenYears(investment, tax);
    BeachDerivedColumns(investment, tax);
    BeachEarningsPositive(investment, tax);
    BeachDepreciation(investment, tax);
  }

  /** The same for the beach series over its six years. */
  lemma BeachSeriesIsConventional(investment: real, tax: real)
    requires BeachInputsAllowed(investment, tax)
    ensures Conventional(BeachCashFlow(investment, tax))
    ensures Sum(BeachCashFlow(investment, tax)[1..]) >= -BeachCashFlow(investment, tax)[0]
  {
    var f := ComputeFinancialsBeach(investment, tax);
    BeachColumnsCoverOutlay(investment, tax);
    CoveredSeriesIsConventional(f.initialInvestment[0], f.operatingCashFlow, f.ebt, f.depreciation, tax);
    BeachCashFlowSeries(investment, tax);
  }

  /** What the Analysis page shows is consistent for every allowed input:
      both projects pay back, and the payback chart marks the year
      compute_payback_period reports. */
  lemma AnalysisPaybackConsistent(planetInvestment: real, beachInvestment: real, tax: real)
    requires PlanetInputsAllowed(planetInvestment, tax) && BeachInputsAllowed(beachInvestment, tax)
    ensures PaybackPeriod(PlanetCashFlow(planetInvestment, tax)).Some?
    ensures PaybackPeriod(BeachCashFlow(beachInvestment, tax)).Some?
    ensures ChartPaybackIndex(PlanetCashFlow(planetInvestment, tax)) == PaybackPeriod(PlanetCashFlow(planetInvestment, tax))
    ensures ChartPaybackIndex(BeachCashFlow(beachInvestment, tax)) == PaybackPeriod(BeachCashFlow(beachInvestment, tax))
  {
    PlanetSeriesIsConventional(planetInvestment, tax);
    ConventionalConsequences(PlanetCashFlow(planetInvestment, tax));
    BeachSeriesIsConventional(beachInvestment, tax);
    ConventionalConsequences(BeachCashFlow(beachInvestment, tax));
  }
}
