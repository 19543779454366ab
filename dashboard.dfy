/**
 * The whole dashboard computation: load and clean, derive the default
 * selection, filter, and build the four views handed to the charts.
 */
module Dashboard {
  import opened Wrappers
  import opened Seqs
  import opened Ordering
  import opened Records
  import opened Options
  import opened Filters
  import opened Aggregates

  /** The four views the dashboard draws, in their layout order. */
  datatype Views = Views(
    topStartups: seq<Entry<string>>,
    topInvestors: seq<Entry<string>>,
    monthlyTrend: seq<Entry<YearMonth>>,
    topIndustries: seq<Entry<string>>)

  /** The table the sidebar and the filter work on: coerced, then cleaned. */
  function LoadTable(raws: seq<RawRecord>, parseAmount: string -> Option<int>, parseDate: string -> Option<Date>)
    : (table: seq<Record>)
    ensures |table| <= |raws|
    ensures IsSubsequence(table, Coerce(raws, parseAmount, parseDate))
    ensures forall r :: r in table ==> r in Coerce(raws, parseAmount, parseDate) && Usable(r)
    ensures forall r :: multiset(table)[r] == if Usable(r) then multiset(Coerce(raws, parseAmount, parseDate))[r] else 0
    ensures forall i ::
      && 0 <= i < |raws| && raws[i].startup.Some? && raws[i].city.Some?
      && raws[i].amountCell.Some? && parseAmount(raws[i].amountCell.value).Some?
      ==> Coerce(raws, parseAmount, parseDate)[i] in table
  {
    CleanSpec(Coerce(raws, parseAmount, parseDate));
    Clean(Coerce(raws, parseAmount, parseDate))
  }

  /**
   * The selection the sidebar starts from: every city, the full year range,
   * every industry and every investment type (when the column exists). It is
   * missing when no row has a date, where the source fails to build the slider.
   */
  function DefaultSelection(rows: seq<Record>, hasInvestTypeColumn: bool): (sel: Option<Selection>)
    ensures sel.None? <==> forall i :: 0 <= i < |rows| ==> rows[i].date.None?
  {
    match YearBounds(rows)
    case None => None
    case Some(bounds) =>
      Some(Selection(CityOptions(rows), bounds.0, bounds.1, IndustryOptions(rows),
                     InvestTypeOptions(rows, hasInvestTypeColumn)))
  }

  /**
   * The views of the rows that pass the selection. Every filtered row has a
   * date, since the year condition rejects a missing one; so the monthly trend
   * accounts for the whole filtered amount.
   */
  function ComputeViews(rows: seq<Record>, sel: Selection): (v: Views)
    ensures IsTopView(v.topStartups, Filter(rows, sel), StartupOf)
    ensures IsTopView(v.topInvestors, Filter(rows, sel), InvestorsOf)
    ensures IsTopView(v.topIndustries, Filter(rows, sel), IndustryOf)
    ensures SumTotals(v.monthlyTrend) == TotalAmount(Filter(rows, sel))
    ensures forall i, j :: 0 <= i < j < |v.monthlyTrend| ==> Earlier(v.monthlyTrend[i].group, v.monthlyTrend[j].group)
    ensures forall i :: 0 <= i < |v.monthlyTrend| ==>
      && Occurs(Filter(rows, sel), MonthOf, v.monthlyTrend[i].group)
      && v.monthlyTrend[i].total == LabelSum(Filter(rows, sel), MonthOf, v.monthlyTrend[i].group)
    ensures forall r :: r in Filter(rows, sel) ==> Shown(v.monthlyTrend, MonthOf(r).value)
  {
    var filtered := Filter(rows, sel);
    MonthlyTrendTotal(filtered);
    MonthlyTrendSpec(filtered);
    Views(TopStartups(filtered), TopInvestors(filtered), MonthlyTrend(filtered), TopIndustries(filtered))
  }

  /** What the default selection keeps: rows with a city, a date, an industry and, if filtered on, an investment type. */
  predicate KeptByDefault(r: Record, investActive: bool) {
    r.city.Some? && r.date.Some? && r.industry.Some? && (investActive ==> r.investType.Some?)
  }

  function DefaultMask(investActive: bool): Record -> bool {
    r => KeptByDefault(r, investActive)
  }

  /** The investment-type filter of the default selection is active exactly when the column exists and has a value. */
  lemma {:induction false} DefaultInvestActive(rows: seq<Record>, hasInvestTypeColumn: bool)
    requires DefaultSelection(rows, hasInvestTypeColumn).Some?
    ensures InvestFilterActive(DefaultSelection(rows, hasInvestTypeColumn).value)
        <==> hasInvestTypeColumn && exists i :: 0 <= i < |rows| && rows[i].investType.Some?
  {
    var sel := DefaultSelection(rows, hasInvestTypeColumn).value;
    ColumnOptionsSpec(rows, InvestTypeOf);
    if hasInvestTypeColumn && exists i :: 0 <= i < |rows| && rows[i].investType.Some? {
      var i :| 0 <= i < |rows| && rows[i].investType.Some?;
      assert InvestTypeOf(rows[i]).Some?;
      assert rows[i].investType.value in sel.investTypes.value;
    }
    if InvestFilterActive(sel) {
      var t := sel.investTypes.value[0];
      assert Occurs(rows, InvestTypeOf, t);
    }
  }

  /** Row by row: under the default selection a row passes exactly when it is kept by default. */
  lemma {:induction false} DefaultMatches(rows: seq<Record>, hasInvestTypeColumn: bool, i: int)
    requires DefaultSelection(rows, hasInvestTypeColumn).Some? && 0 <= i < |rows|
    ensures var sel := DefaultSelection(rows, hasInvestTypeColumn).value;
      Matches(rows[i], sel) == KeptByDefault(rows[i], InvestFilterActive(sel))
  {
    var sel := DefaultSelection(rows, hasInvestTypeColumn).value;
    ColumnOptionsSpec(rows, CityOf);
    ColumnOptionsSpec(rows, IndustryOf);
    ColumnOptionsSpec(rows, InvestTypeOf);
    assert CityOf(rows[i]) == rows[i].city;
    assert IndustryOf(rows[i]) == rows[i].industry;
    assert InvestTypeOf(rows[i]) == rows[i].investType;
  }

  /**
   * Under the default selection the filter is not the identity: it drops the
   * rows without a date or an industry and, when the investment-type filter is
   * active (the column exists and has a value somewhere), the rows without one.
   */
  lemma DefaultSelectionKeeps(rows: seq<Record>, hasInvestTypeColumn: bool)
    requires DefaultSelection(rows, hasInvestTypeColumn).Some?
    ensures var sel := DefaultSelection(rows, hasInvestTypeColumn).value;
      Filter(rows, sel) == Select(rows, DefaultMask(InvestFilterActive(sel)))
  {
    var sel := DefaultSelection(rows, hasInvestTypeColumn).value;
    forall r | r in rows ensures MatchMask(sel)(r) == DefaultMask(InvestFilterActive(sel))(r) {
      var i :| 0 <= i < |rows| && rows[i] == r;
      DefaultMatches(rows, hasInvestTypeColumn, i);
    }
    FilterSelectsMatches(rows, sel);
    SelectCongruent(rows, MatchMask(sel), DefaultMask(InvestFilterActive(sel)));
  }

  /** With no city or no industry selected, every view is empty (an empty chart, not an error). */
  lemma EmptySelectionEmptyViews(rows: seq<Record>, sel: Selection)
    requires |sel.cities| == 0 || |sel.industries| == 0
    ensures ComputeViews(rows, sel) == Views([], [], [], [])
  {
    FilterEmptySelection(rows, sel);
  }

  // ----- a worked example: three funding rounds, Pune selected -----

  function ExampleRow(startup: string, city: string, industry: string, amount: int, month: int, day: int): Record {
    Record(Some(startup), Some(industry), Some(city), None, None, Some(amount), Some(Date(2019, month, day)))
  }

  function ExampleRows(): seq<Record> {
    [ExampleRow("A", "Pune", "Tech", 100, 1, 15),
     ExampleRow("B", "Pune", "Tech", 200, 2, 10),
     ExampleRow("C", "Mumbai", "Retail", 50, 1, 20)]
  }

  function ExampleSelection(): Selection {
    Selection(["Pune"], 2019, 2019, IndustryOptions(ExampleRows()), None)
  }

  lemma ExampleIndustryOptions()
    ensures IndustryOptions(ExampleRows()) == ["Retail", "Tech"]
  {
    var rows := ExampleRows();
    assert rows[1..][1..] == rows[2..] && rows[2..][1..] == [];
    assert Present(rows, IndustryOf) == ["Tech", "Tech", "Retail"];
    var xs := ["Tech", "Tech", "Retail"];
    assert xs[1..] == ["Tech", "Retail"] && xs[1..][1..] == ["Retail"] && xs[1..][1..][1..] == [];
    assert SortedUnique(["Retail"], StrLess) == ["Retail"];
    assert !StrLess("Tech", "Retail");
    assert SortedUnique(["Tech", "Retail"], StrLess) == ["Retail", "Tech"];
    assert ["Retail", "Tech"][1..] == ["Tech"];
    assert Insert("Tech", ["Retail", "Tech"], StrLess) == ["Retail", "Tech"];
  }

  /** Pune, 2019 to 2019, every industry, no investment-type column: the Pune rounds are kept. */
  lemma ExampleFilter()
    ensures Filter(ExampleRows(), ExampleSelection()) == ExampleRows()[..2]
  {
    ExampleIndustryOptions();
    assert ExampleSelection() == Selection(["Pune"], 2019, 2019, ["Retail", "Tech"], None);
    ExampleBaseSelect();
  }

  /** The city, year and industry conditions drop the Mumbai round. */
  lemma ExampleBaseSelect()
    ensures Select(ExampleRows(), BaseMask(Selection(["Pune"], 2019, 2019, ["Retail", "Tech"], None)))
      == ExampleRows()[..2]
  {
    var rows := ExampleRows();
    var mask := BaseMask(Selection(["Pune"], 2019, 2019, ["Retail", "Tech"], None));
    assert mask(rows[0]) && mask(rows[1]) && !mask(rows[2]);
    assert rows[1..][1..] == [rows[2]] && [rows[2]][1..] == [];
    assert Select([rows[2]], mask) == [];
    assert Select(rows[1..], mask) == [rows[1]];
  }

  /** ... whose startups are A and B ... */
  lemma ExampleStartupOptions()
    ensures ColumnOptions(ExampleRows()[..2], StartupOf) == ["A", "B"]
  {
    var rows := ExampleRows()[..2];
    assert rows[1..] == [rows[1]] && rows[1..][1..] == [];
    assert Present(rows, StartupOf) == ["A", "B"];
    assert ["A", "B"][1..] == ["B"] && ["B"][1..] == [];
    assert StrLess("A", "B");
  }

  /** ... with A raising 100 and B raising 200 ... */
  lemma ExampleStartupTotals()
    ensures Totals(["A", "B"], ExampleRows()[..2], StartupOf) == [Entry("A", 100), Entry("B", 200)]
  {
    var rows := ExampleRows()[..2];
    var isA := LabelIs(StartupOf, "A");
    var isB := LabelIs(StartupOf, "B");
    assert rows[1..] == [rows[1]] && rows[1..][1..] == [];
    assert StartupOf(rows[0]) == Some("A") && StartupOf(rows[1]) == Some("B");
    assert isA(rows[0]) && !isA(rows[1]) && !isB(rows[0]) && isB(rows[1]);
    assert Select(rows, isA) == [rows[0]];
    assert Select(rows, isB) == [rows[1]];
    assert [rows[0]][1..] == [] && [rows[1]][1..] == [];
    assert Amount(rows[0]) == 100 && Amount(rows[1]) == 200;
    assert TotalAmount([rows[0]]) == 100 && TotalAmount([rows[1]]) == 200;
    assert LabelSum(rows, StartupOf, "A") == 100;
    assert LabelSum(rows, StartupOf, "B") == 200;
  }

  /** ... so B outranks A. */
  lemma ExampleTopStartups()
    ensures TopStartups(ExampleRows()[..2]) == [Entry("B", 200), Entry("A", 100)]
  {
    ExampleStartupOptions();
    ExampleStartupTotals();
    var groups := [Entry("A", 100), Entry("B", 200)];
    assert groups[1..] == [Entry("B", 200)] && groups[1..][1..] == [];
    assert SortDesc(groups) == [Entry("B", 200), Entry("A", 100)];
    assert Ranked(ExampleRows()[..2], StartupOf) == [Entry("B", 200), Entry("A", 100)];
  }

  /** ... and the trend has January and February 2019 in that order. */
  lemma ExampleMonthlyTrend()
    ensures MonthlyTrend(ExampleRows()[..2]) == [Entry(YearMonth(2019, 1), 100), Entry(YearMonth(2019, 2), 200)]
  {
    var rows := ExampleRows()[..2];
    var jan, feb := YearMonth(2019, 1), YearMonth(2019, 2);
    assert rows[1..] == [rows[1]] && rows[1..][1..] == [];
    assert Present(rows, MonthOf) == [jan, feb];
    assert [jan, feb][1..] == [feb] && [feb][1..] == [];
    assert SortedUnique([feb], Earlier) == [feb];
    assert Earlier(jan, feb);
    assert Months(rows) == [jan, feb];
    var isJan := LabelIs(MonthOf, jan);
    var isFeb := LabelIs(MonthOf, feb);
    assert isJan(rows[0]) && !isJan(rows[1]) && !isFeb(rows[0]) && isFeb(rows[1]);
    assert Select(rows, isJan) == [rows[0]];
    assert Select(rows, isFeb) == [rows[1]];
    assert [rows[0]][1..] == [] && [rows[1]][1..] == [];
    assert Amount(rows[0]) == 100 && Amount(rows[1]) == 200;
    assert TotalAmount([rows[0]]) == 100 && TotalAmount([rows[1]]) == 200;
    assert LabelSum(rows, MonthOf, jan) == 100;
    assert LabelSum(rows, MonthOf, feb) == 200;
  }
}
