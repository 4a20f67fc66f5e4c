/** The state of the sales window and its two actions: loading a workbook
    into the year -> month -> total table, and drawing the chart for the
    selected year. */
module Application {
  import opened Wrappers
  import opened Sheet
  import opened Sums
  import opened Aggregation
  import opened Months

  /** The status line: the initial prompt, and one value per message the
      two actions set. */
  datatype Status = Prompt | Loaded | LoadFailed | SelectYear | NoData

  /** What the file dialog and the workbook reader deliver: no file chosen,
      a file that cannot be opened as a workbook, or the workbook's sheets,
      each a sequence of the rows its iterator yields. */
  datatype FileChoice = Cancelled | OpenFailed | Opened(sheets: seq<seq<Row>>)

  predicate StrictlyAscending(s: seq<int>)
  {
    forall i, j :: 0 <= i < j < |s| ==> s[i] < s[j]
  }

  lemma {:induction false} HasMinimum(s: set<int>)
    requires s != {}
    ensures exists m :: m in s && forall x :: x in s ==> m <= x
    decreases s
  {
    HasElement(s);
    var y :| y in s;
    if s - {y} == {} {
      forall x | x in s ensures y <= x {
        assert x == y || x in s - {y};
      }
    } else {
      HasMinimum(s - {y});
      var m :| m in s - {y} && forall x :: x in s - {y} ==> m <= x;
      var least := if y < m then y else m;
      forall x | x in s ensures least <= x {
        if x != y { assert x in s - {y}; }
      }
    }
  }

  /** `years.stream().sorted().collect(...)`: the years in ascending order,
      each once. */
  method SortedYears(years: set<int>) returns (r: seq<int>)
    ensures StrictlyAscending(r)
    ensures forall y :: y in r <==> y in years
  {
    r := [];
    var rest := years;
    while rest != {}
      invariant StrictlyAscending(r)
      invariant forall y :: y in years <==> y in r || y in rest
      invariant forall x, z :: x in r && z in rest ==> x < z
      decreases rest
    {
      HasMinimum(rest);
      var m :| m in rest && forall x :: x in rest ==> m <= x;
      assert forall k :: 0 <= k < |r| ==> r[k] in r;
      r := r + [m];
      rest := rest - {m};
    }
  }

  /** The series loop of `analyzeData`: one point per month 1..12. */
  method BuildSeries(monthly: map<int, real>) returns (series: seq<Point>)
    ensures series == Projection(monthly)
  {
    series := [];
    for month := 1 to 13
      invariant series == Projection(monthly)[..month - 1]
    {
      series := series + [Point(MonthName(month), ValueOr0(monthly, month))];
    }
    assert Projection(monthly)[..12] == Projection(monthly);
  }

  class SalesApp {
    /** `yearlyMonthlySales`. */
    var sales: Table
    /** The items of the year selector. */
    var yearItems: seq<int>
    var status: Status
    /** The chart's series. */
    var chart: seq<seq<Point>>

    /** The year selector lists the table's years in ascending order, and
        the table is well formed. */
    ghost predicate Consistent()
      reads this
    {
      && StrictlyAscending(yearItems)
      && (forall y :: y in yearItems <==> y in sales)
      && WellFormed(sales)
    }

    constructor ()
      ensures sales == map[] && yearItems == [] && status == Prompt && chart == []
      ensures Consistent()
    {
      sales, yearItems, status, chart := map[], [], Prompt, [];
    }

    /** `loadExcelFile`.  Returns the number of rows that contributed, which
        the program counts but does not show. */
    method Load(choice: FileChoice, lib: Library) returns (processed: nat)
      modifies this
      ensures chart == old(chart)
      ensures choice.Cancelled? ==>
                sales == old(sales) && yearItems == old(yearItems) && status == old(status) && processed == 0
      ensures choice.OpenFailed? ==>
                sales == old(sales) && yearItems == old(yearItems) && status == LoadFailed && processed == 0
      ensures choice.Opened? && choice.sheets == [] ==>
                sales == map[] && yearItems == old(yearItems) && status == LoadFailed && processed == 0
      ensures choice.Opened? && choice.sheets != [] ==>
                var sold := SheetSales(choice.sheets[0], lib);
                && sales == Aggregate(sold)
                && processed == |sold|
                && (forall y :: y in yearItems <==> y in SalesYears(sold))
                && status == Loaded
                && Consistent()
    {
      processed := 0;
      match choice {
        case Cancelled =>
        case OpenFailed =>
          status := LoadFailed;
        case Opened(sheets) =>
          sales := map[];
          if sheets == [] {
            // there is no first sheet to read: the table stays cleared
            status := LoadFailed;
            return;
          }
          var rows := sheets[0];
          var years;
          years, processed := ReadRows(rows, lib);
          AggregateShape(SheetSales(rows, lib));
          yearItems := SortedYears(years);
          status := Loaded;
      }
    }

    /** The row loop of `loadExcelFile`: merges every row after the first
        into the (already cleared) table, and collects the years and the
        number of rows that contributed. */
    method ReadRows(rows: seq<Row>, lib: Library) returns (years: set<int>, processed: nat)
      requires sales == map[]
      modifies this`sales
      ensures sales == Aggregate(SheetSales(rows, lib))
      ensures years == sales.Keys
      ensures processed == |SheetSales(rows, lib)|
    {
      years, processed := {}, 0;
      // the first row is discarded
      var body := Body(rows);
      var i := 0;
      while i < |body|
        invariant i <= |body|
        invariant sales == TableAfter(body, i, lib)
        invariant processed == CountAfter(body, i, lib)
        invariant years == sales.Keys
      {
        // the `try` block: read the date and amount cells, or skip the row
        var sale := Contribution(body[i], lib);
        AfterNextRow(body, i, lib, sale);
        if sale.Some? {
          var s := sale.value;
          AddToTable(s);
          years := years + {s.year};
          processed := processed + 1;
        }
        i := i + 1;
      }
      LoopComputesSheet(rows, lib);
    }

    /** `computeIfAbsent(year, ...).merge(month, total, Double::sum)`: the
        sale's amount is added to its month of its year, creating the year's
        map and the month's entry when they are missing. */
    method AddToTable(s: Sale)
      modifies this`sales
      ensures sales == AddSale(old(sales), s)
      ensures sales.Keys == old(sales).Keys + {s.year}
    {
      var inner := MonthsOf(sales, s.year);
      inner := Merge(inner, s.month, s.amount);
      sales := sales[s.year := inner];
    }

    /** `analyzeData` for the year the selector shows. */
    method Analyze(selected: Option<int>)
      modifies this
      ensures sales == old(sales) && yearItems == old(yearItems)
      ensures selected.None? ==> status == SelectYear && chart == old(chart)
      ensures selected.Some? && (selected.value !in sales || sales[selected.value] == map[]) ==>
                status == NoData && chart == old(chart)
      ensures selected.Some? && selected.value in sales && sales[selected.value] != map[] ==>
                status == old(status) && chart == [Projection(sales[selected.value])]
      ensures old(Consistent()) && selected.Some? && selected.value in yearItems ==>
                selected.value in sales && chart == [Projection(sales[selected.value])]
    {
      if selected.None? {
        status := SelectYear;
        return;
      }
      var year := selected.value;
      if year !in sales || sales[year] == map[] {
        status := NoData;
        return;
      }
      var series := BuildSeries(sales[year]);
      chart := [series];
    }
  }
}
