/** A small workbook worked through the specification functions: a header,
    three sales in January and February 2024, and a row whose date text does
    not parse. */
module Scenario {
  import opened Wrappers
  import opened Sheet
  import opened Sums
  import opened Aggregation
  import opened Months
  import opened Application

  /** A row with a text date in column 5 and a numeric amount in column 4. */
  function SaleRow(date: string, amount: real): Row
  {
    Row(map[DATE_COLUMN := StringCell(date), TOTAL_COLUMN := NumericCell(amount)])
  }

  function Workbook(): seq<Row>
  {
    [ Row(map[DATE_COLUMN := StringCell("Дата"), TOTAL_COLUMN := StringCell("Сумма")]),
      SaleRow("2024-01-05 10:00:00", 100.0),
      SaleRow("not-a-date", 70.0),
      SaleRow("2024-01-20 09:00:00", 50.0),
      SaleRow(" 2024-02-01 08:00:00 ", 30.0) ]
  }

  predicate ParsesExample(lib: Library)
  {
    && lib.parseDateTime("2024-01-05 10:00:00") == Some(YearMonth(2024, 1))
    && lib.parseDateTime("2024-01-20 09:00:00") == Some(YearMonth(2024, 1))
    && lib.parseDateTime("2024-02-01 08:00:00") == Some(YearMonth(2024, 2))
    && lib.parseDateTime("not-a-date") == None
  }

  /** The three sales of the workbook, in row order. */
  function Sold(): seq<Sale>
  {
    [Sale(2024, 1, 100.0), Sale(2024, 1, 50.0), Sale(2024, 2, 30.0)]
  }

  /** The date text is trimmed before it is parsed. */
  lemma PaddedDateIsTrimmed()
    ensures Trim(" 2024-02-01 08:00:00 ") == "2024-02-01 08:00:00"
  {
    var padded := " 2024-02-01 08:00:00 ";
    assert TrimStart(padded) == padded[1..];
    assert TrimEnd(padded[1..]) == padded[1..|padded| - 1];
  }

  /** A row with a text date contributes exactly when the trimmed date
      text parses. */
  lemma SaleRowContribution(date: string, amount: real, lib: Library)
    ensures lib.parseDateTime(Trim(date)).None? ==> Contribution(SaleRow(date, amount), lib) == None
    ensures lib.parseDateTime(Trim(date)).Some? ==>
              var d := lib.parseDateTime(Trim(date)).value;
              Contribution(SaleRow(date, amount), lib) == Some(Sale(d.year, d.month, amount))
  {
    var row := SaleRow(date, amount);
    assert CellAt(row, DATE_COLUMN) == Some(StringCell(date));
    assert CellAt(row, TOTAL_COLUMN) == Some(NumericCell(amount));
    assert ReadDate(StringCell(date), lib) == lib.parseDateTime(Trim(date));
    assert ReadAmount(Some(NumericCell(amount)), lib) == Some(amount);
  }

  /** Every row after the header. */
  lemma WorkbookBody()
    ensures Body(Workbook()) == [SaleRow("2024-01-05 10:00:00", 100.0), SaleRow("not-a-date", 70.0),
                                 SaleRow("2024-01-20 09:00:00", 50.0), SaleRow(" 2024-02-01 08:00:00 ", 30.0)]
  {
  }

  /** A row whose date text needs no trimming contributes what its date
      parses to. */
  lemma VisibleDateRow(date: string, amount: real, lib: Library)
    requires date != [] && !IsTrimmed(date[0]) && !IsTrimmed(date[|date| - 1])
    ensures lib.parseDateTime(date).None? ==> Contribution(SaleRow(date, amount), lib) == None
    ensures lib.parseDateTime(date).Some? ==>
              var d := lib.parseDateTime(date).value;
              Contribution(SaleRow(date, amount), lib) == Some(Sale(d.year, d.month, amount))
  {
    TrimKeeps(date);
    SaleRowContribution(date, amount, lib);
  }

  /** The January rows contribute their sales. */
  lemma JanuaryRows(lib: Library)
    requires ParsesExample(lib)
    ensures Contribution(SaleRow("2024-01-05 10:00:00", 100.0), lib) == Some(Sale(2024, 1, 100.0))
    ensures Contribution(SaleRow("2024-01-20 09:00:00", 50.0), lib) == Some(Sale(2024, 1, 50.0))
  {
    VisibleDateRow("2024-01-05 10:00:00", 100.0, lib);
    VisibleDateRow("2024-01-20 09:00:00", 50.0, lib);
  }

  /** The unparsable row contributes nothing; the padded February date is
      trimmed and contributes its sale. */
  lemma OtherRows(lib: Library)
    requires ParsesExample(lib)
    ensures Contribution(SaleRow("not-a-date", 70.0), lib) == None
    ensures Contribution(SaleRow(" 2024-02-01 08:00:00 ", 30.0), lib) == Some(Sale(2024, 2, 30.0))
  {
    VisibleDateRow("not-a-date", 70.0, lib);
    PaddedDateIsTrimmed();
    SaleRowContribution(" 2024-02-01 08:00:00 ", 30.0, lib);
  }

  lemma OneRow(row: Row, lib: Library)
    ensures Contributions([row], lib) == AsSeq(Contribution(row, lib))
  {
    assert [row][..0] == [];
  }

  /** Four rows of which the second fails contribute the other three
      rows' sales, in order. */
  lemma SecondRowFails(body: seq<Row>, lib: Library, s0: Sale, s2: Sale, s3: Sale)
    requires |body| == 4
    requires Contribution(body[0], lib) == Some(s0)
    requires Contribution(body[1], lib) == None
    requires Contribution(body[2], lib) == Some(s2)
    requires Contribution(body[3], lib) == Some(s3)
    ensures Contributions(body, lib) == [s0, s2, s3]
  {
    var r0, r1, r2, r3 := body[0], body[1], body[2], body[3];
    assert body == [r0] + [r1] + ([r2] + [r3]);
    FailingRowIsNeutral([r0], r1, [r2] + [r3], lib);
    ContributionsAppend([r0], [r2] + [r3], lib);
    ContributionsAppend([r2], [r3], lib);
    OneRow(r0, lib);
    OneRow(r2, lib);
    OneRow(r3, lib);
  }

  /** The header and the row with "not-a-date" contribute nothing; each
      other row contributes its sale. */
  lemma WorkbookSales(lib: Library)
    requires ParsesExample(lib)
    ensures SheetSales(Workbook(), lib) == Sold()
  {
    WorkbookBody();
    JanuaryRows(lib);
    OtherRows(lib);
    var sold := Sold();
    SecondRowFails(Body(Workbook()), lib, sold[0], sold[1], sold[2]);
  }

  /** The two January sales are summed; February has its one sale. */
  lemma SoldTable()
    ensures |Sold()| == 3
    ensures Aggregate(Sold()) == map[2024 := map[1 := 150.0, 2 := 30.0]]
  {
    var sold := Sold();
    AggregateStep([], sold[0]);
    AggregateStep([sold[0]], sold[1]);
    AggregateStep([sold[0], sold[1]], sold[2]);
    assert [] + [sold[0]] == [sold[0]];
    assert [sold[0]] + [sold[1]] == [sold[0], sold[1]];
    assert [sold[0], sold[1]] + [sold[2]] == sold;
    assert Aggregate([sold[0]]) == map[2024 := map[1 := 100.0]];
    assert map[1 := 100.0][1 := 150.0] == map[1 := 150.0];
    assert Aggregate([sold[0], sold[1]]) == map[2024 := map[1 := 150.0]];
  }

  /** The chart for a year with 150.0 in January and 30.0 in February. */
  lemma ExampleChart()
    ensures Projection(map[1 := 150.0, 2 := 30.0])[0] == Point("Январь", 150.0)
    ensures Projection(map[1 := 150.0, 2 := 30.0])[1] == Point("Февраль", 30.0)
    ensures forall i :: 2 <= i < 12 ==> Projection(map[1 := 150.0, 2 := 30.0])[i].value == 0.0
  {
    var monthly := map[1 := 150.0, 2 := 30.0];
    var p := Projection(monthly);
    assert p[0] == Point(MonthName(1), ValueOr0(monthly, 1));
    assert p[1] == Point(MonthName(2), ValueOr0(monthly, 2));
    forall i | 2 <= i < 12 ensures p[i].value == 0.0 {
      assert p[i].value == ValueOr0(monthly, i + 1);
    }
  }

  /** The header and the unparsable row are skipped; the three sales give
      150.0 in January and 30.0 in February 2024, and the chart for 2024
      shows those two values and 0.0 for the other ten months. */
  lemma WorkbookTotals(lib: Library)
    requires ParsesExample(lib)
    ensures |SheetSales(Workbook(), lib)| == 3
    ensures Aggregate(SheetSales(Workbook(), lib)) == map[2024 := map[1 := 150.0, 2 := 30.0]]
    ensures Projection(Aggregate(SheetSales(Workbook(), lib))[2024])[0] == Point("Январь", 150.0)
    ensures Projection(Aggregate(SheetSales(Workbook(), lib))[2024])[1] == Point("Февраль", 30.0)
    ensures forall i :: 2 <= i < 12 ==> Projection(Aggregate(SheetSales(Workbook(), lib))[2024])[i].value == 0.0
  {
    WorkbookSales(lib);
    SoldTable();
    ExampleChart();
  }

  /** A year list that holds exactly one year lists it once. */
  lemma OnlyYear(s: seq<int>, y: int)
    requires StrictlyAscending(s)
    requires forall x :: x in s <==> x == y
    ensures s == [y]
  {
    assert y in s;
    assert s[0] in s && s[|s| - 1] in s;
  }

  /** Loading the workbook and then analyzing 2024: three rows counted, the
      year selector offers 2024 only, and the chart is the 2024 series. */
  method LoadAndAnalyze(lib: Library) returns (app: SalesApp, processed: nat)
    requires ParsesExample(lib)
    ensures processed == 3
    ensures app.yearItems == [2024]
    ensures app.status == Loaded
    ensures app.chart == [Projection(map[1 := 150.0, 2 := 30.0])]
  {
    app := new SalesApp();
    processed := app.Load(Opened([Workbook()]), lib);
    WorkbookTotals(lib);
    OnlyYear(app.yearItems, 2024);
    app.Analyze(Some(2024));
  }
}
