/** The specification of the row loop in `loadExcelFile`: which rows
    contribute a sale, and the year -> month -> total table their sales
    build.  The table is defined as the left fold the loop performs; the
    lemmas say what that fold means. */
module Aggregation {
  import opened Wrappers
  import opened Sheet
  import opened Sums

  /** One contributing row: its sale date and amount. */
  datatype Sale = Sale(year: int, month: Month, amount: real)

  /** year -> month -> running sum (`yearlyMonthlySales`). */
  type Table = map<int, map<int, real>>

  /** What one row contributes.  The row is skipped when its date cell is
      missing, when the date cannot be read, or when the amount cell is
      missing or cannot be read; otherwise it yields its year, month and
      amount. */
  function Contribution(row: Row, lib: Library): Option<Sale>
  {
    match CellAt(row, DATE_COLUMN)
    case None => None
    case Some(dateCell) =>
      match ReadDate(dateCell, lib)
      case None => None
      case Some(date) =>
        match ReadAmount(CellAt(row, TOTAL_COLUMN), lib)
        case None => None
        case Some(amount) => Some(Sale(date.year, date.month, amount))
  }

  /** A row contributes exactly when its date cell is present and readable
      and its amount cell is present and readable, and then it contributes
      the year and month of that date with that amount. */
  lemma ContributionCases(row: Row, lib: Library)
    ensures Contribution(row, lib).Some? <==>
              && DATE_COLUMN in row.cells
              && ReadDate(row.cells[DATE_COLUMN], lib).Some?
              && TOTAL_COLUMN in row.cells
              && ReadAmount(Some(row.cells[TOTAL_COLUMN]), lib).Some?
    ensures Contribution(row, lib).Some? ==>
              var s := Contribution(row, lib).value;
              && ReadDate(row.cells[DATE_COLUMN], lib) == Some(YearMonth(s.year, s.month))
              && ReadAmount(Some(row.cells[TOTAL_COLUMN]), lib) == Some(s.amount)
  {
  }

  /** The sales of the rows that contribute, in row order. */
  function Contributions(rows: seq<Row>, lib: Library): (r: seq<Sale>)
    ensures |r| <= |rows|
  {
    if rows == [] then []
    else
      Contributions(rows[..|rows| - 1], lib) + AsSeq(Contribution(rows[|rows| - 1], lib))
  }

  function AsSeq(o: Option<Sale>): seq<Sale>
  {
    match o
    case None => []
    case Some(s) => [s]
  }

  /** Every sale comes from a row that contributes it. */
  lemma {:induction false} ContributionsFromRows(rows: seq<Row>, lib: Library)
    ensures forall s :: s in Contributions(rows, lib) ==>
              exists i :: 0 <= i < |rows| && Contribution(rows[i], lib) == Some(s)
    decreases |rows|
  {
    if rows != [] {
      var init := rows[..|rows| - 1];
      ContributionsFromRows(init, lib);
      var done := Contributions(init, lib);
      forall s | s in Contributions(rows, lib)
        ensures exists i :: 0 <= i < |rows| && Contribution(rows[i], lib) == Some(s)
      {
        if s in done {
          var i :| 0 <= i < |init| && Contribution(init[i], lib) == Some(s);
          assert rows[i] == init[i];
        } else {
          assert Contribution(rows[|rows| - 1], lib) == Some(s);
        }
      }
    }
  }

  /** Every contributing row's sale is among the sales. */
  lemma {:induction false} RowsReachContributions(rows: seq<Row>, lib: Library)
    ensures forall i :: 0 <= i < |rows| && Contribution(rows[i], lib).Some? ==>
              Contribution(rows[i], lib).value in Contributions(rows, lib)
    decreases |rows|
  {
    if rows != [] {
      var init := rows[..|rows| - 1];
      RowsReachContributions(init, lib);
      var last := Contribution(rows[|rows| - 1], lib);
      assert Contributions(rows, lib) == Contributions(init, lib) + AsSeq(last);
      forall i | 0 <= i < |rows| && Contribution(rows[i], lib).Some?
        ensures Contribution(rows[i], lib).value in Contributions(rows, lib)
      {
        if i < |init| {
          assert rows[i] == init[i];
        } else {
          assert AsSeq(last) == [last.value];
        }
      }
    }
  }

  /** One more row adds exactly that row's contribution. */
  lemma PrefixStep(rows: seq<Row>, n: nat, lib: Library)
    requires n < |rows|
    ensures Contributions(rows[..n + 1], lib)
            == Contributions(rows[..n], lib) + AsSeq(Contribution(rows[n], lib))
  {
    assert rows[..n + 1][..n] == rows[..n];
  }

  /** The table after the loop has read the first `n` rows. */
  function TableAfter(rows: seq<Row>, n: nat, lib: Library): Table
    requires n <= |rows|
  {
    if n == 0 then map[]
    else
      match Contribution(rows[n - 1], lib)
      case None => TableAfter(rows, n - 1, lib)
      case Some(s) => AddSale(TableAfter(rows, n - 1, lib), s)
  }

  /** The number of contributing rows among the first `n`. */
  function CountAfter(rows: seq<Row>, n: nat, lib: Library): nat
    requires n <= |rows|
  {
    if n == 0 then 0
    else CountAfter(rows, n - 1, lib) + if Contribution(rows[n - 1], lib).Some? then 1 else 0
  }

  /** What reading row `n` does to the table and the count. */
  lemma AfterNextRow(rows: seq<Row>, n: nat, lib: Library, sale: Option<Sale>)
    requires n < |rows| && sale == Contribution(rows[n], lib)
    ensures sale.None? ==> TableAfter(rows, n + 1, lib) == TableAfter(rows, n, lib)
    ensures sale.None? ==> CountAfter(rows, n + 1, lib) == CountAfter(rows, n, lib)
    ensures sale.Some? ==> TableAfter(rows, n + 1, lib) == AddSale(TableAfter(rows, n, lib), sale.value)
    ensures sale.Some? ==> CountAfter(rows, n + 1, lib) == CountAfter(rows, n, lib) + 1
  {
  }

  lemma {:induction false} LoopComputesAggregate(rows: seq<Row>, n: nat, lib: Library)
    requires n <= |rows|
    ensures TableAfter(rows, n, lib) == Aggregate(Contributions(rows[..n], lib))
    ensures CountAfter(rows, n, lib) == |Contributions(rows[..n], lib)|
  {
    if n > 0 {
      LoopComputesAggregate(rows, n - 1, lib);
      PrefixStep(rows, n - 1, lib);
      match Contribution(rows[n - 1], lib) {
        case None =>
          var done := Contributions(rows[..n - 1], lib);
          assert done + [] == done;
        case Some(s) =>
          AggregateStep(Contributions(rows[..n - 1], lib), s);
      }
    } else {
      assert rows[..0] == [];
    }
  }

  /** Reading every row after the first builds the table of the sheet's
      sales and counts them. */
  lemma LoopComputesSheet(rows: seq<Row>, lib: Library)
    ensures TableAfter(Body(rows), |Body(rows)|, lib) == Aggregate(SheetSales(rows, lib))
    ensures CountAfter(Body(rows), |Body(rows)|, lib) == |SheetSales(rows, lib)|
  {
    var body := Body(rows);
    LoopComputesAggregate(body, |body|, lib);
    assert body[..|body|] == body;
  }

  /** One more sale is merged into the table built from the earlier ones. */
  lemma AggregateStep(sales: seq<Sale>, s: Sale)
    ensures Aggregate(sales + [s]) == AddSale(Aggregate(sales), s)
  {
    assert (sales + [s])[..|sales|] == sales;
  }

  /** The rows after the first one, which is always discarded. */
  function Body(rows: seq<Row>): seq<Row>
  {
    if rows == [] then [] else rows[1..]
  }

  /** The sales a sheet contributes. */
  function SheetSales(rows: seq<Row>, lib: Library): seq<Sale>
  {
    Contributions(Body(rows), lib)
  }

  /** `Map.merge(month, amount, Double::sum)`: stores the amount, or adds
      it to the value already there. */
  function Merge(inner: map<int, real>, month: int, amount: real): (r: map<int, real>)
    ensures r.Keys == inner.Keys + {month}
    ensures r[month] == ValueOr0(inner, month) + amount
    ensures forall m :: m in inner && m != month ==> r[m] == inner[m]
  {
    inner[month := if month in inner then inner[month] + amount else amount]
  }

  /** `computeIfAbsent(year, new HashMap)`: the year's month table, empty
      when the year has none yet. */
  function MonthsOf(t: Table, year: int): map<int, real>
  {
    if year in t then t[year] else map[]
  }

  /** The loop's update for one sale. */
  function AddSale(t: Table, s: Sale): Table
  {
    t[s.year := Merge(MonthsOf(t, s.year), s.month, s.amount)]
  }

  /** The table the loop builds from an empty one. */
  function Aggregate(sales: seq<Sale>): Table
  {
    if sales == [] then map[] else AddSale(Aggregate(sales[..|sales| - 1]), sales[|sales| - 1])
  }

  /** The total of the sales dated in year `y`, month `m`. */
  function TotalAt(sales: seq<Sale>, y: int, m: int): real
  {
    if sales == [] then 0.0
    else
      var s := sales[|sales| - 1];
      TotalAt(sales[..|sales| - 1], y, m) + (if s.year == y && s.month == m then s.amount else 0.0)
  }

  /** The total of all sales. */
  function SumAmounts(sales: seq<Sale>): real
  {
    if sales == [] then 0.0 else SumAmounts(sales[..|sales| - 1]) + sales[|sales| - 1].amount
  }

  /** Some sale is dated in year `y`, month `m`. */
  predicate SoldIn(sales: seq<Sale>, y: int, m: int)
  {
    exists i :: 0 <= i < |sales| && sales[i].year == y && sales[i].month == m
  }

  function SalesYears(sales: seq<Sale>): set<int>
  {
    set i | 0 <= i < |sales| :: sales[i].year
  }

  /** Every year maps to a non-empty month table whose keys are months. */
  ghost predicate WellFormed(t: Table)
  {
    forall y :: y in t ==> t[y] != map[] && forall m :: m in t[y] ==> 1 <= m <= 12
  }

  /** The sum of every entry of the table. */
  ghost function TableSum(t: Table): real
  {
    MapSum(map y | y in t :: MapSum(t[y]))
  }

  /** A row that does not contribute may be removed from anywhere. */
  lemma {:induction false} ContributionsAppend(a: seq<Row>, b: seq<Row>, lib: Library)
    ensures Contributions(a + b, lib) == Contributions(a, lib) + Contributions(b, lib)
    decreases |b|
  {
    if b != [] {
      var b' := b[..|b| - 1];
      assert (a + b)[..|a + b| - 1] == a + b';
      ContributionsAppend(a, b', lib);
    } else {
      assert a + b == a;
    }
  }

  /** Rows whose contribution fails change nothing, wherever they stand. */
  lemma FailingRowIsNeutral(before: seq<Row>, row: Row, after: seq<Row>, lib: Library)
    requires Contribution(row, lib).None?
    ensures Contributions(before + [row] + after, lib) == Contributions(before + after, lib)
  {
    var single := [row];
    assert single[..0] == [];
    assert Contributions(single, lib) == [] + [];
    ContributionsAppend(before, single, lib);
    var c := Contributions(before, lib);
    assert c + ([] + []) == c;
    ContributionsAppend(before + single, after, lib);
    ContributionsAppend(before, after, lib);
  }

  /** The first row never matters: two sheets that differ only in their
      first row contribute the same sales. */
  lemma HeaderIsDiscarded(h1: Row, h2: Row, rest: seq<Row>, lib: Library)
    ensures SheetSales([h1] + rest, lib) == SheetSales([h2] + rest, lib) == Contributions(rest, lib)
  {
    assert ([h1] + rest)[1..] == rest;
    assert ([h2] + rest)[1..] == rest;
  }

  /** An entry exists exactly for the (year, month) pairs that some sale
      falls in, and it holds the total of those sales. */
  lemma {:induction false} AggregateEntries(sales: seq<Sale>, y: int, m: int)
    ensures (y in Aggregate(sales) && m in Aggregate(sales)[y]) <==> SoldIn(sales, y, m)
    ensures y in Aggregate(sales) && m in Aggregate(sales)[y] ==>
              Aggregate(sales)[y][m] == TotalAt(sales, y, m)
    decreases |sales|
  {
    if sales != [] {
      var init, s := sales[..|sales| - 1], sales[|sales| - 1];
      AggregateEntries(init, y, m);
      assert sales == init + [s];
      if SoldIn(init, y, m) {
        var i :| 0 <= i < |init| && init[i].year == y && init[i].month == m;
        assert sales[i] == init[i];
      }
      if SoldIn(sales, y, m) && !(s.year == y && s.month == m) {
        var i :| 0 <= i < |sales| && sales[i].year == y && sales[i].month == m;
        assert init[i] == sales[i];
      }
      if !SoldIn(init, y, m) {
        assert TotalAt(init, y, m) == 0.0 by { NoSaleNoTotal(init, y, m); }
      }
    }
  }

  lemma {:induction false} NoSaleNoTotal(sales: seq<Sale>, y: int, m: int)
    requires !SoldIn(sales, y, m)
    ensures TotalAt(sales, y, m) == 0.0
    decreases |sales|
  {
    if sales != [] {
      var init := sales[..|sales| - 1];
      forall i | 0 <= i < |init| ensures !(init[i].year == y && init[i].month == m) {
        assert sales[i] == init[i];
      }
      NoSaleNoTotal(init, y, m);
    }
  }

  /** The outer keys are exactly the years of the sales, every month table
      is non-empty and keyed by months. */
  lemma {:induction false} AggregateShape(sales: seq<Sale>)
    ensures Aggregate(sales).Keys == SalesYears(sales)
    ensures WellFormed(Aggregate(sales))
    decreases |sales|
  {
    if sales != [] {
      var init, s := sales[..|sales| - 1], sales[|sales| - 1];
      AggregateShape(init);
      forall y | y in SalesYears(sales) ensures y in SalesYears(init) + {s.year} {
        var i :| 0 <= i < |sales| && sales[i].year == y;
        if i < |init| { assert init[i] == sales[i]; }
      }
      forall y | y in SalesYears(init) ensures y in SalesYears(sales) {
        var i :| 0 <= i < |init| && init[i].year == y;
        assert sales[i] == init[i];
      }
    }
  }

  /** Every amount is counted once: the table's entries add up to the total
      of all sales. */
  lemma {:induction false} AggregateTotal(sales: seq<Sale>)
    ensures TableSum(Aggregate(sales)) == SumAmounts(sales)
    decreases |sales|
  {
    if sales != [] {
      var init, s := sales[..|sales| - 1], sales[|sales| - 1];
      AggregateTotal(init);
      var t := Aggregate(init);
      var inner := MonthsOf(t, s.year);
      var inner' := Merge(inner, s.month, s.amount);
      MapSumUpdate(inner, s.month, inner'[s.month]);
      var totals := map y | y in t :: MapSum(t[y]);
      var t' := Aggregate(sales);
      assert t' == t[s.year := inner'];
      assert (map y | y in t' :: MapSum(t'[y])) == totals[s.year := MapSum(inner')];
      MapSumUpdate(totals, s.year, MapSum(inner'));
      if s.year !in t {
        MapSumEmpty(inner);
      }
    }
  }
}
