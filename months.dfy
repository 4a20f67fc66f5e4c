/** The query side of `analyzeData`: month labels and the 12-point series
    drawn for one year's month table. */
module Months {
  import opened Sums

  /** `getMonthName`: the Russian name of months 1..12, "" otherwise. */
  function MonthName(month: int): (r: string)
    ensures (1 <= month <= 12) <==> r != ""
  {
    match month
    case 1 => "Январь"
    case 2 => "Февраль"
    case 3 => "Март"
    case 4 => "Апрель"
    case 5 => "Май"
    case 6 => "Июнь"
    case 7 => "Июль"
    case 8 => "Август"
    case 9 => "Сентябрь"
    case 10 => "Октябрь"
    case 11 => "Ноябрь"
    case 12 => "Декабрь"
    case _ => ""
  }

  /** The twelve month labels are pairwise different, so the category axis
      has twelve distinct categories. */
  lemma MonthNamesDistinct(a: int, b: int)
    requires 1 <= a <= 12 && 1 <= b <= 12 && a != b
    ensures MonthName(a) != MonthName(b)
  {
  }

  /** One chart point: a category label and a value. */
  datatype Point = Point(category: string, value: real)

  /** The series for one year: months 1..12 in order, each labelled by its
      name, with the month's total or 0.0 when it has none. */
  function Projection(monthly: map<int, real>): seq<Point>
  {
    seq(12, i requires 0 <= i < 12 => Point(MonthName(i + 1), ValueOr0(monthly, i + 1)))
  }

  /** The sum of the values of a series. */
  function SeriesTotal(series: seq<Point>): real
  {
    if series == [] then 0.0 else SeriesTotal(series[..|series| - 1]) + series[|series| - 1].value
  }

  /** The keys among 1..n. */
  ghost function KeysUpTo(monthly: map<int, real>, n: int): (ks: set<int>)
    ensures ks <= monthly.Keys
  {
    set k | k in monthly && 1 <= k <= n
  }

  lemma KeysUpToStep(monthly: map<int, real>, n: int)
    requires 1 <= n
    ensures SumOver(monthly, KeysUpTo(monthly, n))
            == SumOver(monthly, KeysUpTo(monthly, n - 1)) + ValueOr0(monthly, n)
  {
    var ks, ks' := KeysUpTo(monthly, n), KeysUpTo(monthly, n - 1);
    if n in monthly {
      SumOverRemove(monthly, ks, n);
      assert ks - {n} == ks';
    } else {
      assert ks == ks';
    }
  }

  /** The first `n` months of the series add up to the entries at keys 1..n. */
  lemma {:induction false} PrefixTotal(monthly: map<int, real>, n: nat)
    requires n <= 12
    ensures SeriesTotal(Projection(monthly)[..n]) == SumOver(monthly, KeysUpTo(monthly, n))
  {
    var p := Projection(monthly);
    if n == 0 {
      assert KeysUpTo(monthly, 0) == {};
      assert p[..0] == [];
    } else {
      PrefixTotal(monthly, n - 1);
      assert p[..n][..n - 1] == p[..n - 1];
      assert p[..n][n - 1].value == ValueOr0(monthly, n);
      KeysUpToStep(monthly, n);
    }
  }

  /** Nothing of a well-formed month table is lost on the chart: its twelve
      points add up to the sum of all its entries. */
  lemma ProjectionKeepsTotal(monthly: map<int, real>)
    requires forall m :: m in monthly ==> 1 <= m <= 12
    ensures SeriesTotal(Projection(monthly)) == MapSum(monthly)
  {
    PrefixTotal(monthly, 12);
    assert Projection(monthly)[..12] == Projection(monthly);
    assert KeysUpTo(monthly, 12) == monthly.Keys;
  }
}
