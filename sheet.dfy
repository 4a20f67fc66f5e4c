/** Spreadsheet cells and rows as the row loop of `loadExcelFile` sees them,
    with the library behaviour it relies on.

    A cell is classified by its cell type, as Apache POI reports it; a formula
    cell carries the value its last evaluation cached.  The parts of the
    program that live in libraries (turning a date serial number into a local
    date in the system time zone, `LocalDateTime.parse` with the pattern
    `yyyy-MM-dd HH:mm:ss`, and `Double.parseDouble`) are given as a
    `Library` value of partial functions: `None` stands for "throws". */
module Sheet {
  import opened Wrappers

  /** Calendar month numbers, as `LocalDate.getMonthValue` returns them. */
  type Month = m: int | 1 <= m <= 12 witness 1

  datatype YearMonth = YearMonth(year: int, month: Month)

  /** The cached result type of a formula cell. */
  datatype FormulaResult =
    | NumericResult(number: real)
    | StringResult(text: string)
    | BooleanResult(flag: bool)
    | ErrorResult

  datatype Cell =
    | NumericCell(number: real)
    | StringCell(text: string)
    | FormulaCell(cached: FormulaResult)
    | BlankCell
    | BooleanCell(flag: bool)
    | ErrorCell

  /** A physical row: the cells present, by 0-based column index. */
  datatype Row = Row(cells: map<nat, Cell>)

  datatype Library = Library(
    dateOfSerial: real -> Option<YearMonth>,
    parseDateTime: string -> Option<YearMonth>,
    parseDouble: string -> Option<real>)

  const DATE_COLUMN: nat := 5
  const TOTAL_COLUMN: nat := 4

  /** `row.getCell(column)`: absent cells read as null. */
  function CellAt(row: Row, column: nat): Option<Cell>
  {
    if column in row.cells then Some(row.cells[column]) else None
  }

  /** `getStringCellValue`: text of a string cell, "" for a blank cell, the
      cached text of a formula whose result is a string; any other cell
      type makes it throw. */
  function StringValue(cell: Cell): Option<string>
  {
    match cell
    case StringCell(s) => Some(s)
    case BlankCell => Some("")
    case FormulaCell(StringResult(s)) => Some(s)
    case _ => None
  }

  /** The characters `String.trim` removes: every code point up to U+0020. */
  predicate IsTrimmed(c: char) { c <= ' ' }

  function TrimStart(s: string): (r: string)
    ensures |r| <= |s| && r == s[|s| - |r|..]
    ensures forall k :: 0 <= k < |s| - |r| ==> IsTrimmed(s[k])
    ensures r == [] || !IsTrimmed(r[0])
  {
    if s != [] && IsTrimmed(s[0]) then TrimStart(s[1..]) else s
  }

  function TrimEnd(s: string): (r: string)
    ensures |r| <= |s| && r == s[..|r|]
    ensures forall k :: |r| <= k < |s| ==> IsTrimmed(s[k])
    ensures r == [] || !IsTrimmed(r[|r| - 1])
  {
    if s != [] && IsTrimmed(s[|s| - 1]) then TrimEnd(s[..|s| - 1]) else s
  }

  /** `String.trim`: drops the leading and trailing characters up to U+0020. */
  function Trim(s: string): (r: string)
    ensures r == [] || (!IsTrimmed(r[0]) && !IsTrimmed(r[|r| - 1]))
    ensures (forall k :: 0 <= k < |s| ==> IsTrimmed(s[k])) <==> r == []
    ensures exists i, j :: 0 <= i <= j <= |s| && r == s[i..j]
              && (forall k :: 0 <= k < i ==> IsTrimmed(s[k]))
              && (forall k :: j <= k < |s| ==> IsTrimmed(s[k]))
  {
    TrimCut(s);
    TrimEnd(TrimStart(s))
  }

  /** Where the trimmed text sits in the input. */
  lemma TrimCut(s: string)
    ensures var t := TrimStart(s);
            var i, j := |s| - |t|, |s| - |t| + |TrimEnd(t)|;
            && 0 <= i <= j <= |s|
            && TrimEnd(t) == s[i..j]
            && (forall k :: j <= k < |s| ==> IsTrimmed(s[k]))
  {
    var t := TrimStart(s);
    var r := TrimEnd(t);
    var i := |s| - |t|;
    assert t == s[i..];
    assert r == t[..|r|];
    forall k | i + |r| <= k < |s| ensures IsTrimmed(s[k]) {
      assert s[k] == t[k - i];
    }
  }

  /** Text that starts and ends with a visible character is left as it is. */
  lemma TrimKeeps(s: string)
    requires s != [] && !IsTrimmed(s[0]) && !IsTrimmed(s[|s| - 1])
    ensures Trim(s) == s
  {
    assert TrimStart(s) == s;
  }

  /** The sale date of a date cell: a numeric cell is a date serial number
      converted in the system time zone; every other cell type goes through
      `getStringCellValue`, trimmed and parsed with the fixed pattern. */
  function ReadDate(cell: Cell, lib: Library): Option<YearMonth>
  {
    if cell.NumericCell? then lib.dateOfSerial(cell.number)
    else
      match StringValue(cell)
      case None => None
      case Some(text) => lib.parseDateTime(Trim(text))
  }

  /** The sale amount of the amount cell: a formula cell gives its cached
      numeric result, a numeric cell its value, any other cell its string
      value through `Double.parseDouble`.  A missing cell throws. */
  function ReadAmount(cell: Option<Cell>, lib: Library): Option<real>
  {
    match cell
    case None => None
    case Some(FormulaCell(cached)) =>
      if cached.NumericResult? then Some(cached.number) else None
    case Some(NumericCell(n)) => Some(n)
    case Some(other) =>
      match StringValue(other)
      case None => None
      case Some(text) => lib.parseDouble(text)
  }
}
