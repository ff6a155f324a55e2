/**
 * The values that spreadsheet cells and output records hold, the way Python
 * prints them, and the openpyxl cell, font and hyperlink attributes the
 * importers read.
 */
module PyValues {
  import opened Wrappers
  import opened Text
  import opened Dicts

  /** A calendar day (Python `datetime.date`), as a year/month/day triple. */
  datatype Date = Date(year: nat, month: nat, day: nat)

  function YearStart(y: nat): Date { Date(y, 1, 1) }
  function YearEnd(y: nat): Date { Date(y, 12, 31) }

  /** A Python value held by a cell or stored in a record. */
  datatype Value =
    | Null                   // None
    | Int(i: int)
    | Float(repr: string)    // a float, known by the text str() gives for it
    | Str(s: string)
    | Day(date: Date)        // a datetime.date
    | DateTime(date: Date)   // a datetime.datetime read from a cell (at midnight)
    | List(items: seq<Value>)

  /** An output or switch record: a dict from column name to value. */
  type Record = Dict<Value>

  /** `str(d)` for a date: ISO `YYYY-MM-DD`. */
  function DateText(d: Date): string {
    PadNat(d.year, 4) + "-" + PadNat(d.month, 2) + "-" + PadNat(d.day, 2)
  }

  /** `str(v)`, which is also what `"%s" % v` and `format` insert. */
  function Show(v: Value): string
    decreases v, 1
  {
    match v
    case Null => "None"
    case Int(i) => IntToString(i)
    case Float(r) => r
    case Str(s) => s
    case Day(d) => DateText(d)
    case DateTime(d) => DateText(d) + " 00:00:00"
    case List(items) => "[" + ReprList(items) + "]"
  }

  /** `repr(v)`, as Python shows the elements of a list. */
  function Repr(v: Value): string
    decreases v, 2
  {
    match v
    case Str(s) => "'" + s + "'"
    case _ => Show(v)
  }

  function ReprList(vs: seq<Value>): string
    decreases vs
  {
    if vs == [] then ""
    else if |vs| == 1 then Repr(vs[0])
    else Repr(vs[0]) + ", " + ReprList(vs[1..])
  }

  /** A Python list of strings. */
  function Strs(ss: seq<string>): (v: Value)
    ensures v.List? && |v.items| == |ss|
    ensures forall i :: 0 <= i < |ss| ==> v.items[i] == Str(ss[i])
  {
    List(seq(|ss|, i requires 0 <= i < |ss| => Str(ss[i])))
  }

  /** `val is not None and val not in ('na', 'NA')`. */
  predicate Usable(v: Value) {
    v != Null && v != Str("na") && v != Str("NA")
  }

  // ---------------------------------------------------------------------
  // Cells as openpyxl presents them

  /** `cell.font.color`, of which only the `indexed` attribute is read. */
  datatype Color = Color(indexed: Option<int>)

  /** `cell.font`: `color` and `strike` are None when not set. */
  datatype Font = Font(color: Option<Color>, strike: Option<bool>)

  /** `cell.hyperlink`: `location` is the in-workbook target, None for external links. */
  datatype Hyperlink = Hyperlink(location: Option<string>)

  datatype Cell = Cell(value: Value, hyperlink: Option<Hyperlink>, font: Font)

  const EmptyCell := Cell(Null, None, Font(None, None))

  /** A worksheet: `sheet[col][i]` is the cell at column letter `col`, position `i`; unset cells are empty. */
  type Sheet = map<(string, nat), Cell>

  function CellAt(sheet: Sheet, col: string, i: nat): Cell {
    if (col, i) in sheet then sheet[(col, i)] else EmptyCell
  }

  /** `item[i].value` for a row read as a tuple of cells. */
  function ValueAt(row: seq<Value>, i: nat): Value {
    if i < |row| then row[i] else Null
  }
}
