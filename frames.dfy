/** A pandas DataFrame as the ingestion and cleaning code sees it: column
    names and rows of cells, every row as wide as the header. */
module Frames {
  import opened Text
  import Grouping
  import Calendar

  /** A cell: a string, a missing value (NaN, None or NaT: whatever
      `isna` reports), or a date that `pd.to_datetime` produced. Numbers
      read with `dtype=str` are strings. */
  datatype Cell = Str(s: string) | Null | Stamp(date: Calendar.Date)

  datatype Frame = Frame(names: seq<string>, rows: seq<seq<Cell>>)

  predicate Rectangular(f: Frame) {
    forall i :: 0 <= i < |f.rows| ==> |f.rows[i]| == |f.names|
  }

  /** The position of the first column called `name`, if any. */
  function IndexOf(names: seq<string>, name: string): (r: Option<nat>)
    ensures r.Some? ==> r.value < |names| && names[r.value] == name &&
                        forall k :: 0 <= k < r.value ==> names[k] != name
    ensures r.None? <==> name !in names
    decreases |names|
  {
    if |names| == 0 then None
    else if names[0] == name then Some(0)
    else
      match IndexOf(names[1..], name)
      case None => None
      case Some(k) => Some(k + 1)
  }

  /** Column `j`, top to bottom. */
  function Column(f: Frame, j: nat): (c: seq<Cell>)
    requires Rectangular(f) && j < |f.names|
    ensures |c| == |f.rows| && forall i :: 0 <= i < |f.rows| ==> c[i] == f.rows[i][j]
  {
    seq(|f.rows|, i requires 0 <= i < |f.rows| => f.rows[i][j])
  }

  /** `df[name] = series` for the existing column `j`. */
  function WithColumn(f: Frame, j: nat, c: seq<Cell>): (g: Frame)
    requires Rectangular(f) && j < |f.names| && |c| == |f.rows|
    ensures Rectangular(g) && g.names == f.names && |g.rows| == |f.rows|
    ensures forall i, k :: 0 <= i < |f.rows| && 0 <= k < |f.names| ==>
              g.rows[i][k] == if k == j then c[i] else f.rows[i][k]
  {
    Frame(f.names, seq(|f.rows|, i requires 0 <= i < |f.rows| => f.rows[i][j := c[i]]))
  }

  /** `df[name] = df[name].<cellwise transform>` for the column `j`. */
  function MapColumn(f: Frame, j: nat, fn: Cell -> Cell): (g: Frame)
    requires Rectangular(f) && j < |f.names|
    ensures Rectangular(g) && g.names == f.names && |g.rows| == |f.rows|
    ensures forall i, k {:trigger g.rows[i][k]} :: 0 <= i < |f.rows| && 0 <= k < |f.names| ==>
              g.rows[i][k] == if k == j then fn(f.rows[i][k]) else f.rows[i][k]
  {
    WithColumn(f, j, seq(|f.rows|, i requires 0 <= i < |f.rows| => fn(f.rows[i][j])))
  }

  /** `str(value)` as `astype(str)` writes it. A missing value read from a
      CSV is NaN, which reads back as `nan`; a date reads as `YYYY-MM-DD`. */
  function AsText(c: Cell): string {
    match c
    case Str(s) => s
    case Null => "nan"
    case Stamp(d) =>
      if d.year >= 0 && d.month >= 0 && d.day >= 0 then
        ZFill(NatToString(d.year), 4) + "-" + ZFill(NatToString(d.month), 2) + "-" + ZFill(NatToString(d.day), 2)
      else "NaT"
  }

  /** `pd.to_datetime(value, format="%d/%m/%Y", errors="coerce")` for one
      cell: text that does not parse becomes NaT. */
  function ToDate(c: Cell): (r: Cell)
    ensures r.Null? || r.Stamp?
  {
    match c
    case Str(s) =>
      (match Calendar.ParseDayMonthYear(s)
       case Some(d) => Stamp(d)
       case None => Null)
    case Null => Null
    case Stamp(d) => c
  }

  predicate AllNull(row: seq<Cell>) {
    forall k :: 0 <= k < |row| ==> row[k].Null?
  }

  predicate HasNull(row: seq<Cell>) {
    exists k :: 0 <= k < |row| && row[k].Null?
  }

  /** A row that `dropna(how="all")` keeps. */
  predicate HasValue(row: seq<Cell>) {
    !AllNull(row)
  }

  /** A row that `dropna()` keeps. */
  predicate Complete(row: seq<Cell>) {
    !HasNull(row)
  }

  /** `df.dropna(how="all")`: the rows that keep at least one value, in order. */
  function DropAllNull(rows: seq<seq<Cell>>): seq<seq<Cell>> {
    Grouping.Filter(rows, HasValue)
  }

  /** `df.dropna()` (`how="any"`): the rows without a missing value. */
  function DropAnyNull(rows: seq<seq<Cell>>): seq<seq<Cell>> {
    Grouping.Filter(rows, Complete)
  }

  /** Dropping rows keeps the survivors as wide as the frame. */
  lemma FilterWidth(rows: seq<seq<Cell>>, p: seq<Cell> -> bool, w: nat)
    requires forall i :: 0 <= i < |rows| ==> |rows[i]| == w
    ensures forall i :: 0 <= i < |Grouping.Filter(rows, p)| ==> |Grouping.Filter(rows, p)[i]| == w
  {
    var kept := Grouping.Filter(rows, p);
    forall i | 0 <= i < |kept| ensures |kept[i]| == w {
      Grouping.FilterMember(rows, p, kept[i]);
    }
  }
}
