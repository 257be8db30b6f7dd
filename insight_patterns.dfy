/** `analyze_data_patterns`: it collects the data rows of each Markdown
    table and, once a line that does not start with `|` closes the table,
    reports the columns whose values are constant or little varied. */
module InsightPatterns {
  import opened Text
  import opened InsightAgent

  // ---------------------------------------------------------------------
  // One column of a table
  // ---------------------------------------------------------------------

  /** `[row[col_idx] for row in table_data if col_idx < len(row)]` */
  function ColumnValues(rows: seq<seq<string>>, c: nat): (vs: seq<string>)
    ensures |vs| <= |rows|
    decreases |rows|
  {
    if rows == [] then []
    else
      var last := rows[|rows| - 1];
      ColumnValues(rows[..|rows| - 1], c) + (if c < |last| then [last[c]] else [])
  }

  /** `set(col_values)` */
  function Unique(vs: seq<string>): set<string> {
    set v | v in vs
  }

  /** The number shown for column `c` (`col_idx + 1`). */
  function ColumnName(c: nat): string {
    ColumnPrefix + (NatToString(c + 1) + "**: ")
  }

  function ConstantLine(c: nat, v: string): string {
    ColumnName(c) + ("Valor constante (" + v + ")")
  }

  function LowLine(c: nat, k: nat): string {
    ColumnName(c) + ("Baixa variabilidade (" + NatToString(k) + " valores únicos)")
  }

  /** The pattern line of column `c`, if any. A constant column's one
      distinct value is its first value. `len(unique) < len(col_values) *
      0.5` is compared exactly, doubled. */
  function ColumnPattern(rows: seq<seq<string>>, c: nat): seq<string> {
    var vs := ColumnValues(rows, c);
    var u := Unique(vs);
    if |u| == 1 && |vs| > 1 then [ConstantLine(c, vs[0])]
    else if 2 * |u| < |vs| then [LowLine(c, |u|)]
    else []
  }

  /** The pattern lines of columns `0 .. n - 1`, in column order. */
  function ColumnsPatterns(rows: seq<seq<string>>, n: nat): seq<string> {
    if n == 0 then [] else ColumnsPatterns(rows, n - 1) + ColumnPattern(rows, n - 1)
  }

  /** `if table_data: for col_idx in range(len(table_data[0])): ...`: as
      many columns as the first row has cells. */
  function TablePatterns(rows: seq<seq<string>>): seq<string> {
    if rows == [] then [] else ColumnsPatterns(rows, |rows[0]|)
  }

  /** A row long enough to have column `c` contributes its value there. */
  lemma {:induction false} RowValueListed(rows: seq<seq<string>>, c: nat, i: nat)
    requires i < |rows| && c < |rows[i]|
    ensures rows[i][c] in ColumnValues(rows, c)
    decreases |rows|
  {
    var init := rows[..|rows| - 1];
    if i < |init| {
      RowValueListed(init, c, i);
      assert init[i] == rows[i];
    }
  }

  /** Every value of the column comes from a row long enough to have
      column `c`. */
  lemma {:induction false} ListedValueRow(rows: seq<seq<string>>, c: nat, x: string)
    requires x in ColumnValues(rows, c)
    ensures exists i :: 0 <= i < |rows| && c < |rows[i]| && rows[i][c] == x
    decreases |rows|
  {
    var init := rows[..|rows| - 1];
    var last := rows[|rows| - 1];
    if x in ColumnValues(init, c) {
      ListedValueRow(init, c, x);
      var i :| 0 <= i < |init| && c < |init[i]| && init[i][c] == x;
      assert rows[i] == init[i];
    } else {
      assert c < |last| && last[c] == x;
    }
  }

  /** A value occurs in the column exactly when some row long enough to
      have column `c` holds it there. */
  lemma ColumnValuesMembers(rows: seq<seq<string>>, c: nat, x: string)
    ensures x in ColumnValues(rows, c) <==> exists i :: 0 <= i < |rows| && c < |rows[i]| && rows[i][c] == x
  {
    if x in ColumnValues(rows, c) {
      ListedValueRow(rows, c, x);
    }
    if exists i :: 0 <= i < |rows| && c < |rows[i]| && rows[i][c] == x {
      var i :| 0 <= i < |rows| && c < |rows[i]| && rows[i][c] == x;
      RowValueListed(rows, c, i);
    }
  }

  /** A column of at least two values is reported constant, with its
      first value, exactly when every row that has the column holds that
      value there. */
  lemma ConstantMeans(rows: seq<seq<string>>, c: nat)
    requires |ColumnValues(rows, c)| > 1
    ensures var v := ColumnValues(rows, c)[0];
      ColumnPattern(rows, c) == [ConstantLine(c, v)] <==>
      forall i :: 0 <= i < |rows| && c < |rows[i]| ==> rows[i][c] == v
  {
    var vs := ColumnValues(rows, c);
    var v := vs[0];
    assert v in Unique(vs);
    if forall i :: 0 <= i < |rows| && c < |rows[i]| ==> rows[i][c] == v {
      forall x | x in Unique(vs) ensures x == v {
        ColumnValuesMembers(rows, c, x);
      }
      assert Unique(vs) == {v};
    }
    if ColumnPattern(rows, c) == [ConstantLine(c, v)] {
      LowIsNotConstant(c, v, |Unique(vs)|);
      assert |Unique(vs)| == 1;
      forall i | 0 <= i < |rows| && c < |rows[i]| ensures rows[i][c] == v {
        ColumnValuesMembers(rows, c, rows[i][c]);
        assert rows[i][c] in Unique(vs);
        OneElement(Unique(vs), v, rows[i][c]);
      }
    }
  }

  lemma OneElement(u: set<string>, v: string, w: string)
    requires |u| == 1 && v in u && w in u
    ensures v == w
  {
    if v != w {
      assert {v, w} <= u;
      assert |{v, w}| == 2;
      SubsetCard({v, w}, u);
    }
  }

  lemma SubsetCard(a: set<string>, b: set<string>)
    requires a <= b
    ensures |a| <= |b|
  {
    assert b == a + (b - a);
  }

  /** The two kinds of line differ: with the same column prefix, one goes
      on with `Valor`, the other with `Baixa`. */
  lemma LowIsNotConstant(c: nat, v: string, k: nat)
    ensures LowLine(c, k) != ConstantLine(c, v)
  {
    var p := ColumnName(c);
    assert LowLine(c, k)[|p|] == 'B';
    assert ConstantLine(c, v)[|p|] == 'V';
  }

  /** A column is reported as little varied exactly when it is not
      constant and has fewer distinct values than half its values; at most
      one line is reported per column. */
  lemma LowMeans(rows: seq<seq<string>>, c: nat)
    ensures var vs := ColumnValues(rows, c);
      |ColumnPattern(rows, c)| <= 1 &&
      (ColumnPattern(rows, c) == [LowLine(c, |Unique(vs)|)] <==>
       !(|Unique(vs)| == 1 && |vs| > 1) && 2 * |Unique(vs)| < |vs|)
  {
    var vs := ColumnValues(rows, c);
    if |Unique(vs)| == 1 && |vs| > 1 {
      LowIsNotConstant(c, vs[0], |Unique(vs)|);
    }
  }

  /** A table reports at most one line per column of its first row. */
  lemma {:induction false} ColumnsPatternsCount(rows: seq<seq<string>>, n: nat)
    ensures |ColumnsPatterns(rows, n)| <= n
  {
    if n > 0 {
      ColumnsPatternsCount(rows, n - 1);
      LowMeans(rows, n - 1);
    }
  }

  // ---------------------------------------------------------------------
  // The scan over the lines
  // ---------------------------------------------------------------------

  /** The loop's `in_table`, `table_data` and `patterns` variables. */
  datatype PatternScan = PatternScan(inTable: bool, rows: seq<seq<string>>, patterns: seq<string>)

  const Begin := PatternScan(false, [], [])

  /** One line of the loop in `analyze_data_patterns`. `table_data` is
      emptied when a table opens, not when it closes. No step reports the
      default line. */
  function PatternStep(s: PatternScan, raw: string): (r: PatternScan)
    ensures Default !in s.patterns ==> Default !in r.patterns
  {
    TableNoDefault(s.rows);
    var line := Strip(raw);
    if IsTableLine(line) then
      if !s.inTable then PatternScan(true, [], s.patterns)
      else if !StartsWith(line, "| ---") then s.(rows := s.rows + [Cells(line)])
      else s
    else if !StartsWith(line, "|") && s.inTable then
      PatternScan(false, s.rows, s.patterns + TablePatterns(s.rows))
    else s
  }

  /** The scan after the first `n` lines; it never holds the default
      line. */
  function PatternsAfter(lines: seq<string>, n: nat): (r: PatternScan)
    requires n <= |lines|
    ensures Default !in r.patterns
  {
    if n == 0 then Begin else PatternStep(PatternsAfter(lines, n - 1), lines[n - 1])
  }

  lemma PatternsAfterNext(lines: seq<string>, k: nat)
    requires k < |lines|
    ensures PatternsAfter(lines, k + 1) == PatternStep(PatternsAfter(lines, k), lines[k])
  {
  }

  const Default := "• **Variabilidade**: " + "Dados apresentam boa distribuição de valores"

  /** `analyze_data_patterns(context)`: never empty, and the default
      line is either the whole output or absent from it. */
  function DataPatterns(context: string): (r: seq<string>)
    ensures |r| >= 1
    ensures Default in r <==> r == [Default]
  {
    var p := PatternsAfter(Lines(context), |Lines(context)|).patterns;
    if p == [] then [Default] else p
  }

  /** Only a closing line (one that does not start with `|`, inside a
      table) reports anything, and it reports the patterns of the rows
      collected since the table opened. */
  lemma ReportsOnlyOnClose(s: PatternScan, raw: string)
    ensures var r := PatternStep(s, raw);
      if !StartsWith(Strip(raw), "|") && s.inTable
      then r == PatternScan(false, s.rows, s.patterns + TablePatterns(s.rows))
      else r.patterns == s.patterns
  {
  }

  /** Inside a table, each table line is one more collected row, split
      into its stripped cells. */
  lemma CollectsRow(s: PatternScan, raw: string)
    requires s.inTable && IsTableLine(Strip(raw))
    ensures PatternStep(s, raw) == s.(rows := s.rows + [Cells(Strip(raw))])
  {
    SeparatorTestDead(Strip(raw));
  }

  /** The rows `lines[2 .. n]`, split into their cells. */
  function BodyRows(lines: seq<string>, n: nat): (rows: seq<seq<string>>)
    requires 2 <= n <= |lines|
    ensures |rows| == n - 2
  {
    if n == 2 then [] else BodyRows(lines, n - 1) + [Cells(Strip(lines[n - 1]))]
  }

  lemma BodyRowsLast(lines: seq<string>, n: nat)
    requires 3 <= n <= |lines|
    ensures BodyRows(lines, n)[n - 3] == Cells(Strip(lines[n - 1]))
  {
  }

  lemma BodyRowsEarlier(lines: seq<string>, n: nat, i: nat)
    requires 3 <= n <= |lines| && i < n - 3
    ensures BodyRows(lines, n)[i] == BodyRows(lines, n - 1)[i]
  {
  }

  /** Row `i` of them is line `i + 2`, split into its cells. */
  lemma {:induction false} BodyRowsAt(lines: seq<string>, n: nat, i: nat)
    requires 2 <= n <= |lines| && i < n - 2
    ensures BodyRows(lines, n)[i] == Cells(Strip(lines[i + 2]))
    decreases n
  {
    if i < n - 3 {
      BodyRowsAt(lines, n - 1, i);
      BodyRowsEarlier(lines, n, i);
    } else {
      BodyRowsLast(lines, n);
      assert lines[i + 2] == lines[n - 1];
    }
  }

  /** `BodyRows` is the only sequence whose rows are those lines split
      into their cells. */
  lemma BodyRowsAre(lines: seq<string>, n: nat, rows: seq<seq<string>>)
    requires 2 <= n <= |lines| && |rows| == n - 2
    requires forall i :: 0 <= i < n - 2 ==> rows[i] == Cells(Strip(lines[i + 2]))
    ensures BodyRows(lines, n) == rows
  {
    forall i | 0 <= i < n - 2 ensures BodyRows(lines, n)[i] == rows[i] {
      BodyRowsAt(lines, n, i);
    }
  }

  /** A table at the start of the input (header, separator, `n - 2`
      rows) has its rows collected and nothing reported yet. */
  lemma {:induction false} TableCollected(lines: seq<string>, n: nat)
    requires 2 <= n && TableShape(lines, n - 2)
    ensures PatternsAfter(lines, n) == PatternScan(true, BodyRows(lines, n), [])
    decreases n
  {
    if n == 2 {
      PatternsAfterNext(lines, 0);
      PatternsAfterNext(lines, 1);
    } else {
      TableCollected(lines, n - 1);
      RowCollected(lines, n);
    }
  }

  /** Inside the table, line `n - 1` is collected as one more row. */
  lemma RowCollected(lines: seq<string>, n: nat)
    requires 3 <= n && TableShape(lines, n - 2)
    ensures PatternsAfter(lines, n - 1) == PatternScan(true, BodyRows(lines, n - 1), []) ==>
      PatternsAfter(lines, n) == PatternScan(true, BodyRows(lines, n), [])
  {
    var s := PatternsAfter(lines, n - 1);
    if s.inTable {
      assert IsTableLine(Strip(lines[n - 1]));
      assert PatternsAfter(lines, n) == PatternStep(s, lines[n - 1]);
      CollectsRow(s, lines[n - 1]);
    }
  }

  /** The line after such a table closes it and reports exactly the
      patterns of its rows. */
  lemma TableReported(lines: seq<string>, n: nat)
    requires 2 <= n && TableShape(lines, n - 2) && n < |lines| && !StartsWith(Strip(lines[n]), "|")
    ensures PatternsAfter(lines, n + 1).patterns == TablePatterns(BodyRows(lines, n))
  {
    TableCollected(lines, n);
    PatternsAfterNext(lines, n);
  }

  // ---------------------------------------------------------------------
  // The default line
  // ---------------------------------------------------------------------

  const ColumnPrefix := "• **Coluna "

  /** Every reported line names a column. */
  ghost predicate ColumnLines(ps: seq<string>) {
    forall i :: 0 <= i < |ps| ==> NamesColumn(ps[i])
  }

  predicate NamesColumn(line: string) {
    StartsWith(line, ColumnPrefix)
  }

  lemma PrefixConcat(p: string, a: string)
    ensures StartsWith(p + a, p)
  {
    assert (p + a)[..|p|] == p;
  }

  /** A line that begins with a column's name names a column. */
  lemma NamedLine(c: nat, rest: string)
    ensures NamesColumn(ColumnName(c) + rest)
  {
    var t := NatToString(c + 1) + "**: ";
    assert ColumnName(c) + rest == ColumnPrefix + (t + rest);
    PrefixConcat(ColumnPrefix, t + rest);
  }

  lemma ColumnPatternLines(rows: seq<seq<string>>, c: nat)
    ensures ColumnLines(ColumnPattern(rows, c))
  {
    var vs := ColumnValues(rows, c);
    var u := Unique(vs);
    if |u| == 1 && |vs| > 1 {
      NamedLine(c, "Valor constante (" + vs[0] + ")");
    } else if 2 * |u| < |vs| {
      NamedLine(c, "Baixa variabilidade (" + NatToString(|u|) + " valores únicos)");
    }
  }

  lemma {:induction false} ColumnsPatternsLines(rows: seq<seq<string>>, n: nat)
    ensures ColumnLines(ColumnsPatterns(rows, n))
  {
    if n > 0 {
      ColumnsPatternsLines(rows, n - 1);
      ColumnPatternLines(rows, n - 1);
    }
  }

  /** Every line a table reports names a column. */
  lemma TableLines(rows: seq<seq<string>>)
    ensures ColumnLines(TablePatterns(rows))
  {
    if rows != [] {
      ColumnsPatternsLines(rows, |rows[0]|);
    }
  }

  lemma DefaultNamesNoColumn()
    ensures !NamesColumn(Default)
  {
    assert Default[..|ColumnPrefix|][4] == 'V';
  }

  /** No table reports the default line. */
  lemma TableNoDefault(rows: seq<seq<string>>)
    ensures Default !in TablePatterns(rows)
  {
    TableLines(rows);
    DefaultNamesNoColumn();
    var p := TablePatterns(rows);
    forall i | 0 <= i < |p| ensures p[i] != Default {
      assert NamesColumn(p[i]);
    }
  }

  // ---------------------------------------------------------------------
  // The loops
  // ---------------------------------------------------------------------

  /** `analyze_data_patterns` */
  method AnalyzeDataPatterns(context: string) returns (patterns: seq<string>)
    ensures patterns == DataPatterns(context)
  {
    var lines := Split(context, "\n");
    patterns := ScanPatterns(lines);
    if patterns == [] {
      patterns := [Default];
    }
  }

  /** The loop over the lines; `scan` holds its `in_table`, `table_data`
      and `patterns` variables. */
  method ScanPatterns(lines: seq<string>) returns (patterns: seq<string>)
    ensures patterns == PatternsAfter(lines, |lines|).patterns
  {
    var scan := Begin;
    var k := 0;
    while k < |lines|
      invariant 0 <= k <= |lines|
      invariant scan == PatternsAfter(lines, k)
    {
      PatternsAfterNext(lines, k);
      scan := PatternLine(scan, lines[k]);
      k := k + 1;
    }
    patterns := scan.patterns;
  }

  /** The body of that loop for one line. */
  method PatternLine(s: PatternScan, raw: string) returns (r: PatternScan)
    ensures r == PatternStep(s, raw)
  {
    r := s;
    var line := Strip(raw);
    if StartsWith(line, "|") && !Contains(line, "---") && |line| > 1 {
      if !s.inTable {
        r := PatternScan(true, [], s.patterns);
      } else if !StartsWith(line, "| ---") {
        r := s.(rows := s.rows + [Cells(line)]);
      }
    } else if !StartsWith(line, "|") && s.inTable {
      var found := AnalyzeTable(s.rows);
      r := PatternScan(false, s.rows, s.patterns + found);
    }
  }

  /** The loop over the columns of a closed table. */
  method AnalyzeTable(rows: seq<seq<string>>) returns (found: seq<string>)
    ensures found == TablePatterns(rows)
  {
    found := [];
    if rows != [] {
      var n := |rows[0]|;
      var c := 0;
      while c < n
        invariant 0 <= c <= n
        invariant found == ColumnsPatterns(rows, c)
      {
        var p := AnalyzeColumn(rows, c);
        found := found + p;
        c := c + 1;
      }
    }
  }

  /** One column: its values, their set, and the test. */
  method AnalyzeColumn(rows: seq<seq<string>>, c: nat) returns (p: seq<string>)
    ensures p == ColumnPattern(rows, c)
  {
    var vs := [];
    var i := 0;
    while i < |rows|
      invariant 0 <= i <= |rows|
      invariant vs == ColumnValues(rows[..i], c)
    {
      assert rows[..i + 1][..i] == rows[..i];
      if c < |rows[i]| {
        vs := vs + [rows[i][c]];
      }
      i := i + 1;
    }
    assert rows[..|rows|] == rows;
    var unique := set v | v in vs;
    if |unique| == 1 && |vs| > 1 {
      p := [ConstantLine(c, vs[0])];
    } else if 2 * |unique| < |vs| {
      p := [LowLine(c, |unique|)];
    } else {
      p := [];
    }
  }
}
