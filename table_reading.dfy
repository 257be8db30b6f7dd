/** Reading back what the data agent writes: the metrics the insight agent
    extracts from a Markdown table written by the data agent count its rows
    and name its columns. */
module TableReading {
  import opened Text
  import opened InsightAgent
  import DataAgent
  import InsightPatterns

  lemma {:induction false} TrimLeftAppend(a: string, b: string)
    ensures TrimLeft(a + b, IsSpace) == if TrimLeft(a, IsSpace) == [] then TrimLeft(b, IsSpace) else TrimLeft(a, IsSpace) + b
    decreases |a|
  {
    if |a| == 0 {
      assert a + b == b;
    } else {
      assert (a + b)[1..] == a[1..] + b;
      if IsSpace(a[0]) {
        TrimLeftAppend(a[1..], b);
      }
    }
  }

  /** The spaces the data agent puts around a cell are stripped away. */
  lemma StripPadded(c: string)
    ensures Strip(" " + c + " ") == Strip(c)
  {
    DataAgent.StripLeading(" ", c + " ");
    assert " " + c + " " == " " + (c + " ");
    TrimLeftAppend(c, " ");
    var t := TrimLeft(c, IsSpace);
    if t != [] {
      assert (t + " ")[..|t|] == t;
    }
  }

  lemma StripAllPadded(cells: seq<string>)
    ensures StripAll(DataAgent.Padded(cells)) == StripAll(cells)
  {
    forall j | 0 <= j < |cells| ensures Strip(DataAgent.Padded(cells)[j]) == Strip(cells[j]) {
      StripPadded(cells[j]);
    }
  }

  lemma LeftNoRun(a: string, x: char, b: string, i: int)
    requires 0 <= i && i + 3 <= |a| && !Contains(a, "---")
    ensures !OccursAt(a + [x] + b, "---", i)
  {
    assert a[i..i + 3] == (a + [x] + b)[i..i + 3];
    ContainsIff(a, "---");
    assert !OccursAt(a, "---", i);
  }

  lemma RightNoRun(a: string, x: char, b: string, i: int)
    requires |a| < i && !Contains(b, "---")
    ensures !OccursAt(a + [x] + b, "---", i)
  {
    var s := a + [x] + b;
    if i + 3 <= |s| {
      assert b[i - |a| - 1..i - |a| + 2] == s[i..i + 3];
      ContainsIff(b, "---");
      assert !OccursAt(b, "---", i - |a| - 1);
    }
  }

  lemma MiddleNoRun(a: string, x: char, b: string, i: int)
    requires x != '-' && i <= |a| < i + 3
    ensures !OccursAt(a + [x] + b, "---", i)
  {
    var s := a + [x] + b;
    if 0 <= i && i + 3 <= |s| {
      assert s[i..i + 3][|a| - i] == s[|a|] == x;
      assert "---"[|a| - i] == '-';
    }
  }

  /** No run of three dashes crosses a character that is not a dash. */
  lemma NoRunAcross(a: string, x: char, b: string)
    requires x != '-' && !Contains(a, "---") && !Contains(b, "---")
    ensures !Contains(a + [x] + b, "---")
  {
    var s := a + [x] + b;
    forall i | 0 <= i ensures !OccursAt(s, "---", i) {
      if i + 3 <= |a| {
        LeftNoRun(a, x, b, i);
      } else if i > |a| {
        RightNoRun(a, x, b, i);
      } else {
        MiddleNoRun(a, x, b, i);
      }
    }
    ContainsIff(s, "---");
  }

  lemma NoRunInSpace()
    ensures !Contains("", "---")
  {
    ContainsIff("", "---");
  }

  lemma {:induction false} JoinNoRun(cells: seq<string>)
    requires forall j :: 0 <= j < |cells| ==> !Contains(cells[j], "---")
    ensures !Contains(Join(cells, " | "), "---")
    decreases |cells|
  {
    if |cells| == 0 {
      NoRunInSpace();
    } else if |cells| > 1 {
      JoinNoRun(cells[1..]);
      SeparatorNoRun(cells[0], Join(cells[1..], " | "));
    }
  }

  /** Two texts without a run of dashes, joined by `" | "`. */
  lemma SeparatorNoRun(c: string, rest: string)
    requires !Contains(c, "---") && !Contains(rest, "---")
    ensures !Contains(c + " | " + rest, "---")
  {
    NoRunInSpace();
    NoRunAcross([], ' ', rest);
    assert [] + [' '] + rest == [' '] + rest;
    NoRunAcross([], '|', [' '] + rest);
    assert [] + ['|'] + ([' '] + rest) == "| " + rest;
    NoRunAcross(c, ' ', "| " + rest);
    assert c + [' '] + ("| " + rest) == c + " | " + rest;
  }

  /** The text between the pipes has no run of three dashes. */
  lemma PaddedNoRun(j: string)
    requires !Contains(j, "---")
    ensures !Contains(" " + j + " |", "---")
  {
    NoRunInSpace();
    NoRunAcross(j, ' ', "|");
    assert j + [' '] + "|" == j + " |";
    NoRunAcross([], ' ', j + " |");
    assert [] + [' '] + (j + " |") == " " + j + " |";
  }

  /** A line the data agent writes from cells without `---` has no run
      of three dashes. */
  lemma LineNoRun(cells: seq<string>)
    requires forall j :: 0 <= j < |cells| ==> !Contains(cells[j], "---")
    ensures !Contains(DataAgent.LineText(cells), "---")
  {
    var j := Join(cells, " | ");
    JoinNoRun(cells);
    PaddedNoRun(j);
    NoRunInSpace();
    NoRunAcross([], '|', " " + j + " |");
    assert [] + ['|'] + (" " + j + " |") == DataAgent.LineText(cells);
  }

  /** Such a line is a table line, and stripping leaves it as it is. */
  lemma LineIsTableLine(cells: seq<string>)
    requires forall j :: 0 <= j < |cells| ==> !Contains(cells[j], "---")
    ensures Strip(DataAgent.LineText(cells)) == DataAgent.LineText(cells)
    ensures IsTableLine(DataAgent.LineText(cells))
  {
    DataAgent.StripBare(DataAgent.LineText(cells));
    LineNoRun(cells);
  }

  /** The separator line the data agent writes begins with `| ---`. */
  lemma DashLineStarts(n: nat)
    requires n > 0
    ensures StartsWith(Strip(DataAgent.LineText(DataAgent.Dashes(n))), "|")
    ensures Contains(Strip(DataAgent.LineText(DataAgent.Dashes(n))), "---")
  {
    var d := DataAgent.Dashes(n);
    var line := DataAgent.LineText(d);
    DataAgent.StripBare(line);
    assert Join(d, " | ")[..3] == "---";
    assert line[2..5] == Join(d, " | ")[..3];
    ContainsAt(line, "---", 2);
  }

  /** Reading a data agent table: a header line, a separator, one data line
      per row and the empty text after the last line break. */
  ghost predicate Readable(f: DataAgent.Frame) {
    !DataAgent.IsEmpty(f) &&
    (forall j :: 0 <= j < |f.columns| ==> DataAgent.Plain(f.columns[j]) && !Contains(f.columns[j], "---")) &&
    (forall i, j :: 0 <= i < |f.rows| && 0 <= j < |f.rows[i]| ==>
       DataAgent.Plain(DataAgent.Shown(f.rows[i][j])) && !Contains(DataAgent.Shown(f.rows[i][j]), "---"))
  }

  /** The header line of a data agent table is a table line whose cells
      are the column names. */
  lemma HeaderLineRead(f: DataAgent.Frame)
    requires Readable(f)
    ensures var lines := Lines(DataAgent.Markdown(f));
      |lines| == |f.rows| + 3 && IsTableLine(Strip(lines[0])) && Cells(Strip(lines[0])) == StripAll(f.columns)
  {
    DataAgent.MarkdownLines(f);
    var lines := Lines(DataAgent.Markdown(f));
    assert lines[0] == DataAgent.LineText(f.columns);
    LineIsTableLine(f.columns);
    DataAgent.LineCells(f.columns);
    StripAllPadded(f.columns);
  }

  /** Its second line is the separator, then come the rows, then the empty
      text after the last line break. */
  lemma OtherLinesRead(f: DataAgent.Frame)
    requires Readable(f)
    ensures var lines := Lines(DataAgent.Markdown(f));
      |lines| == |f.rows| + 3 &&
      StartsWith(Strip(lines[1]), "|") && Contains(Strip(lines[1]), "---") &&
      (forall i :: 2 <= i < |f.rows| + 2 ==> IsTableLine(Strip(lines[i]))) &&
      lines[|f.rows| + 2] == ""
  {
    DataAgent.MarkdownLines(f);
    var lines := Lines(DataAgent.Markdown(f));
    assert lines[1] == DataAgent.LineText(DataAgent.Dashes(|f.columns|));
    DashLineStarts(|f.columns|);
    forall i | 2 <= i < |f.rows| + 2 ensures IsTableLine(Strip(lines[i])) {
      var row := DataAgent.ShownRow(f.rows[i - 2]);
      assert lines[i] == DataAgent.LineText(row);
      LineIsTableLine(row);
    }
  }

  /** The lines of a data agent table have the shape the scan reads. */
  lemma MarkdownShape(f: DataAgent.Frame)
    requires Readable(f)
    ensures var lines := Lines(DataAgent.Markdown(f));
      |lines| == |f.rows| + 3 && TableShape(lines, |f.rows|) &&
      Cells(Strip(lines[0])) == StripAll(f.columns) &&
      !StartsWith(Strip(lines[|f.rows| + 2]), "|")
  {
    HeaderLineRead(f);
    OtherLinesRead(f);
    var lines := Lines(DataAgent.Markdown(f));
    assert Strip(lines[|f.rows| + 2]) == "";
  }

  /** The metrics of a table written by the data agent count its rows and
      name its columns, with their surrounding spaces removed. */
  lemma MarkdownMetrics(f: DataAgent.Frame)
    requires Readable(f)
    ensures KeyMetrics(DataAgent.Markdown(f)).totalRecords == |f.rows|
    ensures KeyMetrics(DataAgent.Markdown(f)).columns == StripAll(f.columns)
  {
    var lines := Lines(DataAgent.Markdown(f));
    MarkdownShape(f);
    TableScan(lines, |f.rows| + 2, FloatAccepts);
    ClosingStep(lines, |f.rows| + 2, FloatAccepts);
  }

  /** Each data line of a data agent table splits back into the row's
      shown cells. */
  lemma RowLinesRead(f: DataAgent.Frame, i: nat)
    requires Readable(f) && DataAgent.Rectangular(f) && i < |f.rows|
    ensures var lines := Lines(DataAgent.Markdown(f));
      |lines| == |f.rows| + 3 && Cells(Strip(lines[i + 2])) == StripAll(DataAgent.ShownRow(f.rows[i]))
  {
    DataAgent.MarkdownLines(f);
    var lines := Lines(DataAgent.Markdown(f));
    var row := DataAgent.ShownRow(f.rows[i]);
    assert lines[i + 2] == DataAgent.LineText(row);
    LineIsTableLine(row);
    assert |row| == |f.columns| > 0;
    DataAgent.LineCells(row);
    StripAllPadded(row);
  }

  /** The rows the pattern scan collects from a data agent table. */
  function ReadRows(f: DataAgent.Frame): (rows: seq<seq<string>>)
    ensures |rows| == |f.rows|
  {
    seq(|f.rows|, i requires 0 <= i < |f.rows| => StripAll(DataAgent.ShownRow(f.rows[i])))
  }

  /** The rows the pattern scan collects from a data agent table are the
      rows of the frame as written. */
  lemma BodyIsRead(f: DataAgent.Frame)
    requires Readable(f) && DataAgent.Rectangular(f)
    ensures var lines := Lines(DataAgent.Markdown(f));
      |lines| == |f.rows| + 3 && InsightPatterns.BodyRows(lines, |f.rows| + 2) == ReadRows(f)
  {
    var lines := Lines(DataAgent.Markdown(f));
    var rows := ReadRows(f);
    assert |lines| == |f.rows| + 3 by {
      DataAgent.MarkdownLines(f);
    }
    forall i | 0 <= i < |f.rows| ensures rows[i] == Cells(Strip(lines[i + 2])) {
      RowLinesRead(f, i);
    }
    InsightPatterns.BodyRowsAre(lines, |f.rows| + 2, rows);
  }

  /** The patterns of a table written by the data agent are those of its
      rows, read back with their surrounding spaces removed, or the
      default line when there are none. */
  lemma MarkdownPatterns(f: DataAgent.Frame)
    requires Readable(f) && DataAgent.Rectangular(f)
    ensures var p := InsightPatterns.TablePatterns(ReadRows(f));
      InsightPatterns.DataPatterns(DataAgent.Markdown(f)) == if p == [] then [InsightPatterns.Default] else p
  {
    var lines := Lines(DataAgent.Markdown(f));
    MarkdownShape(f);
    InsightPatterns.TableReported(lines, |f.rows| + 2);
    BodyIsRead(f);
  }
}
