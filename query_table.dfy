/** `_formatar_como_tabela`: the query agent's answers as a styled HTML
    table. Column names and the title go in as given; every data cell is
    escaped first (`&`, then `<`, then `>`), so no cell can open or close
    a tag. The rows come in already formatted: the formatting callback is
    applied by the caller. */
module QueryTable {
  import opened Text

  // ---------------------------------------------------------------------
  // Escaping
  // ---------------------------------------------------------------------

  /** `str(dado).replace('&', '&amp;').replace('<', '&lt;').replace('>', '&gt;')` */
  function Escape(s: string): string {
    Replace(Replace(Replace(s, "&", "&amp;"), "<", "&lt;"), ">", "&gt;")
  }

  /** What one character becomes. */
  function EscapeChar(c: char): string {
    if c == '&' then "&amp;" else if c == '<' then "&lt;" else if c == '>' then "&gt;" else [c]
  }

  /** The reference definition: each character escaped on its own. */
  function EscapeEach(s: string): string
    decreases |s|
  {
    if |s| == 0 then [] else EscapeChar(s[0]) + EscapeEach(s[1..])
  }

  /** What a browser shows for the three entities the escaping writes. */
  function Unescape(t: string): string
    decreases |t|
  {
    if |t| == 0 then []
    else if StartsWith(t, "&amp;") then ['&'] + Unescape(t[5..])
    else if StartsWith(t, "&lt;") then ['<'] + Unescape(t[4..])
    else if StartsWith(t, "&gt;") then ['>'] + Unescape(t[4..])
    else [t[0]] + Unescape(t[1..])
  }

  /** Replacing a one-character pattern works character by character. */
  lemma ReplaceCons(c: char, t: string, p: char, rep: string)
    ensures Replace([c] + t, [p], rep) == (if c == p then rep else [c]) + Replace(t, [p], rep)
  {
    var s := [c] + t;
    assert s[1..] == t;
    assert StartsWith(s, [p]) <==> c == p by {
      assert s[..1] == [c];
    }
  }

  lemma {:induction false} ReplaceAppend(a: string, b: string, p: char, rep: string)
    ensures Replace(a + b, [p], rep) == Replace(a, [p], rep) + Replace(b, [p], rep)
    decreases |a|
  {
    if |a| > 0 {
      assert a + b == [a[0]] + (a[1..] + b);
      assert a == [a[0]] + a[1..];
      ReplaceCons(a[0], a[1..] + b, p, rep);
      ReplaceCons(a[0], a[1..], p, rep);
      ReplaceAppend(a[1..], b, p, rep);
    } else {
      assert a + b == b;
    }
  }

  lemma {:induction false} ReplaceAbsent(s: string, p: char, rep: string)
    requires p !in s
    ensures Replace(s, [p], rep) == s
    decreases |s|
  {
    if |s| > 0 {
      assert s == [s[0]] + s[1..];
      ReplaceCons(s[0], s[1..], p, rep);
      ReplaceAbsent(s[1..], p, rep);
    }
  }

  /** The three passes escape each character once: in particular the `&`
      that the later passes write is never escaped again, because the
      ampersand pass runs first. */
  lemma {:induction false} EscapeIsEach(s: string)
    ensures Escape(s) == EscapeEach(s)
    decreases |s|
  {
    if |s| > 0 {
      var c, t := s[0], s[1..];
      assert s == [c] + t;
      var r1 := Replace(t, "&", "&amp;");
      var r2 := Replace(r1, "<", "&lt;");
      var h1 := if c == '&' then "&amp;" else [c];
      ReplaceCons(c, t, '&', "&amp;");
      assert Replace(s, "&", "&amp;") == h1 + r1;
      ReplaceAppend(h1, r1, '<', "&lt;");
      var h2 := Replace(h1, "<", "&lt;");
      assert Replace(h1 + r1, "<", "&lt;") == h2 + r2;
      ReplaceAppend(h2, r2, '>', "&gt;");
      assert Escape(s) == Replace(h2, ">", "&gt;") + Escape(t);
      assert Replace(h2, ">", "&gt;") == EscapeChar(c) by {
        assert [c] + [] == [c];
        if c == '&' {
          ReplaceAbsent(h1, '<', "&lt;");
          ReplaceAbsent(h1, '>', "&gt;");
        } else if c == '<' {
          ReplaceCons(c, [], '<', "&lt;");
          assert h2 == "&lt;";
          ReplaceAbsent(h2, '>', "&gt;");
        } else {
          ReplaceCons(c, [], '<', "&lt;");
          assert h2 == [c];
          ReplaceCons(c, [], '>', "&gt;");
        }
      }
      EscapeIsEach(t);
    }
  }

  /** An escaped cell holds no angle bracket. */
  lemma {:induction false} EscapeNoTags(s: string)
    ensures '<' !in Escape(s) && '>' !in Escape(s)
  {
    EscapeIsEach(s);
    EachNoTags(s);
  }

  lemma {:induction false} EachNoTags(s: string)
    ensures '<' !in EscapeEach(s) && '>' !in EscapeEach(s)
    decreases |s|
  {
    if |s| > 0 {
      EachNoTags(s[1..]);
    }
  }

  lemma UnescapeChar(c: char, rest: string)
    ensures Unescape(EscapeChar(c) + rest) == [c] + Unescape(rest)
  {
    var t := EscapeChar(c) + rest;
    if c == '&' {
      assert t[..5] == "&amp;" && t[5..] == rest;
    } else if c == '<' {
      assert t[..4] == "&lt;" && t[4..] == rest;
      assert !StartsWith(t, "&amp;") by {
        if |t| >= 5 { assert t[..5][1] == 'l'; }
      }
    } else if c == '>' {
      assert t[..4] == "&gt;" && t[4..] == rest;
      assert !StartsWith(t, "&amp;") by {
        if |t| >= 5 { assert t[..5][1] == 'g'; }
      }
      assert !StartsWith(t, "&lt;") by {
        assert t[..4][1] == 'g';
      }
    } else {
      assert t[0] == c && t[1..] == rest;
      assert !StartsWith(t, "&amp;") by {
        if |t| >= 5 { assert t[..5][0] == c; }
      }
      assert !StartsWith(t, "&lt;") && !StartsWith(t, "&gt;") by {
        if |t| >= 4 { assert t[..4][0] == c; }
      }
    }
  }

  /** The escaped cell displays exactly the cell's text. */
  lemma {:induction false} UnescapeEscape(s: string)
    ensures Unescape(Escape(s)) == s
  {
    EscapeIsEach(s);
    UnescapeEach(s);
  }

  lemma {:induction false} UnescapeEach(s: string)
    ensures Unescape(EscapeEach(s)) == s
    decreases |s|
  {
    if |s| > 0 {
      UnescapeChar(s[0], EscapeEach(s[1..]));
      UnescapeEach(s[1..]);
      assert s == [s[0]] + s[1..];
    }
  }

  // ---------------------------------------------------------------------
  // The markup
  // ---------------------------------------------------------------------

  /** The fixed fragments of the table's f-strings. */
  datatype Markup = Markup(
    opening: string, titleClose: string, headClose: string, closing: string,
    thOpen: string, thClose: string, tdOpen: string, tdClose: string,
    rowStart: string, rowEnd: string, rowClose: string, shaded: string, plain: string)

  /** The fragments as `_formatar_como_tabela` writes them. */
  const Page: Markup := Markup(
    "\n        <div style=\"margin: 20px 0; font-family: Arial, sans-serif;\">\n            <h3 style=\"color: #333; margin-bottom: 15px; text-align: center;\">",
    "</h3>\n            <div style=\"overflow-x: auto;\">\n                <table style=\"width: 100%; border-collapse: collapse; background-color: white; box-shadow: 0 2px 4px rgba(0,0,0,0.1); border-radius: 8px; overflow: hidden;\">\n                    <thead>\n                        <tr style=\"background-color: #f8f9fa;\">\n        ",
    "\n                        </tr>\n                    </thead>\n                    <tbody>\n        ",
    "\n                    </tbody>\n                </table>\n            </div>\n        </div>\n        ",
    "<th style=\"padding: 12px 15px; text-align: left; font-weight: bold; color: #495057; border-bottom: 2px solid #dee2e6;\">",
    "</th>",
    "<td style=\"padding: 10px 15px; border-bottom: 1px solid #dee2e6; color: #495057;\">",
    "</td>",
    "<tr style=\"background-color: ", ";\">", "</tr>",
    "#f8f9fa", "white")

  /** `cor_linha`: rows alternate, the first one shaded. */
  function RowOpen(m: Markup, i: nat): string {
    m.rowStart + (if i % 2 == 0 then m.shaded else m.plain) + m.rowEnd
  }

  /** One `<th>` per column, in order. */
  function HeaderCells(m: Markup, columns: seq<string>): string
    decreases |columns|
  {
    if |columns| == 0 then []
    else HeaderCells(m, columns[..|columns| - 1]) + (m.thOpen + columns[|columns| - 1] + m.thClose)
  }

  /** One `<td>` per cell, each escaped. */
  function DataCells(m: Markup, cells: seq<string>): string
    decreases |cells|
  {
    if |cells| == 0 then []
    else DataCells(m, cells[..|cells| - 1]) + (m.tdOpen + Escape(cells[|cells| - 1]) + m.tdClose)
  }

  /** One `<tr>` per row, coloured by its position. */
  function Rows(m: Markup, rows: seq<seq<string>>): string
    decreases |rows|
  {
    if |rows| == 0 then []
    else
      var i := |rows| - 1;
      Rows(m, rows[..i]) + (RowOpen(m, i) + DataCells(m, rows[i]) + m.rowClose)
  }

  function Head(m: Markup, title: string, columns: seq<string>): string {
    m.opening + title + m.titleClose + HeaderCells(m, columns) + m.headClose
  }

  /** The whole table. */
  function Table(m: Markup, title: string, columns: seq<string>, rows: seq<seq<string>>): string {
    Head(m, title, columns) + Rows(m, rows) + m.closing
  }

  // ---------------------------------------------------------------------
  // What the markup keeps apart
  // ---------------------------------------------------------------------

  /** The angle brackets one data cell's markup adds around its text. */
  function CellMarkup(m: Markup): nat {
    CountChar(m.tdOpen + m.tdClose, '<')
  }

  /** The angle brackets one header cell's markup adds around its name. */
  function ColumnMarkup(m: Markup): nat {
    CountChar(m.thOpen + m.thClose, '<')
  }

  /** The angle brackets of the first `n` rows' own markup. */
  function RowMarkup(m: Markup, n: nat): nat {
    if n == 0 then 0 else RowMarkup(m, n - 1) + CountChar(RowOpen(m, n - 1) + m.rowClose, '<')
  }

  /** A text wrapped in markup adds its own angle brackets to the markup's. */
  lemma Wrapped(open: string, x: string, close: string)
    ensures CountChar(open + x + close, '<') == CountChar(open + close, '<') + CountChar(x, '<')
  {
    CountCharConcat(open, close, '<');
    CountCharConcat(open, x, '<');
    CountCharConcat(open + x, close, '<');
  }

  lemma Distribute(a: nat, b: nat, k: nat)
    ensures a * k + b * k == (a + b) * k
  {
  }

  /** The data cannot add a tag of its own: the cells of a row hold the
      angle brackets of their markup and no other. */
  lemma {:induction false} DataCellsTags(m: Markup, cells: seq<string>)
    ensures CountChar(DataCells(m, cells), '<') == |cells| * CellMarkup(m)
    decreases |cells|
  {
    if |cells| > 0 {
      var n := |cells| - 1;
      var e := Escape(cells[n]);
      var k := CellMarkup(m);
      DataCellsTags(m, cells[..n]);
      EscapeNoTags(cells[n]);
      CountCharZero(e, '<');
      Wrapped(m.tdOpen, e, m.tdClose);
      CountCharConcat(DataCells(m, cells[..n]), m.tdOpen + e + m.tdClose, '<');
      Distribute(n, 1, k);
    }
  }

  /** The total number of data cells. */
  function CellCount(rows: seq<seq<string>>): nat
    decreases |rows|
  {
    if |rows| == 0 then 0 else CellCount(rows[..|rows| - 1]) + |rows[|rows| - 1]|
  }

  /** One row holds its own markup's angle brackets and its cells'. */
  lemma RowTags(m: Markup, i: nat, row: seq<string>)
    ensures CountChar(RowOpen(m, i) + DataCells(m, row) + m.rowClose, '<')
         == CountChar(RowOpen(m, i) + m.rowClose, '<') + |row| * CellMarkup(m)
  {
    DataCellsTags(m, row);
    Wrapped(RowOpen(m, i), DataCells(m, row), m.rowClose);
  }

  /** The tags in the body depend on its shape alone, never on what the
      cells say. */
  lemma {:induction false} RowsTags(m: Markup, rows: seq<seq<string>>)
    ensures CountChar(Rows(m, rows), '<') == RowMarkup(m, |rows|) + CellCount(rows) * CellMarkup(m)
    decreases |rows|
  {
    if |rows| > 0 {
      var i := |rows| - 1;
      var line := RowOpen(m, i) + DataCells(m, rows[i]) + m.rowClose;
      assert Rows(m, rows) == Rows(m, rows[..i]) + line;
      var a, b, k := CellCount(rows[..i]), |rows[i]|, CellMarkup(m);
      var own := CountChar(RowOpen(m, i) + m.rowClose, '<');
      RowsTags(m, rows[..i]);
      RowTags(m, i, rows[i]);
      CountCharConcat(Rows(m, rows[..i]), line, '<');
      assert CountChar(Rows(m, rows), '<') == (RowMarkup(m, i) + a * k) + (own + b * k);
      assert CellCount(rows) == a + b;
      assert RowMarkup(m, |rows|) == RowMarkup(m, i) + own;
      Distribute(a, b, k);
    }
  }

  /** Column names are not escaped: only names without a `<` keep the
      header down to its own markup. */
  lemma {:induction false} HeaderTags(m: Markup, columns: seq<string>)
    requires forall k :: 0 <= k < |columns| ==> '<' !in columns[k]
    ensures CountChar(HeaderCells(m, columns), '<') == |columns| * ColumnMarkup(m)
    decreases |columns|
  {
    if |columns| > 0 {
      var n := |columns| - 1;
      var c := columns[n];
      var k := ColumnMarkup(m);
      HeaderTags(m, columns[..n]);
      CountCharZero(c, '<');
      Wrapped(m.thOpen, c, m.thClose);
      CountCharConcat(HeaderCells(m, columns[..n]), m.thOpen + c + m.thClose, '<');
      Distribute(n, 1, k);
    }
  }

  // ---------------------------------------------------------------------
  // The method
  // ---------------------------------------------------------------------

  /** The header loop: one `<th>` per column appended to `html`. */
  method AppendHeader(m: Markup, html0: string, columns: seq<string>) returns (html: string)
    ensures html == html0 + HeaderCells(m, columns)
  {
    html := html0;
    for k := 0 to |columns|
      invariant html == html0 + HeaderCells(m, columns[..k])
    {
      assert columns[..k + 1][..k] == columns[..k];
      html := html + (m.thOpen + columns[k] + m.thClose);
    }
    assert columns[..|columns|] == columns;
  }

  /** The inner loop: one escaped `<td>` per cell appended to `html`. */
  method AppendCells(m: Markup, html0: string, row: seq<string>) returns (html: string)
    ensures html == html0 + DataCells(m, row)
  {
    html := html0;
    for j := 0 to |row|
      invariant html == html0 + DataCells(m, row[..j])
    {
      assert row[..j + 1][..j] == row[..j];
      html := html + (m.tdOpen + Escape(row[j]) + m.tdClose);
    }
    assert row[..|row|] == row;
  }

  /** One row: its `<tr>`, its cells, its `</tr>`, appended to `html`. */
  method AppendRow(m: Markup, html0: string, i: nat, row: seq<string>) returns (html: string)
    ensures html == html0 + (RowOpen(m, i) + DataCells(m, row) + m.rowClose)
  {
    html := html0 + RowOpen(m, i);
    html := AppendCells(m, html, row);
    html := html + m.rowClose;
  }

  /** The outer loop: one `<tr>` per row appended to `html`. */
  method AppendRows(m: Markup, html0: string, rows: seq<seq<string>>) returns (html: string)
    ensures html == html0 + Rows(m, rows)
  {
    html := html0;
    for i := 0 to |rows|
      invariant html == html0 + Rows(m, rows[..i])
    {
      html := AppendRow(m, html, i, rows[i]);
      assert rows[..i + 1][..i] == rows[..i];
    }
    assert rows[..|rows|] == rows;
  }

  /** The table built fragment by fragment. */
  method FormatWith(m: Markup, rows: seq<seq<string>>, columns: seq<string>, title: string) returns (html: string)
    ensures html == Table(m, title, columns, rows)
  {
    html := m.opening + title + m.titleClose;
    html := AppendHeader(m, html, columns);
    html := html + m.headClose;
    html := AppendRows(m, html, rows);
    html := html + m.closing;
  }

  /** `_formatar_como_tabela(dados, colunas, titulo, formata_dados)` with
      `rows[i]` the cells `formata_dados(i, dados[i])` gives. */
  method FormatTable(rows: seq<seq<string>>, columns: seq<string>, title: string) returns (html: string)
    ensures html == Table(Page, title, columns, rows)
  {
    html := FormatWith(Page, rows, columns, title);
  }
}
