/** The text chunks a cleaned table is cut into before indexing: one chunk
    per row for a small table, one per window of `chunkSize` rows for a
    large one, each with a compact text and its metadata. */
module Vectors {
  import opened Text
  import Frames
  import Grouping
  import opened Ranges

  /** A cell as `str(value)` writes it, or a missing value (`isna`). */
  datatype Value = Missing | Present(text: string)

  /** A table read back from the database, with distinct column names. */
  datatype Table = Table(columns: seq<string>, rows: seq<seq<Value>>)

  /** No text occurs twice. */
  predicate Distinct(s: seq<string>) {
    forall a, b :: 0 <= a < b < |s| ==> s[a] != s[b]
  }

  predicate WellFormed(t: Table) {
    (forall i :: 0 <= i < |t.rows| ==> |t.rows[i]| == |t.columns|) && Distinct(t.columns)
  }

  datatype Meta =
    | RowMeta(rowIndex: nat, totalRows: nat, sku: Option<string>, date: Option<string>, store: Option<string>)
    | WindowMeta(start: nat, end: nat, totalRows: nat, size: nat, skus: Option<seq<string>>)

  /** `{'text': ..., 'metadata': ..., 'row_data': ...}`; the rows a chunk was
      made from are kept as they are. */
  datatype Chunk = Chunk(text: string, meta: Meta, rowData: seq<seq<Value>>)

  /** `range(0, n, 0)` raises `ValueError`. */
  datatype Outcome = Chunks(chunks: seq<Chunk>) | ZeroStep

  // ---------------------------------------------------------------------
  // One chunk per row
  // ---------------------------------------------------------------------

  predicate IsPresent(v: Value) {
    v.Present?
  }

  /** `f"{col}: {value}"` */
  function Part(col: string, v: Value): string
    requires v.Present?
  {
    col + ": " + v.text
  }

  /** The `text_parts` of one row: its present cells, left to right. */
  function RowParts(columns: seq<string>, row: seq<Value>): (r: seq<string>)
    requires |row| == |columns|
    ensures |r| == Grouping.CountWhere(row, IsPresent)
    decreases |row|
  {
    if |row| == 0 then []
    else
      var n := |row| - 1;
      RowParts(columns[..n], row[..n]) + (if row[n].Present? then [Part(columns[n], row[n])] else [])
  }

  /** Every part names a present cell of the row and its value. */
  lemma {:induction false} RowPartsFromCells(columns: seq<string>, row: seq<Value>, k: nat)
    requires |row| == |columns| && k < |RowParts(columns, row)|
    ensures exists j :: 0 <= j < |row| && row[j].Present? && RowParts(columns, row)[k] == Part(columns[j], row[j])
    decreases |row|
  {
    var n := |row| - 1;
    if k < |RowParts(columns[..n], row[..n])| {
      RowPartsFromCells(columns[..n], row[..n], k);
      var j :| 0 <= j < n && row[..n][j].Present? && RowParts(columns[..n], row[..n])[k] == Part(columns[..n][j], row[..n][j]);
      assert columns[..n][j] == columns[j] && row[..n][j] == row[j];
    }
  }

  /** A row without missing cells yields one part per column, in column order. */
  lemma {:induction false} CompleteRowParts(columns: seq<string>, row: seq<Value>)
    requires |row| == |columns| && forall j :: 0 <= j < |row| ==> row[j].Present?
    ensures |RowParts(columns, row)| == |row|
    ensures forall j :: 0 <= j < |row| ==> RowParts(columns, row)[j] == Part(columns[j], row[j])
    decreases |row|
  {
    if |row| > 0 {
      var n := |row| - 1;
      CompleteRowParts(columns[..n], row[..n]);
    }
  }

  /** The loop over `row.items()`. */
  method RowTextParts(columns: seq<string>, row: seq<Value>) returns (parts: seq<string>)
    requires |row| == |columns|
    ensures parts == RowParts(columns, row)
  {
    parts := [];
    var j := 0;
    while j < |row|
      invariant 0 <= j <= |row| && parts == RowParts(columns[..j], row[..j])
    {
      assert columns[..j + 1][..j] == columns[..j] && row[..j + 1][..j] == row[..j];
      if row[j].Present? {
        parts := parts + [Part(columns[j], row[j])];
      }
      j := j + 1;
    }
    assert columns[..j] == columns && row[..j] == row;
  }

  /** `str(row[name])` when the column exists and the value is present. */
  function Field(columns: seq<string>, row: seq<Value>, name: string): (r: Option<string>)
    requires |row| == |columns| && Distinct(columns)
    ensures r.Some? <==> exists j :: 0 <= j < |columns| && columns[j] == name && row[j].Present?
    ensures forall j :: 0 <= j < |columns| && columns[j] == name ==>
              r == if row[j].Present? then Some(row[j].text) else None
  {
    match Frames.IndexOf(columns, name)
    case None => None
    case Some(j) => if row[j].Present? then Some(row[j].text) else None
  }

  function RowChunk(t: Table, i: nat): (c: Chunk)
    requires WellFormed(t) && i < |t.rows|
    ensures c.rowData == [t.rows[i]] && c.meta.RowMeta? && c.meta.rowIndex == i && c.meta.totalRows == |t.rows|
  {
    var row := t.rows[i];
    Chunk(Join(RowParts(t.columns, row), " | "),
          RowMeta(i, |t.rows|, Field(t.columns, row, "sku"), Field(t.columns, row, "data"), Field(t.columns, row, "loja")),
          [row])
  }

  // ---------------------------------------------------------------------
  // One chunk per window
  // ---------------------------------------------------------------------

  /** `chunk_df[col].dropna().unique()`, as text: the present values of
      column `j`, each once, in order of first appearance. */
  function Uniques(rows: seq<seq<Value>>, j: nat): seq<string>
    requires forall i :: 0 <= i < |rows| ==> j < |rows[i]|
    decreases |rows|
  {
    if |rows| == 0 then []
    else
      var n := |rows| - 1;
      var u := Uniques(rows[..n], j);
      if rows[n][j].Present? && rows[n][j].text !in u then u + [rows[n][j].text] else u
  }

  /** Each present value of the column occurs once among the uniques, and
      nothing else does. */
  lemma {:induction false} UniquesMeaning(rows: seq<seq<Value>>, j: nat)
    requires forall i :: 0 <= i < |rows| ==> j < |rows[i]|
    ensures Distinct(Uniques(rows, j))
    ensures forall v :: v in Uniques(rows, j) <==> exists i :: 0 <= i < |rows| && rows[i][j] == Present(v)
    decreases |rows|
  {
    if |rows| > 0 {
      var n := |rows| - 1;
      var u := Uniques(rows[..n], j);
      UniquesMeaning(rows[..n], j);
      assert forall i :: 0 <= i < n ==> rows[..n][i] == rows[i];
      if rows[n][j].Present? && rows[n][j].text !in u {
        var w := u + [rows[n][j].text];
        forall a, b | 0 <= a < b < |w| ensures w[a] != w[b] {
          assert w[a] == u[a];
          if b < |u| {
            assert w[b] == u[b];
          } else {
            assert u[a] in u;
          }
        }
      }
    }
  }

  /** The part of one column: its values when there are at most five,
      their number otherwise, nothing for a column with no value. */
  function ColumnSummary(name: string, rows: seq<seq<Value>>, j: nat): Option<string>
    requires forall i :: 0 <= i < |rows| ==> j < |rows[i]|
  {
    var u := Uniques(rows, j);
    if |u| == 0 then None
    else if |u| <= 5 then Some(name + ": " + Join(u, ", "))
    else Some(name + ": " + NatToString(|u|) + " valores únicos")
  }

  /** A column is left out exactly when it has no value in the window. */
  lemma ColumnSummaryOmits(name: string, rows: seq<seq<Value>>, j: nat)
    requires forall i :: 0 <= i < |rows| ==> j < |rows[i]|
    ensures ColumnSummary(name, rows, j).None? <==> forall i :: 0 <= i < |rows| ==> rows[i][j].Missing?
  {
    var u := Uniques(rows, j);
    UniquesMeaning(rows, j);
    if |u| == 0 {
      assert forall i :: 0 <= i < |rows| ==> rows[i][j].Missing?;
    } else {
      assert exists i :: 0 <= i < |rows| && rows[i][j] == Present(u[0]);
    }
  }

  /** The parts of the first `k` columns of a window. */
  function WindowParts(columns: seq<string>, rows: seq<seq<Value>>, k: nat): seq<string>
    requires k <= |columns| && forall i :: 0 <= i < |rows| ==> |rows[i]| == |columns|
    decreases k
  {
    if k == 0 then []
    else
      var summary := ColumnSummary(columns[k - 1], rows, k - 1);
      WindowParts(columns, rows, k - 1) + (if summary.Some? then [summary.value] else [])
  }

  /** Column `j` has a value somewhere in the window. */
  predicate HasValue(rows: seq<seq<Value>>, j: nat)
    requires forall i :: 0 <= i < |rows| ==> j < |rows[i]|
  {
    exists i :: 0 <= i < |rows| && rows[i][j].Present?
  }

  /** How many of the first `k` columns have a value in the window. */
  function ValuedColumns(columns: seq<string>, rows: seq<seq<Value>>, k: nat): (c: nat)
    requires k <= |columns| && forall i :: 0 <= i < |rows| ==> |rows[i]| == |columns|
    ensures c <= k
    decreases k
  {
    if k == 0 then 0 else ValuedColumns(columns, rows, k - 1) + if HasValue(rows, k - 1) then 1 else 0
  }

  /** Only columns with a value contribute, one part each. */
  lemma {:induction false} WindowPartsCount(columns: seq<string>, rows: seq<seq<Value>>, k: nat)
    requires k <= |columns| && forall i :: 0 <= i < |rows| ==> |rows[i]| == |columns|
    ensures |WindowParts(columns, rows, k)| == ValuedColumns(columns, rows, k)
    decreases k
  {
    if k > 0 {
      WindowPartsCount(columns, rows, k - 1);
      ColumnSummaryOmits(columns[k - 1], rows, k - 1);
    }
  }

  /** The loop over `chunk_df.columns`. */
  method WindowTextParts(columns: seq<string>, rows: seq<seq<Value>>) returns (parts: seq<string>)
    requires forall i :: 0 <= i < |rows| ==> |rows[i]| == |columns|
    ensures parts == WindowParts(columns, rows, |columns|)
  {
    parts := [];
    var j := 0;
    while j < |columns|
      invariant 0 <= j <= |columns| && parts == WindowParts(columns, rows, j)
    {
      var summary := ColumnSummary(columns[j], rows, j);
      if summary.Some? {
        parts := parts + [summary.value];
      }
      j := j + 1;
    }
  }

  /** `list(map(str, skus[:10]))` when the window has a `sku` column with a value. */
  function SkuList(columns: seq<string>, rows: seq<seq<Value>>): Option<seq<string>>
    requires forall i :: 0 <= i < |rows| ==> |rows[i]| == |columns|
  {
    match Frames.IndexOf(columns, "sku")
    case None => None
    case Some(j) =>
      var u := Uniques(rows, j);
      if |u| == 0 then None
      else if |u| <= 10 then Some(u)
      else Some(u[..10])
  }

  /** The `skus` metadata holds between one and ten distinct values of the
      window's `sku` column, and is there exactly when that column has a value. */
  lemma SkuListMeaning(columns: seq<string>, rows: seq<seq<Value>>)
    requires forall i :: 0 <= i < |rows| ==> |rows[i]| == |columns|
    ensures var r := SkuList(columns, rows);
      r.Some? <==> "sku" in columns && exists i :: 0 <= i < |rows| && rows[i][Frames.IndexOf(columns, "sku").value].Present?
    ensures var r := SkuList(columns, rows);
      r.Some? ==> 0 < |r.value| <= 10 && Distinct(r.value)
    ensures var r := SkuList(columns, rows);
      r.Some? ==> forall v :: v in r.value ==>
        exists i :: 0 <= i < |rows| && rows[i][Frames.IndexOf(columns, "sku").value] == Present(v)
  {
    if "sku" in columns {
      var j := Frames.IndexOf(columns, "sku").value;
      var u := Uniques(rows, j);
      UniquesMeaning(rows, j);
      if |u| > 0 {
        assert exists i :: 0 <= i < |rows| && rows[i][j] == Present(u[0]);
        if |u| > 10 {
          assert forall v :: v in u[..10] ==> v in u;
          forall a, b | 0 <= a < b < 10 ensures u[..10][a] != u[..10][b] {
            assert u[..10][a] == u[a] && u[..10][b] == u[b];
          }
        }
      } else {
        assert forall i :: 0 <= i < |rows| ==> !rows[i][j].Present?;
      }
    }
  }

  /** A window with a `sku` value and at most ten distinct ones lists them all. */
  lemma FewSkusAllListed(columns: seq<string>, rows: seq<seq<Value>>)
    requires forall i :: 0 <= i < |rows| ==> |rows[i]| == |columns|
    requires "sku" in columns
    requires var j := Frames.IndexOf(columns, "sku").value; 0 < |Uniques(rows, j)| <= 10
    ensures SkuList(columns, rows) == Some(Uniques(rows, Frames.IndexOf(columns, "sku").value))
  {
  }

  /** The text of a window: the parts of its columns joined by `" | "`. */
  function WindowText(columns: seq<string>, rows: seq<seq<Value>>): string
    requires forall i :: 0 <= i < |rows| ==> |rows[i]| == |columns|
  {
    Join(WindowParts(columns, rows, |columns|), " | ")
  }

  function WindowChunk(t: Table, start: nat, end: nat): (c: Chunk)
    requires WellFormed(t) && start <= end <= |t.rows|
    ensures c.rowData == t.rows[start..end]
    ensures c.meta.WindowMeta? && c.meta.start == start && c.meta.end == end && c.meta.size == end - start
    ensures c.meta.totalRows == |t.rows|
  {
    var rows := t.rows[start..end];
    Chunk(WindowText(t.columns, rows), WindowMeta(start, end, |t.rows|, end - start, SkuList(t.columns, rows)), rows)
  }

  /** One chunk per window of `range(0, n, size)`, in order. */
  function Windows(t: Table, size: nat): (r: seq<Chunk>)
    requires WellFormed(t) && size > 0
    ensures |r| == |Spans(|t.rows|, size, 0)|
  {
    var sp := Spans(|t.rows|, size, 0);
    SpansInRange(|t.rows|, size, 0);
    seq(|sp|, k requires 0 <= k < |sp| => WindowChunk(t, sp[k].0, sp[k].1))
  }

  /** One chunk per row, in order. */
  function PerRow(t: Table): (r: seq<Chunk>)
    requires WellFormed(t)
    ensures |r| == |t.rows| && forall i :: 0 <= i < |t.rows| ==> r[i] == RowChunk(t, i)
  {
    seq(|t.rows|, i requires 0 <= i < |t.rows| => RowChunk(t, i))
  }

  /** `create_text_chunks(df, chunk_size)` */
  function TextChunks(t: Table, chunkSize: int): (r: Outcome)
    requires WellFormed(t)
  {
    if |t.rows| <= chunkSize then
      Chunks(PerRow(t))
    else if chunkSize == 0 then ZeroStep
    else if chunkSize < 0 then Chunks([])
    else Chunks(Windows(t, chunkSize))
  }

  /** The loop over `df.iterrows()` of a small table. */
  method RowChunks(t: Table) returns (chunks: seq<Chunk>)
    requires WellFormed(t)
    ensures chunks == PerRow(t)
  {
    var n := |t.rows|;
    ghost var rs := PerRow(t);
    chunks := [];
    var i := 0;
    while i < n
      invariant 0 <= i <= n && |chunks| == i
      invariant forall k :: 0 <= k < i ==> chunks[k] == rs[k]
    {
      var chunk := MakeRowChunk(t, i);
      AppendMatches(chunks, chunk, rs);
      chunks := chunks + [chunk];
      i := i + 1;
    }
  }

  /** The body of that loop: the text, metadata and row of row `i`. */
  method MakeRowChunk(t: Table, i: nat) returns (chunk: Chunk)
    requires WellFormed(t) && i < |t.rows|
    ensures chunk == RowChunk(t, i)
  {
    var row := t.rows[i];
    var parts := RowTextParts(t.columns, row);
    var meta := RowMeta(i, |t.rows|, Field(t.columns, row, "sku"), Field(t.columns, row, "data"), Field(t.columns, row, "loja"));
    chunk := Chunk(Join(parts, " | "), meta, [row]);
  }

  /** The loop over `range(0, len(df), chunk_size)`. */
  method WindowChunks(t: Table, size: nat) returns (chunks: seq<Chunk>)
    requires WellFormed(t) && size > 0
    ensures chunks == Windows(t, size)
  {
    var n := |t.rows|;
    ghost var sp := Spans(n, size, 0);
    ghost var ws := Windows(t, size);
    SpansInRange(n, size, 0);
    chunks := [];
    var start := 0;
    ghost var k := 0;
    while start < n
      invariant k <= |sp| && |chunks| == k
      invariant k < |sp| ==> start == sp[k].0
      invariant k == |sp| ==> start >= n
      invariant forall m :: 0 <= m < k ==> chunks[m] == ws[m]
      decreases n - start
    {
      SpanNext(n, size, 0, k);
      WindowAt(t, size, k);
      var end := Min(start + size, n);
      assert start == sp[k].0 && end == sp[k].1;
      var chunk := MakeWindowChunk(t, start, end);
      assert chunk == ws[k];
      AppendMatches(chunks, chunk, ws);
      chunks := chunks + [chunk];
      start := start + size;
      k := k + 1;
    }
    assert |chunks| == |ws|;
  }

  /** Extending a prefix of `ys` by the next element of `ys`. */
  lemma AppendMatches<T>(xs: seq<T>, x: T, ys: seq<T>)
    requires |xs| < |ys| && x == ys[|xs|]
    requires forall m :: 0 <= m < |xs| ==> xs[m] == ys[m]
    ensures forall m :: 0 <= m <= |xs| ==> (xs + [x])[m] == ys[m]
  {
  }

  /** The body of that loop: the text, metadata and rows of one window. */
  method MakeWindowChunk(t: Table, start: nat, end: nat) returns (chunk: Chunk)
    requires WellFormed(t) && start <= end <= |t.rows|
    ensures chunk == WindowChunk(t, start, end)
  {
    var rows := t.rows[start..end];
    var parts := WindowTextParts(t.columns, rows);
    var meta := WindowMeta(start, end, |t.rows|, end - start, SkuList(t.columns, rows));
    chunk := Chunk(Join(parts, " | "), meta, rows);
  }

  /** Window `k` is the chunk of span `k`. */
  lemma WindowAt(t: Table, size: nat, k: nat)
    requires WellFormed(t) && size > 0 && k < |Spans(|t.rows|, size, 0)|
    ensures var sp := Spans(|t.rows|, size, 0)[k];
      sp.0 <= sp.1 <= |t.rows| && Windows(t, size)[k] == WindowChunk(t, sp.0, sp.1)
  {
    SpansInRange(|t.rows|, size, 0);
  }

  /** `create_text_chunks(df, chunk_size)`: a table that fits gives one chunk
      per row, a larger one one chunk per window; a step of zero raises and
      a negative step gives no windows. */
  method CreateTextChunks(t: Table, chunkSize: int) returns (r: Outcome)
    requires WellFormed(t)
    ensures r == TextChunks(t, chunkSize)
  {
    if |t.rows| <= chunkSize {
      var chunks := RowChunks(t);
      return Chunks(chunks);
    }
    if chunkSize == 0 {
      return ZeroStep;
    }
    if chunkSize < 0 {
      return Chunks([]);
    }
    var chunks := WindowChunks(t, chunkSize);
    return Chunks(chunks);
  }

  // ---------------------------------------------------------------------
  // What the chunks promise
  // ---------------------------------------------------------------------

  /** A small table gives one chunk per row, in order, each knowing its row
      and the table size; no rows give no chunks. */
  lemma SmallTableChunks(t: Table, chunkSize: int)
    requires WellFormed(t) && |t.rows| <= chunkSize
    ensures TextChunks(t, chunkSize) == Chunks(PerRow(t))
    ensures forall i :: 0 <= i < |t.rows| ==>
              PerRow(t)[i].meta == RowMeta(i, |t.rows|, PerRow(t)[i].meta.sku, PerRow(t)[i].meta.date, PerRow(t)[i].meta.store)
    ensures AllRows(PerRow(t)) == t.rows
  {
    SingleRows(PerRow(t), t.rows);
  }

  /** Chunks that hold one row each, in order, hold all the rows. */
  lemma {:induction false} SingleRows(cs: seq<Chunk>, rows: seq<seq<Value>>)
    requires |cs| == |rows| && forall i :: 0 <= i < |cs| ==> cs[i].rowData == [rows[i]]
    ensures AllRows(cs) == rows
    decreases |cs|
  {
    if |cs| > 0 {
      assert forall i :: 0 <= i < |cs| - 1 ==> cs[1..][i] == cs[i + 1] && rows[1..][i] == rows[i + 1];
      SingleRows(cs[1..], rows[1..]);
      assert rows == [rows[0]] + rows[1..];
    }
  }

  /** The rows of the chunks, one after the other. */
  function AllRows(chunks: seq<Chunk>): seq<seq<Value>>
    decreases |chunks|
  {
    if |chunks| == 0 then [] else chunks[0].rowData + AllRows(chunks[1..])
  }

  /** Chunk `k` holds the rows of span `k`. */
  predicate HoldsSpans(cs: seq<Chunk>, rows: seq<seq<Value>>, sp: seq<(nat, nat)>) {
    |cs| == |sp| &&
    forall k :: 0 <= k < |cs| ==> sp[k].0 <= sp[k].1 <= |rows| && cs[k].rowData == rows[sp[k].0..sp[k].1]
  }

  /** Chunks that hold the rows of the spans from `start` on hold the rows
      from `start` on, once each and in order. */
  lemma {:induction false} SpansCover(cs: seq<Chunk>, rows: seq<seq<Value>>, size: nat, start: nat)
    requires size > 0 && start <= |rows| && HoldsSpans(cs, rows, Spans(|rows|, size, start))
    ensures AllRows(cs) == rows[start..]
    decreases |rows| - start
  {
    var n := |rows|;
    if start < n {
      var sp := Spans(n, size, start);
      var rest := Spans(n, size, start + size);
      var end := Min(start + size, n);
      assert sp == [(start, end)] + rest;
      assert cs[0].rowData == rows[start..end];
      if start + size <= n {
        forall k | 0 <= k < |cs| - 1
          ensures rest[k].0 <= rest[k].1 <= n && cs[1..][k].rowData == rows[rest[k].0..rest[k].1]
        {
          assert cs[1..][k] == cs[k + 1] && rest[k] == sp[k + 1];
        }
        SpansCover(cs[1..], rows, size, start + size);
      } else {
        assert rest == [];
      }
      assert AllRows(cs[1..]) == rows[end..];
      assert rows[start..end] + rows[end..] == rows[start..];
    }
  }

  /** A large table: `ceil(n / chunkSize)` windows, the `k`-th starting at
      `k * chunkSize`, each ending where the next starts and the last at
      `n`, none empty and none longer than `chunkSize`, which together hold
      every row once, in order. */
  lemma WindowsPartitionRows(t: Table, chunkSize: int)
    requires WellFormed(t) && 0 < chunkSize < |t.rows|
    ensures TextChunks(t, chunkSize) == Chunks(Windows(t, chunkSize))
    ensures |Windows(t, chunkSize)| == CeilDiv(|t.rows|, chunkSize)
    ensures Tiling(Spans(|t.rows|, chunkSize, 0), |t.rows|, chunkSize)
    ensures CarriesSpans(Windows(t, chunkSize), Spans(|t.rows|, chunkSize, 0), |t.rows|)
    ensures AllRows(Windows(t, chunkSize)) == t.rows
  {
    assert TextChunks(t, chunkSize) == Chunks(Windows(t, chunkSize));
    WindowsMeta(t, chunkSize);
    SpansPartition(|t.rows|, chunkSize);
  }

  /** Chunk `k` is a window with the bounds of span `k` in a table of
      `total` rows. */
  predicate CarriesSpans(ws: seq<Chunk>, sp: seq<(nat, nat)>, total: nat) {
    |ws| == |sp| &&
    forall k :: 0 <= k < |ws| ==>
      ws[k].meta.WindowMeta? && ws[k].meta.start == sp[k].0 && ws[k].meta.end == sp[k].1 &&
      ws[k].meta.size + sp[k].0 == sp[k].1 && ws[k].meta.totalRows == total
  }

  /** Window `k` carries the bounds of span `k` and the rows between them,
      so the windows together hold every row once, in order. */
  lemma WindowsMeta(t: Table, size: nat)
    requires WellFormed(t) && size > 0
    ensures CarriesSpans(Windows(t, size), Spans(|t.rows|, size, 0), |t.rows|)
    ensures AllRows(Windows(t, size)) == t.rows
  {
    var ws := Windows(t, size);
    var sp := Spans(|t.rows|, size, 0);
    SpansInRange(|t.rows|, size, 0);
    forall k | 0 <= k < |ws| ensures ws[k].rowData == t.rows[sp[k].0..sp[k].1] &&
      ws[k].meta.WindowMeta? && ws[k].meta.start == sp[k].0 && ws[k].meta.end == sp[k].1 &&
      ws[k].meta.size + sp[k].0 == sp[k].1 && ws[k].meta.totalRows == |t.rows|
    {
      WindowAt(t, size, k);
    }
    SpansCover(ws, t.rows, size, 0);
  }

  /** A column lists its values exactly when it has between one and five
      distinct ones, and then it lists every value of the window once;
      with more it gives their number. */
  lemma ColumnSummaryLists(name: string, rows: seq<seq<Value>>, j: nat)
    requires forall i :: 0 <= i < |rows| ==> j < |rows[i]|
    ensures var u := Uniques(rows, j);
      (ColumnSummary(name, rows, j) == Some(name + ": " + Join(u, ", ")) <==> 0 < |u| <= 5) &&
      (|u| > 5 ==> ColumnSummary(name, rows, j) == Some(name + ": " + NatToString(|u|) + " valores únicos"))
  {
    var u := Uniques(rows, j);
    if |u| > 5 {
      JoinedMoreThanCount(name, u);
    }
  }

  /** With more than five values the listed form and the counted form
      differ: only the first holds a comma. */
  lemma JoinedMoreThanCount(name: string, u: seq<string>)
    requires |u| > 5
    ensures name + ": " + Join(u, ", ") != name + ": " + NatToString(|u|) + " valores únicos"
  {
    var p := |name + ": "|;
    var listed := Join(u, ", ");
    var digits := NatToString(|u|);
    var counted := digits + " valores únicos";
    assert listed == u[0] + ", " + Join(u[1..], ", ");
    assert listed[|u[0]|] == ',';
    assert ',' !in digits by {
      forall k | 0 <= k < |digits| ensures digits[k] != ',' {
        assert IsDigit(digits[k]);
      }
    }
    assert ',' !in " valores únicos";
    assert ',' !in counted;
    assert listed != counted;
    assert (name + ": " + listed)[p..] == listed;
    assert (name + ": " + counted)[p..] == counted;
  }
}
