/** The upload path of the datasets router: encoding and compression
    sniffing, the SQL type of each inferred column, the checks an upload
    must pass, the dataset id, and how preview cells are serialised. */
module Datasets {
  import opened Text
  import opened Utf8
  import Dicts

  // ---------------------------------------------------------------------
  // detect_encoding, safe_decode
  // ---------------------------------------------------------------------

  datatype Encoding = Utf8Text | Latin1Text

  const SampleSize: nat := 1024

  /** `file_content[:min(1024, len(file_content))]` */
  function Sample(content: seq<Byte>): (s: seq<Byte>)
    ensures |s| == (if |content| < SampleSize then |content| else SampleSize)
    ensures s == content[..|s|]
  {
    if |content| < SampleSize then content else content[..SampleSize]
  }

  /** 'utf-8' when the sample decodes strictly, 'latin1' otherwise. */
  function DetectEncoding(content: seq<Byte>): (e: Encoding)
    ensures e == Utf8Text <==> Valid(Sample(content))
  {
    match Decode(Sample(content))
    case Some(_) => Utf8Text
    case None => Latin1Text
  }

  /** A file of at most 1024 bytes is reported as UTF-8 exactly when it is
      well formed. */
  lemma ShortFileEncoding(content: seq<Byte>)
    requires |content| <= SampleSize
    ensures DetectEncoding(content) == Utf8Text <==> Valid(content)
  {
    assert Sample(content) == content;
  }

  /** Text of plain ASCII bytes is well formed. */
  lemma {:induction false} AsciiValid(b: seq<Byte>)
    requires forall i :: 0 <= i < |b| ==> b[i] < 0x80
    ensures Valid(b)
    decreases |b|
  {
    if |b| > 0 {
      AsciiValid(b[1..]);
    }
  }

  /** The lead byte of a character beyond ASCII starts a multi-byte form. */
  lemma LeadByte(c: char)
    requires c as int >= 0x80
    ensures 0xC2 <= EncodeChar(c)[0] <= 0xF4 && |EncodeChar(c)| >= 2
  {
  }

  /** The sample can cut a character in two: a well-formed file whose
      1024th byte starts a multi-byte character is reported as Latin-1. */
  lemma CutSampleIsLatin1(a: seq<Byte>, c: char, rest: string)
    requires Valid(a) && |a| == SampleSize - 1 && c as int >= 0x80
    ensures Valid(a + EncodeChar(c) + Encode(rest))
    ensures DetectEncoding(a + EncodeChar(c) + Encode(rest)) == Latin1Text
  {
    var e := EncodeChar(c);
    var content := a + e + Encode(rest);
    EncodeValid([c] + rest);
    assert Encode([c] + rest) == e + Encode(rest) by {
      assert ([c] + rest)[1..] == rest;
    }
    assert content == a + (e + Encode(rest));
    ValidAfterPrefix(a, e + Encode(rest));
    LeadByte(c);
    assert Sample(content) == a + [e[0]];
    CutCharacter(a, e[0]);
  }

  /** Such a file exists: 1023 ASCII letters, then `é`. */
  lemma CutSampleExample()
    ensures var a := seq(SampleSize - 1, i => 0x41 as Byte);
      Valid(a + EncodeChar('é')) && DetectEncoding(a + EncodeChar('é')) == Latin1Text
  {
    var a := seq(SampleSize - 1, i => 0x41 as Byte);
    AsciiValid(a);
    CutSampleIsLatin1(a, 'é', "");
    assert a + EncodeChar('é') + Encode("") == a + EncodeChar('é');
  }

  /** `safe_decode(file_content, encoding)`: the strict decoding when it
      succeeds, otherwise Latin-1, which accepts every byte. */
  function SafeDecode(content: seq<Byte>, e: Encoding): (s: string)
    ensures e == Utf8Text && Valid(content) ==> Encode(s) == content
    ensures !(e == Utf8Text && Valid(content)) ==> s == Latin1(content)
  {
    match e
    case Utf8Text =>
      (match Decode(content)
       case Some(t) => DecodeThenEncode(content); t
       case None => Latin1(content))
    case Latin1Text => Latin1(content)
  }

  /** `safe_decode` never loses a byte: encoding its text the way it was
      decoded gives the content back. */
  lemma SafeDecodeLossless(content: seq<Byte>, e: Encoding)
    ensures var s := SafeDecode(content, e);
      if e == Utf8Text && Valid(content) then Encode(s) == content
      else (forall i :: 0 <= i < |s| ==> s[i] as int < 256) && Latin1Bytes(s) == content
  {
    if !(e == Utf8Text && Valid(content)) {
      Latin1RoundTrip(content);
    }
  }

  // ---------------------------------------------------------------------
  // detect_delimiter_and_compression
  // ---------------------------------------------------------------------

  datatype Compression = Gzip | Zip | NoCompression

  /** `startswith(b'\x1f\x8b')` first, then `startswith(b'PK')`. */
  function DetectCompression(content: seq<Byte>): (c: Compression)
    ensures c == Gzip <==> |content| >= 2 && content[0] == 0x1F && content[1] == 0x8B
    ensures c == Zip <==> |content| >= 2 && content[..2] != [0x1F, 0x8B] && content[0] == 0x50 && content[1] == 0x4B
  {
    if |content| >= 2 && content[..2] == [0x1F, 0x8B] then Gzip
    else if |content| >= 2 && content[..2] == [0x50, 0x4B] then Zip
    else NoCompression
  }

  /** The three results; the delimiter is always a comma. */
  function DetectDelimiterAndCompression(content: seq<Byte>): (r: (char, Compression, Encoding))
    ensures r.0 == ','
    ensures r.1 == DetectCompression(content) && r.2 == DetectEncoding(content)
  {
    (',', DetectCompression(content), DetectEncoding(content))
  }

  /** A gzip member starts with ID1 = 31 and ID2 = 139 (section 2.3.1 of
      RFC 1952), so it is always recognised. */
  lemma GzipRecognised(rest: seq<Byte>)
    ensures DetectCompression([31, 139] + rest) == Gzip
  {
    assert ([31, 139] + rest)[..2] == [31, 139];
  }

  /** Well-formed UTF-8 is never taken for gzip: 0x8B cannot start a
      character. */
  lemma TextIsNotGzip(content: seq<Byte>)
    requires Valid(content)
    ensures DetectCompression(content) != Gzip
  {
    if |content| >= 2 && content[0] == 0x1F && content[1] == 0x8B {
      assert false;
    }
  }

  // ---------------------------------------------------------------------
  // infer_schema_with_pandas / infer_schema_with_polars
  // ---------------------------------------------------------------------

  datatype SqlType = Integer | Double | Timestamp | Varchar

  datatype Engine = Pandas | Polars

  /** The substrings each engine's dtype names are tested for, in order. */
  function Markers(engine: Engine): (string, string, string) {
    match engine
    case Pandas => ("int", "float", "datetime")
    case Polars => ("Int", "Float", "Datetime")
  }

  function SqlTypeOf(engine: Engine, dtype: string): (t: SqlType)
    ensures t == Integer <==> Contains(dtype, Markers(engine).0)
    ensures t == Double <==> !Contains(dtype, Markers(engine).0) && Contains(dtype, Markers(engine).1)
    ensures t == Timestamp <==>
              !Contains(dtype, Markers(engine).0) && !Contains(dtype, Markers(engine).1) && Contains(dtype, Markers(engine).2)
  {
    var (i, f, d) := Markers(engine);
    if Contains(dtype, i) then Integer
    else if Contains(dtype, f) then Double
    else if Contains(dtype, d) then Timestamp
    else Varchar
  }

  /** The `(column, type)` pairs the schema is filled from, in column
      order. */
  function SchemaPairs(engine: Engine, columns: seq<(string, string)>): (pairs: seq<(string, SqlType)>)
    ensures |pairs| == |columns|
  {
    seq(|columns|, i requires 0 <= i < |columns| => (columns[i].0, SqlTypeOf(engine, columns[i].1)))
  }

  /** `schema = {}` then `schema[col] = ...` for every column in order. */
  method InferSchema(engine: Engine, columns: seq<(string, string)>) returns (schema: Dicts.Dict<SqlType>)
    ensures schema == Dicts.FromPairs(SchemaPairs(engine, columns))
  {
    ghost var pairs := SchemaPairs(engine, columns);
    schema := Dicts.Empty();
    var j := 0;
    while j < |columns|
      invariant 0 <= j <= |columns|
      invariant schema == Dicts.FromPairs(pairs[..j])
    {
      var name, t := columns[j].0, SqlTypeOf(engine, columns[j].1);
      assert pairs[j] == (name, t);
      Dicts.FromPairsSnoc(pairs, j);
      schema := Dicts.Put(schema, name, t);
      j := j + 1;
    }
    assert pairs[..j] == pairs;
  }

  /** Every column gets the type of its dtype, and the columns keep their
      order (the reader never yields two columns of one name). */
  lemma SchemaColumns(engine: Engine, columns: seq<(string, string)>, j: nat)
    requires j < |columns|
    requires forall a, b :: 0 <= a < b < |columns| ==> columns[a].0 != columns[b].0
    ensures var schema := Dicts.FromPairs(SchemaPairs(engine, columns));
      columns[j].0 in schema.entries && schema.entries[columns[j].0] == SqlTypeOf(engine, columns[j].1) &&
      schema.order == seq(|columns|, i requires 0 <= i < |columns| => columns[i].0)
  {
    var pairs := SchemaPairs(engine, columns);
    Dicts.FromPairsLookup(pairs, j);
    SchemaOrder(engine, columns);
  }

  lemma SchemaOrder(engine: Engine, columns: seq<(string, string)>)
    requires forall a, b :: 0 <= a < b < |columns| ==> columns[a].0 != columns[b].0
    ensures Dicts.FromPairs(SchemaPairs(engine, columns)).order == seq(|columns|, i requires 0 <= i < |columns| => columns[i].0)
  {
    var pairs := SchemaPairs(engine, columns);
    var ks := seq(|columns|, i requires 0 <= i < |columns| => columns[i].0);
    assert Dicts.Keys(pairs) == ks;
    assert Dicts.Distinct(ks);
    Dicts.FromPairsOrder(pairs);
  }

  /** A text lacking one character of a marker does not contain it. */
  lemma Lacks(dtype: string, marker: string, c: char)
    requires c in marker && c !in dtype
    ensures !Contains(dtype, marker)
  {
    ContainsNeedsChar(dtype, marker, c);
  }

  /** Example: pandas' integer dtypes, signed or not, are integers. */
  lemma PandasIntegers()
    ensures SqlTypeOf(Pandas, "int64") == Integer
    ensures SqlTypeOf(Pandas, "uint8") == Integer
  {
    ContainsAt("int64", "int", 0);
    ContainsAt("uint8", "int", 1);
  }

  /** Example: pandas' `float64` is a double. */
  lemma PandasFloat()
    ensures SqlTypeOf(Pandas, "float64") == Double
  {
    Lacks("float64", "int", 'i');
    ContainsAt("float64", "float", 0);
  }

  /** Example: pandas' text columns are `object`. */
  lemma PandasObject()
    ensures SqlTypeOf(Pandas, "object") == Varchar
  {
    Lacks("object", "int", 'n');
    Lacks("object", "float", 'f');
    Lacks("object", "datetime", 'd');
  }

  /** Example: a boolean column is stored as text. */
  lemma PandasBool()
    ensures SqlTypeOf(Pandas, "bool") == Varchar
  {
    Lacks("bool", "int", 'i');
    Lacks("bool", "float", 'f');
    Lacks("bool", "datetime", 'd');
  }

  /** Example: Polars' capitalised integer names, signed or not. */
  lemma PolarsIntegers()
    ensures SqlTypeOf(Polars, "Int64") == Integer
    ensures SqlTypeOf(Polars, "UInt32") == Integer
  {
    ContainsAt("Int64", "Int", 0);
    ContainsAt("UInt32", "Int", 1);
  }

  /** Example: Polars' `Float64` is a double. */
  lemma PolarsFloat()
    ensures SqlTypeOf(Polars, "Float64") == Double
  {
    Lacks("Float64", "Int", 'I');
    ContainsAt("Float64", "Float", 0);
  }

  /** Example: Polars' string dtype falls back to text. */
  lemma PolarsString()
    ensures SqlTypeOf(Polars, "String") == Varchar
  {
    Lacks("String", "Int", 'I');
    Lacks("String", "Float", 'F');
    Lacks("String", "Datetime", 'D');
  }

  /** pandas' nullable `Int64` is capitalised, so the pandas mapping types
      it as text while the polars mapping types the same name as an
      integer. */
  lemma NullableIntIsText()
    ensures SqlTypeOf(Pandas, "Int64") == Varchar
  {
    Lacks("Int64", "int", 'i');
    Lacks("Int64", "float", 'f');
    Lacks("Int64", "datetime", 'd');
  }

  // ---------------------------------------------------------------------
  // upload_dataset: validations and the dataset id
  // ---------------------------------------------------------------------

  datatype Refusal = Refusal(status: nat, detail: string)

  /** The checks made before any parsing: the file name first, then the
      content; `None` lets the upload proceed. */
  function CheckUpload(fileName: Option<string>, content: seq<Byte>): (r: Option<Refusal>)
    ensures r.Some? ==> r.value.status == 400
    ensures r.None? <==> fileName.Some? && |fileName.value| > 0 && EndsWith(Lower(fileName.value), ".csv") && |content| > 0
    ensures r == Some(Refusal(400, "Arquivo está vazio")) <==>
              fileName.Some? && |fileName.value| > 0 && EndsWith(Lower(fileName.value), ".csv") && |content| == 0
  {
    if fileName.None? || |fileName.value| == 0 || !EndsWith(Lower(fileName.value), ".csv") then
      Some(Refusal(400, "Arquivo deve ser um CSV"))
    else if |content| == 0 then Some(Refusal(400, "Arquivo está vazio"))
    else None
  }

  /** A name whose extension is `.CSV` in any case passes the name check. */
  lemma UpperCaseExtension(stem: string)
    ensures EndsWith(Lower(stem + ".CSV"), ".csv")
  {
    var name := stem + ".CSV";
    var low := Lower(name);
    assert low[|low| - 4..] == ".csv" by {
      assert name[|name| - 4..] == ".CSV";
      forall i | 0 <= i < 4 ensures low[|low| - 4 + i] == ".csv"[i] {
        assert name[|name| - 4 + i] == ".CSV"[i];
      }
    }
  }

  /** `f"ds_{str(uuid.uuid4())[:8]}"`, for the text of the uuid. */
  function DatasetId(uuidText: string): (id: string)
    ensures StartsWith(id, "ds_")
  {
    var prefix := if |uuidText| < 8 then uuidText else uuidText[..8];
    "ds_" + prefix
  }

  predicate IsHexDigit(c: char) {
    '0' <= c <= '9' || 'a' <= c <= 'f'
  }

  predicate IsIdentifierChar(c: char) {
    IsAsciiAlnum(c) || c == '_'
  }

  /** `str(uuid4())` starts with eight lower-case hex digits, so the id is
      eleven characters that are all letters, digits or `_`: it can name a
      table without quoting. */
  lemma DatasetIdIsIdentifier(uuidText: string)
    requires |uuidText| >= 8 && forall i :: 0 <= i < 8 ==> IsHexDigit(uuidText[i])
    ensures |DatasetId(uuidText)| == 11
    ensures forall i :: 0 <= i < 11 ==> IsIdentifierChar(DatasetId(uuidText)[i])
  {
    var id := DatasetId(uuidText);
    assert id[..3] == "ds_";
    forall i | 0 <= i < 11 ensures IsIdentifierChar(id[i]) {
      if i >= 3 {
        assert id[i] == uuidText[i - 3];
      } else {
        assert id[i] == id[..3][i];
      }
    }
  }

  // ---------------------------------------------------------------------
  // preview_dataset: cell serialisation
  // ---------------------------------------------------------------------

  /** A value as the database hands it over; `Other` carries `str(value)`
      of anything that is not None, int, float, str or bool. */
  datatype DbValue = DbNull | DbInt(i: int) | DbFloat(r: real) | DbStr(s: string) | DbBool(b: bool) | Other(text: string)

  datatype Json = JNull | JInt(i: int) | JFloat(r: real) | JStr(s: string) | JBool(b: bool)

  function Serialise(v: DbValue): (j: Json) {
    match v
    case DbNull => JNull
    case DbInt(i) => JInt(i)
    case DbFloat(r) => JFloat(r)
    case DbStr(s) => JStr(s)
    case DbBool(b) => JBool(b)
    case Other(text) => JStr(text)
  }

  /** The value a JSON cell reads back as. */
  function Read(j: Json): DbValue {
    match j
    case JNull => DbNull
    case JInt(i) => DbInt(i)
    case JFloat(r) => DbFloat(r)
    case JStr(s) => DbStr(s)
    case JBool(b) => DbBool(b)
  }

  /** None, int, float, str and bool are kept as they are; anything else
      becomes its text. */
  lemma SerialiseKeeps(v: DbValue)
    ensures !v.Other? ==> Read(Serialise(v)) == v
    ensures v.Other? ==> Serialise(v) == JStr(v.text)
  {
  }

  /** The value shown for column `k` of a row: the serialised cell of
      the last column of that name, as a later `row_dict[col]` overwrites
      an earlier one. */
  ghost predicate Shows(columns: seq<string>, row: seq<DbValue>, cells: Dicts.Dict<Json>)
    requires |row| == |columns|
  {
    forall k :: 0 <= k < |columns| && LastOfName(columns, k) ==>
      columns[k] in cells.entries && cells.entries[columns[k]] == Serialise(row[k])
  }

  predicate LastOfName(columns: seq<string>, k: nat)
    requires k < |columns|
  {
    forall l :: k < l < |columns| ==> columns[l] != columns[k]
  }

  /** The `(column, serialised cell)` pairs of one row, in column order. */
  function RowPairs(columns: seq<string>, row: seq<DbValue>): (pairs: seq<(string, Json)>)
    requires |row| == |columns|
    ensures |pairs| == |columns|
  {
    seq(|columns|, i requires 0 <= i < |columns| => (columns[i], Serialise(row[i])))
  }

  /** One row: `row_dict[col] = ...` for every column in order. */
  method PreviewRow(columns: seq<string>, row: seq<DbValue>) returns (cells: Dicts.Dict<Json>)
    requires |row| == |columns|
    ensures cells == Dicts.FromPairs(RowPairs(columns, row))
    ensures Shows(columns, row, cells)
  {
    ghost var pairs := RowPairs(columns, row);
    cells := Dicts.Empty();
    var i := 0;
    while i < |columns|
      invariant 0 <= i <= |columns|
      invariant cells == Dicts.FromPairs(pairs[..i])
    {
      Dicts.FromPairsSnoc(pairs, i);
      cells := Dicts.Put(cells, columns[i], Serialise(row[i]));
      i := i + 1;
    }
    assert pairs[..i] == pairs;
    RowPairsShown(columns, row);
  }

  /** The dict built from a row's pairs shows every column. */
  lemma RowPairsShown(columns: seq<string>, row: seq<DbValue>)
    requires |row| == |columns|
    ensures Shows(columns, row, Dicts.FromPairs(RowPairs(columns, row)))
  {
    var pairs := RowPairs(columns, row);
    forall k | 0 <= k < |columns| && LastOfName(columns, k)
      ensures columns[k] in Dicts.FromPairs(pairs).entries && Dicts.FromPairs(pairs).entries[columns[k]] == Serialise(row[k])
    {
      Dicts.FromPairsLookup(pairs, k);
    }
  }

  /** The preview: one dict per fetched row, in order, and its length as
      `total_rows`. Each fetched row has one value per column. */
  method Preview(columns: seq<string>, result: seq<seq<DbValue>>) returns (rows: seq<Dicts.Dict<Json>>, totalRows: nat)
    requires forall r :: 0 <= r < |result| ==> |result[r]| == |columns|
    ensures |rows| == |result| && totalRows == |rows|
    ensures forall r :: 0 <= r < |result| ==> rows[r] == Dicts.FromPairs(RowPairs(columns, result[r]))
    ensures forall r :: 0 <= r < |result| ==> Shows(columns, result[r], rows[r])
  {
    rows := [];
    for r := 0 to |result|
      invariant |rows| == r
      invariant forall q :: 0 <= q < r ==> rows[q] == Dicts.FromPairs(RowPairs(columns, result[q]))
    {
      var cells := PreviewRow(columns, result[r]);
      ghost var before := rows;
      rows := rows + [cells];
      assert forall q :: 0 <= q < r ==> rows[q] == before[q];
    }
    totalRows := |rows|;
    PreviewShows(columns, result, rows);
  }

  /** Every dict built from a row's pairs shows that row. */
  lemma PreviewShows(columns: seq<string>, result: seq<seq<DbValue>>, rows: seq<Dicts.Dict<Json>>)
    requires forall r :: 0 <= r < |result| ==> |result[r]| == |columns|
    requires |rows| == |result|
    requires forall r :: 0 <= r < |result| ==> rows[r] == Dicts.FromPairs(RowPairs(columns, result[r]))
    ensures forall r :: 0 <= r < |result| ==> Shows(columns, result[r], rows[r])
  {
    forall q | 0 <= q < |result|
      ensures Shows(columns, result[q], rows[q])
    {
      RowPairsShown(columns, result[q]);
    }
  }
}
