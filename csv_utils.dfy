/** The CSV ingestion helpers of `utils.py`, of which the backend and the
    MongoDB importer each carry a copy: delimiter detection, the Google
    Sheets export link, the collection name of a local file, the repair
    table for text read as cp1252, and the backend's frame normalisation. */
module CsvUtils {
  import opened Text
  import opened Frames
  import Grouping
  import UrlQuote

  // ---------------------------------------------------------------------
  // detectar_delimitador
  // ---------------------------------------------------------------------

  /** `texto.split("\n", 1)[0]` */
  function FirstLine(text: string): string {
    SplitOnce(text, "\n")[0]
  }

  /** `;` when the first line has semicolons and, if it also has commas,
      more semicolons than commas; `,` otherwise. Equivalently: `;` exactly
      when the first line holds strictly more `;` than `,`. */
  function DetectDelimiter(text: string): (d: char)
    ensures d == ';' || d == ','
    ensures d == ';' <==> CountChar(FirstLine(text), ';') > CountChar(FirstLine(text), ',')
  {
    var line := FirstLine(text);
    ContainsChar(line, ';');
    ContainsChar(line, ',');
    if Contains(line, ";") && Contains(line, ",") then
      (if CountChar(line, ';') > CountChar(line, ',') then ';' else ',')
    else if Contains(line, ";") then ';'
    else ','
  }

  /** Only the header line matters: whatever follows the first newline is
      never looked at. */
  lemma DelimiterFirstLineOnly(header: string, rest: string)
    requires '\n' !in header
    ensures DetectDelimiter(header + "\n" + rest) == DetectDelimiter(header)
  {
    SplitOnceJoined(header, '\n', rest);
    ContainsChar(header, '\n');
  }

  // ---------------------------------------------------------------------
  // ajustar_link_google_sheets
  // ---------------------------------------------------------------------

  const SheetsMarker: string := "docs.google.com/spreadsheets"
  const SheetsPrefix: string := "https://docs.google.com/spreadsheets/d/"

  /** The returned triple `(url, sheet_id, gid)`. */
  datatype SheetsLink = SheetsLink(url: string, sheetId: Option<string>, gid: Option<string>)

  /** A result, or the `IndexError` of `url.split("/d/")[1]`. */
  datatype Adjusted = Adjusted(link: SheetsLink) | IndexError

  /** The query of the export link. */
  function ExportQuery(gid: string): string {
    "format=csv" + "&" + ("gid=" + gid)
  }

  /** `f"https://docs.google.com/spreadsheets/d/{sheet_id}/export?format=csv&gid={gid}"` */
  function ExportUrl(sheetId: string, gid: string): string {
    SheetsPrefix + sheetId + "/export?" + ExportQuery(gid)
  }

  /** `urlparse(url).query`: the text after the first `?` of the part
      before the first `#`. */
  function QueryOf(url: string): string {
    var beforeFragment := SplitOnce(url, "#")[0];
    var parts := SplitOnce(beforeFragment, "?");
    if |parts| == 2 then parts[1] else ""
  }

  /** How `parse_qs` reads one side of a field: `+` as a space, then
      `unquote`. */
  function QueryText(raw: string): (r: string)
    ensures |raw| > 0 ==> |r| > 0
  {
    UrlQuote.Unquote(Replace(raw, "+", " "))
  }

  /** `parse_qs(query).get(name, [...])[0]` over the `&`-separated fields:
      the value of the first field `name=value` whose value is not blank,
      both sides read by `QueryText`. Fields without `=` and blank values
      are dropped, as `parse_qs` does by default. */
  function FirstParam(fields: seq<string>, name: string): (r: Option<string>)
    ensures r.Some? ==> |r.value| > 0
    decreases |fields|
  {
    if |fields| == 0 then None
    else
      var nv := SplitOnce(fields[0], "=");
      if |nv| == 2 && |nv[1]| > 0 && QueryText(nv[0]) == name then Some(QueryText(nv[1]))
      else FirstParam(fields[1..], name)
  }

  /** Without `%` the reading only turns `+` into a space. */
  lemma QueryTextPlain(raw: string)
    requires '%' !in raw
    ensures QueryText(raw) == Replace(raw, "+", " ")
    ensures '+' !in QueryText(raw)
  {
    ReplaceKeepsAbsent(raw, "+", " ", '%');
    ReplaceRemovesChar(raw, '+', " ");
  }

  /** Without `%` and `+` the reading is the text itself. */
  lemma QueryTextSame(raw: string)
    requires '%' !in raw && '+' !in raw
    ensures QueryText(raw) == raw
  {
    QueryTextPlain(raw);
    ContainsChar(raw, '+');
    ReplaceAbsent(raw, "+", " ");
  }

  function GidOf(url: string): string {
    match FirstParam(Split(QueryOf(url), "&"), "gid")
    case None => "0"
    case Some(g) => g
  }

  /** `ajustar_link_google_sheets(url)`. The sheet id is the text after the
      first `/d/` up to the next `/`; `url.split("/d/")[1].split("/")[0]`
      gives the same text because `/d/` itself begins with `/`. */
  function AdjustSheetsLink(url: string): (r: Adjusted)
    ensures !Contains(url, SheetsMarker) ==> r == Adjusted(SheetsLink(url, None, None))
    ensures r == IndexError <==> Contains(url, SheetsMarker) && !Contains(url, "/d/")
    ensures r.Adjusted? && Contains(url, SheetsMarker) ==>
              r.link.sheetId.Some? && r.link.gid.Some? &&
              r.link.url == ExportUrl(r.link.sheetId.value, r.link.gid.value) &&
              '/' !in r.link.sheetId.value && |r.link.gid.value| > 0
  {
    if !Contains(url, SheetsMarker) then Adjusted(SheetsLink(url, None, None))
    else
      var pieces := SplitOnce(url, "/d/");
      if |pieces| < 2 then IndexError
      else
        var sheetId := SplitOnce(pieces[1], "/")[0];
        assert '/' !in sheetId by {
          ContainsChar(sheetId, '/');
          ContainsChar(pieces[1], '/');
        }
        var gid := GidOf(url);
        Adjusted(SheetsLink(ExportUrl(sheetId, gid), Some(sheetId), Some(gid)))
  }

  /** The sheet id is exactly the segment after the first `/d/`: it is
      followed by a `/` or by the end of the link. */
  lemma SheetIdIsSegment(url: string)
    requires Contains(url, SheetsMarker) && Contains(url, "/d/")
    ensures Find(url, "/d/").Some?
    ensures var i := Find(url, "/d/").value;
            var id := AdjustSheetsLink(url).link.sheetId.value;
            StartsWith(url[i + 3..], id) && '/' !in id &&
            (i + 3 + |id| == |url| || url[i + 3 + |id|] == '/')
  {
    FindContains(url, "/d/");
    var i := Find(url, "/d/").value;
    var rest := url[i + 3..];
    assert SplitOnce(url, "/d/") == [url[..i], rest];
    var id := SplitOnce(rest, "/")[0];
    assert AdjustSheetsLink(url).link.sheetId.value == id;
    FirstPieceEnds(rest, '/');
    assert |id| < |rest| ==> url[i + 3 + |id|] == rest[|id|];
  }

  /** The first piece of a single split is a prefix that the separator or
      the end of the text follows. */
  lemma FirstPieceEnds(s: string, c: char)
    ensures var id := SplitOnce(s, [c])[0];
            StartsWith(s, id) && c !in id && (|id| == |s| || s[|id|] == c)
  {
    var parts := SplitOnce(s, [c]);
    var id := parts[0];
    ContainsChar(id, c);
    if |parts| == 2 {
      assert s == id + [c] + parts[1];
      assert s[..|id|] == id;
    }
  }

  /** The gid is never blank. */
  lemma GidNonBlank(url: string)
    ensures |GidOf(url)| > 0
  {
  }

  /** When the query holds no `%` escape, the gid holds none of the
      characters that would change the meaning of the export link. */
  lemma GidClean(url: string)
    requires '%' !in QueryOf(url)
    ensures var g := GidOf(url); |g| > 0 && '+' !in g && '&' !in g && '#' !in g && '%' !in g
  {
    var before := SplitOnce(url, "#")[0];
    assert '#' !in before by {
      ContainsChar(before, '#');
      ContainsChar(url, '#');
    }
    var query := QueryOf(url);
    assert '#' !in query by {
      var parts := SplitOnce(before, "?");
      if |parts| == 2 {
        assert before == parts[0] + "?" + parts[1];
        assert forall k :: 0 <= k < |parts[1]| ==> parts[1][k] == before[|parts[0]| + 1 + k];
      }
    }
    var fields := Split(query, "&");
    forall k | 0 <= k < |fields| ensures '&' !in fields[k] && '#' !in fields[k] && '%' !in fields[k] {
      SplitPiecesLack(query, '&', k);
      if '#' in fields[k] {
        SplitPieceChars(query, "&", k, '#');
      }
      if '%' in fields[k] {
        SplitPieceChars(query, "&", k, '%');
      }
    }
    FirstParamLacks(fields, "gid", '&');
    FirstParamLacks(fields, "gid", '#');
    FirstParamLacks(fields, "gid", '%');
    FirstParamNoPlus(fields, "gid");
  }

  /** Over fields without `%`, a character that no field holds (other
      than the space that `+` decodes to) is not in the value found. */
  lemma {:induction false} FirstParamLacks(fields: seq<string>, name: string, c: char)
    requires c != ' '
    requires forall k :: 0 <= k < |fields| ==> c !in fields[k] && '%' !in fields[k]
    ensures FirstParam(fields, name).Some? ==> c !in FirstParam(fields, name).value
    decreases |fields|
  {
    if |fields| > 0 {
      var nv := SplitOnce(fields[0], "=");
      if |nv| == 2 && |nv[1]| > 0 && QueryText(nv[0]) == name {
        SplitOnceLacks(fields[0], '=', '%');
        SplitOnceLacks(fields[0], '=', c);
        QueryTextPlain(nv[1]);
        ReplaceKeepsAbsent(nv[1], "+", " ", c);
      } else {
        FirstParamLacks(fields[1..], name, c);
      }
    }
  }

  /** Over fields without `%`, the value found holds no `+`. */
  lemma {:induction false} FirstParamNoPlus(fields: seq<string>, name: string)
    requires forall k :: 0 <= k < |fields| ==> '%' !in fields[k]
    ensures FirstParam(fields, name).Some? ==> '+' !in FirstParam(fields, name).value
    decreases |fields|
  {
    if |fields| > 0 {
      var nv := SplitOnce(fields[0], "=");
      if |nv| == 2 && |nv[1]| > 0 && QueryText(nv[0]) == name {
        SplitOnceLacks(fields[0], '=', '%');
        QueryTextPlain(nv[1]);
      } else {
        FirstParamNoPlus(fields[1..], name);
      }
    }
  }

  /** The query of `head?q` when `head` starts neither a query nor a
      fragment and `q` has no fragment. */
  lemma QueryOfJoined(head: string, q: string)
    requires '?' !in head && '#' !in head && '#' !in q
    ensures QueryOf(head + "?" + q) == q
  {
    var url := head + "?" + q;
    assert '#' !in url;
    ContainsChar(url, '#');
    SplitOnceJoined(head, '?', q);
  }

  /** A `#gid=...` fragment is not part of the query, so a link whose only
      gid is in its fragment exports the first tab. */
  lemma FragmentGidIgnored(address: string, fragment: string)
    requires '#' !in address && '?' !in address
    ensures GidOf(address + "#" + fragment) == "0"
  {
    SplitOnceJoined(address, '#', fragment);
    ContainsChar(address, '?');
    assert QueryOf(address + "#" + fragment) == "";
    SplitNoSep("", '&');
    ContainsChar("", '=');
    assert FirstParam([""], "gid") == FirstParam([], "gid");
  }

  /** Two ways of cutting an export link. */
  lemma ExportShapes(sheetId: string, gid: string)
    ensures ExportUrl(sheetId, gid) == SheetsPrefix + (sheetId + "/" + ("export?" + ExportQuery(gid)))
    ensures ExportUrl(sheetId, gid) == (SheetsPrefix + sheetId + "/export") + "?" + ExportQuery(gid)
  {
    assert "/export?" == "/" + "export?";
    assert "/export?" == "/export" + "?";
  }

  /** The three characters of an occurrence of `/d/`. */
  lemma MarkerChars(s: string, j: int)
    requires OccursAt(s, "/d/", j)
    ensures s[j] == '/' && s[j + 1] == 'd' && s[j + 2] == '/'
  {
    assert s[j..j + 3][0] == s[j] && s[j..j + 3][1] == s[j + 1] && s[j..j + 3][2] == s[j + 2];
  }

  /** No `/d/` starts inside the fixed prefix of an export link before its
      own `/d/`. */
  lemma PrefixHasNoEarlierMarker(rest: string)
    ensures forall j :: 0 <= j < 36 ==> !OccursAt(SheetsPrefix + rest, "/d/", j)
  {
    var s := SheetsPrefix + rest;
    forall j | 0 <= j < 36 && OccursAt(s, "/d/", j) ensures false {
      MarkerChars(s, j);
    }
  }

  /** The first `/d/` of an export link closes its fixed prefix. */
  lemma ExportPrefixFind(rest: string)
    ensures Find(SheetsPrefix + rest, "/d/") == Some(36)
  {
    var s := SheetsPrefix + rest;
    assert OccursAt(s, "/d/", 36) by {
      assert s[36..39] == SheetsPrefix[36..39];
    }
    PrefixHasNoEarlierMarker(rest);
  }

  lemma ExportHasMarker(rest: string)
    ensures Contains(SheetsPrefix + rest, SheetsMarker)
  {
    var s := SheetsPrefix + rest;
    assert s[8..36] == SheetsMarker by {
      assert forall k :: 0 <= k < 28 ==> s[8 + k] == SheetsPrefix[8 + k] == SheetsMarker[k];
    }
    ContainsAt(s, SheetsMarker, 8);
  }

  /** The fields of the export query. */
  lemma ExportFields(gid: string)
    requires '&' !in gid
    ensures Split(ExportQuery(gid), "&") == ["format=csv", "gid=" + gid]
  {
    SplitFirstPiece("format=csv", '&', "gid=" + gid);
    SplitNoSep("gid=" + gid, '&');
  }

  /** A field with another name is passed over. */
  lemma FirstParamSkip(key: string, value: string, rest: seq<string>, name: string)
    requires '=' !in key && '+' !in key && '%' !in key && key != name
    ensures FirstParam([key + "=" + value] + rest, name) == FirstParam(rest, name)
  {
    SplitOnceJoined(key, '=', value);
    QueryTextSame(key);
    assert ([key + "=" + value] + rest)[1..] == rest;
  }

  /** The first field with the name and a non-blank value gives the value,
      read by `QueryText`. */
  lemma FirstParamHit(name: string, value: string, rest: seq<string>)
    requires '=' !in name && '+' !in name && '%' !in name && |value| > 0
    ensures FirstParam([name + "=" + value] + rest, name) == Some(QueryText(value))
  {
    SplitOnceJoined(name, '=', value);
    QueryTextSame(name);
  }

  /** The gid field is found behind the format field. */
  lemma ExportFieldsGid(gid: string)
    requires |gid| > 0
    ensures FirstParam(["format=csv", "gid=" + gid], "gid") == Some(QueryText(gid))
  {
    var rest := ["gid=" + gid];
    FormatFieldSkipped(rest);
    GidFieldHit(gid);
    assert ["format=csv", "gid=" + gid] == ["format=csv"] + rest;
  }

  lemma FormatFieldSkipped(rest: seq<string>)
    ensures FirstParam(["format=csv"] + rest, "gid") == FirstParam(rest, "gid")
  {
    assert "format" + "=" + "csv" == "format=csv";
    FirstParamSkip("format", "csv", rest, "gid");
  }

  lemma GidFieldHit(gid: string)
    requires |gid| > 0
    ensures FirstParam(["gid=" + gid], "gid") == Some(QueryText(gid))
  {
    assert "gid" + "=" == "gid=";
    assert ["gid=" + gid] == ["gid" + "=" + gid] + [];
    FirstParamHit("gid", gid, []);
  }

  /** The gid read back from an export link is the gid it was built with,
      read by `QueryText`: the same text when it holds no `%` and no `+`. */
  lemma ExportGid(sheetId: string, gid: string)
    requires '?' !in sheetId && '#' !in sheetId
    requires |gid| > 0 && '&' !in gid && '#' !in gid
    ensures GidOf(ExportUrl(sheetId, gid)) == QueryText(gid)
    ensures '%' !in gid && '+' !in gid ==> GidOf(ExportUrl(sheetId, gid)) == gid
  {
    var query := QueryOf(ExportUrl(sheetId, gid));
    ExportQueryOf(sheetId, gid);
    ExportFields(gid);
    ExportFieldsGid(gid);
    assert FirstParam(Split(query, "&"), "gid") == Some(QueryText(gid));
    if '%' !in gid && '+' !in gid {
      QueryTextSame(gid);
    }
  }

  /** The query of an export link is the export query. */
  lemma ExportQueryOf(sheetId: string, gid: string)
    requires '?' !in sheetId && '#' !in sheetId && '#' !in gid
    ensures QueryOf(ExportUrl(sheetId, gid)) == ExportQuery(gid)
  {
    var head := SheetsPrefix + sheetId + "/export";
    ExportShapes(sheetId, gid);
    assert '?' !in head && '#' !in head by {
      PrefixNoQuery();
      PrefixNoFragment();
    }
    assert '#' !in ExportQuery(gid);
    QueryOfJoined(head, ExportQuery(gid));
  }

  /** The fixed prefix of an export link starts no query ... */
  lemma PrefixNoQuery()
    ensures '?' !in SheetsPrefix
  {
  }

  /** ... and no fragment. */
  lemma PrefixNoFragment()
    ensures '#' !in SheetsPrefix
  {
  }

  /** The sheet id of an export link is the id it was built with. */
  lemma ExportSheetId(sheetId: string, gid: string)
    requires '/' !in sheetId
    ensures var s := SplitOnce(ExportUrl(sheetId, gid), "/d/");
            |s| == 2 && SplitOnce(s[1], "/")[0] == sheetId
  {
    var tail := sheetId + "/" + ("export?" + ExportQuery(gid));
    ExportShapes(sheetId, gid);
    ExportPrefixFind(tail);
    assert (SheetsPrefix + tail)[39..] == tail;
    SplitOnceJoined(sheetId, '/', "export?" + ExportQuery(gid));
  }

  /** Rewriting is idempotent: an export link is its own export link, as
      long as the sheet id has no `?` or `#` that would start a query or a
      fragment and the query of the link has no `%` escape (the gid is
      unescaped when read but written back as it is; see
      `AdjustNotIdempotent`). */
  lemma AdjustIdempotent(url: string)
    requires Contains(url, SheetsMarker) && Contains(url, "/d/")
    requires var id := AdjustSheetsLink(url).link.sheetId.value; '?' !in id && '#' !in id
    requires '%' !in QueryOf(url)
    ensures AdjustSheetsLink(AdjustSheetsLink(url).link.url) == AdjustSheetsLink(url)
  {
    var link := AdjustSheetsLink(url).link;
    var id, gid := link.sheetId.value, link.gid.value;
    GidClean(url);
    AdjustExport(id, gid);
    QueryTextSame(gid);
  }

  /** Adjusting an export link again keeps its sheet id and reads its gid
      once more through `QueryText`. */
  lemma AdjustExport(sheetId: string, gid: string)
    requires '/' !in sheetId && '?' !in sheetId && '#' !in sheetId
    requires |gid| > 0 && '&' !in gid && '#' !in gid
    ensures var g := QueryText(gid);
            AdjustSheetsLink(ExportUrl(sheetId, gid)) == Adjusted(SheetsLink(ExportUrl(sheetId, g), Some(sheetId), Some(g)))
  {
    ExportShapes(sheetId, gid);
    ExportHasMarker(sheetId + "/" + ("export?" + ExportQuery(gid)));
    ExportSheetId(sheetId, gid);
    ExportGid(sheetId, gid);
  }

  /** A fully escaped text reads back as the text. */
  lemma QueryTextQuote(x: string)
    ensures QueryText(UrlQuote.Quote(x)) == x
  {
    var q := UrlQuote.Quote(x);
    ContainsChar(q, '+');
    ReplaceAbsent(q, "+", " ");
    UrlQuote.UnquoteQuote(x);
  }

  /** The gid is unescaped when read but written into the export link as it
      is, so rewriting is not idempotent once the gid holds an escaped `%`:
      a gid escaped twice comes out escaped once on the first pass and
      plain on the second. */
  lemma AdjustNotIdempotent(sheetId: string, y: string)
    requires '/' !in sheetId && '?' !in sheetId && '#' !in sheetId && |y| > 0
    ensures var url := ExportUrl(sheetId, UrlQuote.Quote(UrlQuote.Quote(y)));
            var r := AdjustSheetsLink(url);
            r.Adjusted? && AdjustSheetsLink(r.link.url) != r
  {
    var once := UrlQuote.Quote(y);
    var twice := UrlQuote.Quote(once);
    QueryTextQuote(once);
    QueryTextQuote(y);
    AdjustExport(sheetId, twice);
    AdjustExport(sheetId, once);
    UrlQuote.QuoteLonger(y);
  }

  // ---------------------------------------------------------------------
  // The collection name of a local file (carregar_csv)
  // ---------------------------------------------------------------------

  /** `caminho_csv.split("/")[-1].replace(".csv", "")` */
  function CollectionName(path: string): (name: string)
    ensures '/' !in name
  {
    var segments := Split(path, "/");
    var last := segments[|segments| - 1];
    assert '/' !in last by {
      SplitPiecesLack(path, '/', |segments| - 1);
    }
    assert '/' !in Replace(last, ".csv", "") by {
      if '/' in Replace(last, ".csv", "") {
        ReplaceChars(last, ".csv", "", '/');
      }
    }
    Replace(last, ".csv", "")
  }

  /** Replacing a pattern whose only occurrence is at the end. */
  lemma {:induction false} ReplaceAtEnd(stem: string, pat: string, rep: string)
    requires |pat| > 0 && pat[0] !in stem
    ensures Replace(stem + pat, pat, rep) == stem + rep
    decreases |stem|
  {
    var s := stem + pat;
    if |stem| == 0 {
      assert s == pat && s[|pat|..] == [];
    } else {
      assert !StartsWith(s, pat) by {
        assert s[0] == stem[0];
      }
      assert s[1..] == stem[1..] + pat;
      ReplaceAtEnd(stem[1..], pat, rep);
    }
  }

  /** A file `dir/stem.csv` whose stem has no `.` and no `/` is imported
      into the collection `stem`. */
  lemma CollectionOfFile(dir: string, stem: string)
    requires '.' !in stem && '/' !in stem
    ensures CollectionName(dir + "/" + stem + ".csv") == stem
  {
    assert '/' !in stem + ".csv";
    assert dir + "/" + stem + ".csv" == dir + ['/'] + (stem + ".csv");
    SplitLastAfter(dir, '/', stem + ".csv");
    ReplaceAtEnd(stem, ".csv", "");
  }

  // ---------------------------------------------------------------------
  // corrigir_encoding_dataframe
  // ---------------------------------------------------------------------

  /** The repair table, in its dictionary order. The fourth key ends in a
      tab character. */
  const Corrections: seq<(string, string)> := [
    ("Sa?a", "Saída"),
    ("SA?DA", "SAIDA"),
    ("Entrada ", "Entrada"),
    ("NÃ£o\t", "Não"),
    ("NÃ£o", "Não")
  ]

  /** The first `k` repairs applied to a text, in table order. */
  function Repaired(s: string, k: nat): string
    requires k <= |Corrections|
  {
    if k == 0 then s
    else Replace(Repaired(s, k - 1), Corrections[k - 1].0, Corrections[k - 1].1)
  }

  function RepairedCell(c: Cell): Cell {
    Str(Repaired(AsText(c), |Corrections|))
  }

  /** The inner loop over the repair table for one column:
      `df[coluna] = df[coluna].astype(str).str.replace(errado, correto)` for
      every entry in turn. */
  method RepairColumn(column: seq<Cell>) returns (fixed: seq<Cell>)
    ensures |fixed| == |column| && forall i :: 0 <= i < |column| ==> fixed[i] == RepairedCell(column[i])
  {
    fixed := column;
    var t := 0;
    while t < |Corrections|
      invariant 0 <= t <= |Corrections| && |fixed| == |column|
      invariant forall i :: 0 <= i < |column| ==>
                  fixed[i] == if t == 0 then column[i] else Str(Repaired(AsText(column[i]), t))
    {
      var (wrong, right) := Corrections[t];
      fixed := seq(|fixed|, i requires 0 <= i < |fixed| => Str(Replace(AsText(fixed[i]), wrong, right)));
      t := t + 1;
    }
  }

  /** `corrigir_encoding_dataframe(df)`: every cell of an object-typed
      column is written as a string and then run through the repair table
      in order; other columns keep their cells. The column dtypes, which
      pandas infers, are given by `objectColumns`. */
  method RepairEncoding(f: Frame, objectColumns: seq<bool>) returns (g: Frame)
    requires Rectangular(f) && |objectColumns| == |f.names|
    ensures Rectangular(g) && g.names == f.names && |g.rows| == |f.rows|
    ensures forall i, j :: 0 <= i < |f.rows| && 0 <= j < |f.names| ==>
              g.rows[i][j] == if objectColumns[j] then RepairedCell(f.rows[i][j]) else f.rows[i][j]
  {
    g := f;
    var j := 0;
    while j < |f.names|
      invariant 0 <= j <= |f.names|
      invariant Rectangular(g) && g.names == f.names && |g.rows| == |f.rows|
      invariant forall i, k {:trigger g.rows[i][k]} :: 0 <= i < |f.rows| && 0 <= k < |f.names| ==>
                  g.rows[i][k] == if k < j && objectColumns[k] then RepairedCell(f.rows[i][k]) else f.rows[i][k]
    {
      if objectColumns[j] {
        var column := RepairColumn(Column(g, j));
        g := WithColumn(g, j, column);
      }
      j := j + 1;
    }
  }

  /** Text that holds none of the broken spellings is left as it is. */
  lemma {:induction false} RepairKeepsCleanText(s: string, k: nat)
    requires k <= |Corrections|
    requires forall t :: 0 <= t < |Corrections| ==> !Contains(s, Corrections[t].0)
    ensures Repaired(s, k) == s
  {
    if k > 0 {
      RepairKeepsCleanText(s, k - 1);
      ReplaceAbsent(s, Corrections[k - 1].0, Corrections[k - 1].1);
    }
  }

  /** Replacing a pattern that occurs only at the very start. */
  lemma ReplaceAtStart(pat: string, tail: string, rep: string)
    requires |pat| > 0 && !Contains(tail, pat)
    ensures Replace(pat + tail, pat, rep) == rep + tail
  {
    var s := pat + tail;
    assert s[..|pat|] == pat && s[|pat|..] == tail;
    ReplaceAbsent(tail, pat, rep);
  }

  /** Table order matters: the tab-terminated spelling is repaired whole,
      where the shorter key alone would leave the tab behind. */
  lemma RepairOrder()
    ensures Repaired("NÃ£o\t", |Corrections|) == "Não"
    ensures Replace("NÃ£o\t", "NÃ£o", "Não") == "Não\t"
  {
    var broken := "NÃ£o\t";
    RepairKeepsPrefix(broken, 3);
    assert Repaired(broken, 4) == "Não" by {
      ReplaceAtEnd([], broken, "Não");
    }
    assert !Contains("Não", "NÃ£o") by {
      ContainsNeedsChar("Não", "NÃ£o", 'Ã');
    }
    ReplaceAbsent("Não", "NÃ£o", "Não");
    assert broken == "NÃ£o" + "\t";
    assert !Contains("\t", "NÃ£o") by {
      ContainsNeedsChar("\t", "NÃ£o", 'N');
    }
    ReplaceAtStart("NÃ£o", "\t", "Não");
  }

  /** The first three keys do not occur in the tab-terminated spelling. */
  lemma {:induction false} RepairKeepsPrefix(s: string, k: nat)
    requires s == "NÃ£o\t" && k <= 3
    ensures Repaired(s, k) == s
  {
    if k > 0 {
      RepairKeepsPrefix(s, k - 1);
      ContainsNeedsChar(s, Corrections[k - 1].0, if k == 3 then 'E' else 'S');
      ReplaceAbsent(s, Corrections[k - 1].0, Corrections[k - 1].1);
    }
  }

  /** The misread `Sa?a` is repaired to `Saída`, which no later key touches. */
  lemma RepairSaida(k: nat)
    requires 1 <= k <= |Corrections|
    ensures Repaired("Sa?a", k) == "Saída"
  {
    assert Repaired("Sa?a", 1) == "Saída" by {
      ReplaceAtEnd([], "Sa?a", "Saída");
    }
    SaidaLacksLaterKeys();
    RepairedStays("Sa?a", "Saída", 1, k);
  }

  lemma SaidaLacksLaterKeys()
    ensures forall j :: 1 <= j < |Corrections| ==> !Contains("Saída", Corrections[j].0)
  {
    ContainsNeedsChar("Saída", Corrections[1].0, 'A');
    ContainsNeedsChar("Saída", Corrections[2].0, 'E');
    ContainsNeedsChar("Saída", Corrections[3].0, 'N');
    ContainsNeedsChar("Saída", Corrections[4].0, 'N');
  }

  /** Once no later key occurs in the text, the later repairs keep it. */
  lemma {:induction false} RepairedStays(s: string, t: string, k0: nat, k: nat)
    requires 1 <= k0 <= k <= |Corrections| && Repaired(s, k0) == t
    requires forall j :: k0 <= j < |Corrections| ==> !Contains(t, Corrections[j].0)
    ensures Repaired(s, k) == t
    decreases k
  {
    if k > k0 {
      RepairedStays(s, t, k0, k - 1);
      ReplaceAbsent(t, Corrections[k - 1].0, Corrections[k - 1].1);
    }
  }

  // ---------------------------------------------------------------------
  // normalizar_dataframe (backend copy)
  // ---------------------------------------------------------------------

  /** `[col.strip().upper() for col in df.columns]` */
  function CleanNames(names: seq<string>): (r: seq<string>)
    ensures |r| == |names| && forall j :: 0 <= j < |names| ==> r[j] == Upper(Strip(names[j]))
  {
    seq(|names|, j requires 0 <= j < |names| => Upper(Strip(names[j])))
  }

  function Occurrences(names: seq<string>, name: string): nat {
    |Grouping.Filter(names, (n: string) => n == name)|
  }

  /** The columns that `pd.to_datetime` converts: "DATA" in the upper-cased
      name. When two columns share the name, `df[col]` is a frame, the call
      raises and the `except` keeps the column as it is. */
  predicate IsDateColumn(names: seq<string>, j: nat)
    requires j < |names|
  {
    Contains(Upper(names[j]), "DATA") && Occurrences(names, names[j]) == 1
  }

  /** A row after the date columns before `upto` are converted. */
  function DatedRow(names: seq<string>, row: seq<Cell>, upto: nat): (r: seq<Cell>)
    requires |row| == |names|
    ensures |r| == |row|
  {
    seq(|row|, k requires 0 <= k < |row| =>
      if k < upto && IsDateColumn(names, k) then ToDate(row[k]) else row[k])
  }

  /** Converting one more column. */
  lemma DatedRowStep(names: seq<string>, row: seq<Cell>, j: nat)
    requires |row| == |names| && j < |names|
    ensures DatedRow(names, row, j + 1) ==
            if IsDateColumn(names, j) then DatedRow(names, row, j)[j := ToDate(row[j])] else DatedRow(names, row, j)
  {
  }

  /** The rows of `normalizar_dataframe`'s result before the last `dropna`. */
  function DatedRows(names: seq<string>, rows: seq<seq<Cell>>): (r: seq<seq<Cell>>)
    requires forall i :: 0 <= i < |rows| ==> |rows[i]| == |names|
    ensures |r| == |rows| && forall i :: 0 <= i < |rows| ==> r[i] == DatedRow(names, rows[i], |names|)
  {
    seq(|rows|, i requires 0 <= i < |rows| => DatedRow(names, rows[i], |names|))
  }

  /** The frame `normalizar_dataframe` returns: names cleaned, rows that hold
      nothing dropped, date columns parsed, and rows that now hold nothing
      dropped again. */
  function Normalized(f: Frame): (g: Frame)
    requires Rectangular(f)
  {
    var names := CleanNames(f.names);
    var kept := DropAllNull(f.rows);
    FilterWidth(f.rows, HasValue, |f.names|);
    Frame(names, DropAllNull(DatedRows(names, kept)))
  }

  /** What `normalizar_dataframe` promises: every column name is stripped and
      upper-cased, the result is as wide as its header, no row is entirely
      missing, and every row is an input row that held a value, with its
      date columns parsed. */
  lemma NormalizedRows(f: Frame)
    requires Rectangular(f)
    ensures var g := Normalized(f);
      Rectangular(g) && |g.names| == |f.names| && |g.rows| <= |f.rows| &&
      (forall j :: 0 <= j < |f.names| ==> g.names[j] == Upper(Strip(f.names[j]))) &&
      forall i :: 0 <= i < |g.rows| ==>
        HasValue(g.rows[i]) &&
        exists s :: s in f.rows && HasValue(s) && g.rows[i] == DatedRow(g.names, s, |g.names|)
  {
    var names := CleanNames(f.names);
    var kept := DropAllNull(f.rows);
    FilterWidth(f.rows, HasValue, |f.names|);
    var dated := DatedRows(names, kept);
    var g := Normalized(f);
    assert g.rows == Grouping.Filter(dated, HasValue);
    forall i | 0 <= i < |g.rows|
      ensures |g.rows[i]| == |g.names| && HasValue(g.rows[i]) &&
              exists s :: s in f.rows && HasValue(s) && g.rows[i] == DatedRow(g.names, s, |g.names|)
    {
      Grouping.FilterMember(dated, HasValue, g.rows[i]);
      var t :| 0 <= t < |dated| && dated[t] == g.rows[i];
      Grouping.FilterMember(f.rows, HasValue, kept[t]);
      assert kept[t] in f.rows && HasValue(kept[t]);
    }
  }

  /** A frame without date columns only loses its empty rows. */
  lemma NormalizedWithoutDates(f: Frame)
    requires Rectangular(f)
    requires forall j :: 0 <= j < |f.names| ==> !IsDateColumn(CleanNames(f.names), j)
    ensures Normalized(f).rows == DropAllNull(f.rows)
  {
    var names := CleanNames(f.names);
    var kept := DropAllNull(f.rows);
    FilterWidth(f.rows, HasValue, |f.names|);
    var dated := DatedRows(names, kept);
    forall i | 0 <= i < |kept| ensures dated[i] == kept[i] {
      assert DatedRow(names, kept[i], |names|) == kept[i];
    }
    assert dated == kept;
    Grouping.FilterKeepsAll(kept, HasValue);
  }

  method NormalizeFrame(f: Frame) returns (g: Frame)
    requires Rectangular(f)
    ensures g == Normalized(f)
  {
    var names := CleanNames(f.names);
    var rows := DropAllNull(f.rows);
    FilterWidth(f.rows, HasValue, |f.names|);
    var converted := rows;
    var j := 0;
    while j < |names|
      invariant 0 <= j <= |names|
      invariant ConvertedUpTo(names, rows, converted, j)
    {
      converted := ConvertColumn(names, rows, converted, j);
      j := j + 1;
    }
    DatedRowsAre(names, rows, converted);
    g := Frame(names, DropAllNull(converted));
  }

  /** The rows once the date columns before `j` are converted. */
  ghost predicate ConvertedUpTo(names: seq<string>, rows: seq<seq<Cell>>, converted: seq<seq<Cell>>, j: nat) {
    |converted| == |rows| &&
    (forall i :: 0 <= i < |rows| ==> |rows[i]| == |names|) &&
    forall i :: 0 <= i < |rows| ==> converted[i] == DatedRow(names, rows[i], j)
  }

  lemma DatedRowsAre(names: seq<string>, rows: seq<seq<Cell>>, converted: seq<seq<Cell>>)
    requires ConvertedUpTo(names, rows, converted, |names|)
    ensures converted == DatedRows(names, rows)
  {
  }

  /** `df[col] = pd.to_datetime(df[col], ...)` for column `j`, when it is a
      date column. */
  method ConvertColumn(names: seq<string>, rows: seq<seq<Cell>>, converted: seq<seq<Cell>>, j: nat)
    returns (next: seq<seq<Cell>>)
    requires j < |names| && ConvertedUpTo(names, rows, converted, j)
    ensures ConvertedUpTo(names, rows, next, j + 1)
  {
    next := converted;
    if IsDateColumn(names, j) {
      next := seq(|converted|, i requires 0 <= i < |converted| => converted[i][j := ToDate(converted[i][j])]);
    }
    forall i | 0 <= i < |rows| ensures next[i] == DatedRow(names, rows[i], j + 1) {
      DatedRowStep(names, rows[i], j);
    }
  }
}
