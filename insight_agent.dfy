/** The insight agent's tools: they read the Markdown tables the data
    agent writes, line by line, and turn them into metrics, a summary,
    recommendations and column patterns. */
module InsightAgent {
  import opened Text
  import Dicts
  import PyFloat

  // ---------------------------------------------------------------------
  // Reading table lines
  // ---------------------------------------------------------------------

  /** `line.startswith('|') and '---' not in line and len(line) > 1` */
  predicate IsTableLine(line: string) {
    StartsWith(line, "|") && !Contains(line, "---") && |line| > 1
  }

  /** `xs[1:-1]` */
  function Inner<T>(xs: seq<T>): (r: seq<T>)
    ensures |xs| >= 2 ==> r == xs[1..|xs| - 1]
    ensures |xs| < 2 ==> r == []
  {
    if |xs| < 2 then [] else xs[1..|xs| - 1]
  }

  function StripAll(xs: seq<string>): (r: seq<string>)
    ensures |r| == |xs| && forall j :: 0 <= j < |xs| ==> r[j] == Strip(xs[j])
  {
    seq(|xs|, j requires 0 <= j < |xs| => Strip(xs[j]))
  }

  /** `[v.strip() for v in line.split('|')[1:-1]]`: the cells between the
      outer pipes. */
  function Cells(line: string): seq<string> {
    StripAll(Inner(Split(line, "|")))
  }

  function Lines(context: string): seq<string> {
    Split(context, "\n")
  }

  /** The `if not line.startswith('| ---')` test inside a table can never
      fail: a line that starts that way contains `---` and is not a table
      line in the first place. */
  lemma SeparatorTestDead(line: string)
    requires IsTableLine(line)
    ensures !StartsWith(line, "| ---")
  {
    if StartsWith(line, "| ---") {
      assert line[2..5] == "---" by {
        assert line[..5] == "| ---";
      }
      ContainsAt(line, "---", 2);
    }
  }

  // ---------------------------------------------------------------------
  // extract_key_metrics
  // ---------------------------------------------------------------------

  /** The `metrics` dict. `data_types` maps every classified header to an
      empty list, so only its keys are kept; `unique_values` stays empty. */
  datatype Metrics = Metrics(
    totalRecords: nat,
    columns: seq<string>,
    dataTypes: seq<string>,
    missing: map<string, nat>,
    numeric: seq<string>,
    categorical: seq<string>)

  const NoMetrics := Metrics(0, [], [], map[], [], [])

  /** No list repeats a header, and every header that was counted or
      classified has its `data_types` entry. */
  ghost predicate Good(m: Metrics) {
    Listed(m.dataTypes, m.missing.Keys, m.numeric, m.categorical)
  }

  ghost predicate Listed(dataTypes: seq<string>, missing: set<string>, numeric: seq<string>, categorical: seq<string>) {
    Dicts.Distinct(dataTypes) && Dicts.Distinct(numeric) && Dicts.Distinct(categorical) &&
    (forall h :: h in numeric ==> h in dataTypes) &&
    (forall h :: h in categorical ==> h in dataTypes) &&
    (forall h :: h in missing ==> h in dataTypes)
  }

  lemma NoMetricsGood()
    ensures Good(NoMetrics)
  {
  }

  /** `if x not in xs: xs.append(x)` */
  function AddOnce(xs: seq<string>, x: string): seq<string> {
    if x in xs then xs else xs + [x]
  }

  /** The list afterwards holds `x` and what it held before, in the same
      order, and still repeats nothing when it did not before. */
  lemma AddOnceMeaning(xs: seq<string>, x: string)
    ensures var r := AddOnce(xs, x);
      x in r && (forall y :: y in r <==> y in xs || y == x) &&
      |xs| <= |r| <= |xs| + 1 && r[..|xs|] == xs &&
      (Dicts.Distinct(xs) ==> Dicts.Distinct(r))
  {
  }

  /** `missing_values.get(header, 0)` */
  function Count(d: map<string, nat>, k: string): nat {
    if k in d then d[k] else 0
  }

  const Missing := "N/D"

  /** `value.replace(',', '').replace('%', '')` */
  function NumberText(value: string): string {
    Replace(Replace(value, ",", ""), "%", "")
  }

  /** `float(text)` returns instead of raising `ValueError`. */
  const FloatAccepts: string -> bool := text => PyFloat.ParseFloat(text).Some?

  /** How a cell is classified: missing, a number, or text. */
  datatype Kind = MissingValue | NumberValue | TextValue

  /** The scan below takes the `float` test as a parameter `isFloat`;
      `KeyMetrics` fixes it to `FloatAccepts`, and what is proved about the
      scan holds whichever test it is given. */
  function KindOf(value: string, isFloat: string -> bool): (k: Kind)
    ensures k == MissingValue <==> value == Missing
    ensures k == NumberValue <==> value != Missing && isFloat(NumberText(value))
  {
    if value == Missing then MissingValue
    else if isFloat(NumberText(value)) then NumberValue
    else TextValue
  }

  /** One `(header, value)` pair of a data row, the value being of kind
      `kind`. */
  function ClassifyCell(m: Metrics, header: string, kind: Kind): Metrics {
    var m1 := m.(dataTypes := AddOnce(m.dataTypes, header));
    match kind
    case MissingValue => m1.(missing := m.missing[header := Count(m.missing, header) + 1])
    case NumberValue => m1.(numeric := AddOnce(m.numeric, header))
    case TextValue => m1.(categorical := AddOnce(m.categorical, header))
  }

  /** A pair gets its header a `data_types` entry; an `N/D` value counts
      one missing value for it, any other value lists the header as numeric
      when `float` accepts the value and as categorical otherwise. Nothing
      else changes. */
  lemma ClassifyCellMeaning(m: Metrics, header: string, value: string, isFloat: string -> bool)
    ensures var r := ClassifyCell(m, header, KindOf(value, isFloat));
      r.dataTypes == AddOnce(m.dataTypes, header) &&
      (forall h :: h != header ==> Count(r.missing, h) == Count(m.missing, h)) &&
      (value == Missing ==>
         Count(r.missing, header) == Count(m.missing, header) + 1 &&
         r.numeric == m.numeric && r.categorical == m.categorical) &&
      (value != Missing ==> r.missing == m.missing) &&
      (value != Missing && isFloat(NumberText(value)) ==>
         r.numeric == AddOnce(m.numeric, header) && r.categorical == m.categorical) &&
      (value != Missing && !isFloat(NumberText(value)) ==>
         r.categorical == AddOnce(m.categorical, header) && r.numeric == m.numeric)
  {
  }

  /** The first `n` pairs of `zip(headers, values)`. */
  function ClassifyPairs(m: Metrics, headers: seq<string>, values: seq<string>, n: nat, isFloat: string -> bool): (r: Metrics)
    requires n <= |headers| && n <= |values|
    ensures r.totalRecords == m.totalRecords && r.columns == m.columns
  {
    if n == 0 then m
    else ClassifyCell(ClassifyPairs(m, headers, values, n - 1, isFloat), headers[n - 1], KindOf(values[n - 1], isFloat))
  }

  /** One more pair. */
  lemma PairsNext(m: Metrics, headers: seq<string>, values: seq<string>, n: nat, isFloat: string -> bool)
    requires n < |headers| && n < |values|
    ensures ClassifyPairs(m, headers, values, n + 1, isFloat) == ClassifyCell(ClassifyPairs(m, headers, values, n, isFloat), headers[n], KindOf(values[n], isFloat))
  {
  }

  function Min(a: int, b: int): int {
    if a <= b then a else b
  }

  /** What the scan carries from line to line. */
  datatype Scan = Scan(inTable: bool, headers: seq<string>, metrics: Metrics)

  const Start := Scan(false, [], NoMetrics)

  /** The metrics after a data row: one more record, and its pairs
      classified. */
  function RecordMetrics(s: Scan, values: seq<string>, isFloat: string -> bool): (r: Metrics)
    ensures r.totalRecords == s.metrics.totalRecords + 1 && r.columns == s.metrics.columns
  {
    var m := s.metrics.(totalRecords := s.metrics.totalRecords + 1);
    ClassifyPairs(m, s.headers, values, Min(|s.headers|, |values|), isFloat)
  }

  /** One line of the loop in `extract_key_metrics`. */
  function MetricStep(s: Scan, raw: string, isFloat: string -> bool): Scan {
    var line := Strip(raw);
    if IsTableLine(line) then
      if !s.inTable then
        var headers := Cells(line);
        Scan(true, headers, s.metrics.(columns := headers))
      else if !StartsWith(line, "| ---") then Scan(true, s.headers, RecordMetrics(s, Cells(line), isFloat))
      else s
    else if !StartsWith(line, "|") && s.inTable then s.(inTable := false)
    else s
  }

  /** The scan after the first `n` lines. */
  function MetricsAfter(lines: seq<string>, n: nat, isFloat: string -> bool): Scan
    requires n <= |lines|
  {
    if n == 0 then Start else MetricStep(MetricsAfter(lines, n - 1, isFloat), lines[n - 1], isFloat)
  }

  lemma MetricsAfterNext(lines: seq<string>, k: nat, isFloat: string -> bool)
    requires k < |lines|
    ensures MetricsAfter(lines, k + 1, isFloat) == MetricStep(MetricsAfter(lines, k, isFloat), lines[k], isFloat)
  {
  }

  /** `extract_key_metrics(context)` */
  function KeyMetrics(context: string): Metrics {
    MetricsAfter(Lines(context), |Lines(context)|, FloatAccepts).metrics
  }

  /** A line that contains `---` never changes the metrics: a separator
      row is not counted, and at most such a line closes the table. */
  lemma DashLineNotCounted(s: Scan, raw: string, isFloat: string -> bool)
    requires Contains(Strip(raw), "---")
    ensures MetricStep(s, raw, isFloat).metrics == s.metrics
    ensures StartsWith(Strip(raw), "|") ==> MetricStep(s, raw, isFloat) == s
  {
  }

  /** A line that starts with `|` but is no table line (a separator, or a
      lone `|`) leaves the scan as it is. */
  lemma PipeLineIgnored(s: Scan, raw: string, isFloat: string -> bool)
    requires StartsWith(Strip(raw), "|") && !IsTableLine(Strip(raw))
    ensures MetricStep(s, raw, isFloat) == s
  {
  }

  /** A line that does not start with `|` closes the table and changes
      nothing else. */
  lemma ClosingLine(s: Scan, raw: string, isFloat: string -> bool)
    requires !StartsWith(Strip(raw), "|")
    ensures MetricStep(s, raw, isFloat) == s.(inTable := false)
  {
  }

  /** Outside a table, a table line opens one: its cells become the
      headers and the columns, and nothing is counted. */
  lemma OpeningLine(s: Scan, raw: string, isFloat: string -> bool)
    requires !s.inTable && IsTableLine(Strip(raw))
    ensures var r := MetricStep(s, raw, isFloat);
      r == Scan(true, Cells(Strip(raw)), s.metrics.(columns := Cells(Strip(raw)))) &&
      r.metrics.totalRecords == s.metrics.totalRecords
  {
  }

  /** Inside a table, every table line is one more record, its pairs
      classified under the table's headers. */
  lemma RecordLine(s: Scan, raw: string, isFloat: string -> bool)
    requires s.inTable && IsTableLine(Strip(raw))
    ensures var r := MetricStep(s, raw, isFloat);
      r == Scan(true, s.headers, RecordMetrics(s, Cells(Strip(raw)), isFloat)) &&
      r.metrics.columns == s.metrics.columns && r.metrics.totalRecords == s.metrics.totalRecords + 1
  {
    SeparatorTestDead(Strip(raw));
  }

  /** A header line, a separator line and `k` more table lines. */
  ghost predicate TableShape(lines: seq<string>, k: nat) {
    k + 2 <= |lines| &&
    IsTableLine(Strip(lines[0])) &&
    StartsWith(Strip(lines[1]), "|") && Contains(Strip(lines[1]), "---") &&
    forall i :: 2 <= i < k + 2 ==> IsTableLine(Strip(lines[i]))
  }

  /** The scan is inside a table, with `k` records counted and `columns`
      as the columns. */
  predicate InTable(s: Scan, k: nat, columns: seq<string>) {
    s.inTable && s.metrics.totalRecords == k && s.metrics.columns == columns
  }

  /** Such a table leaves the scan inside the table, with a record
      counted for each line after the separator and the header's cells as
      the columns: after `n` lines, `n - 2` records. */
  lemma {:induction false} TableScan(lines: seq<string>, n: nat, isFloat: string -> bool)
    requires 2 <= n && TableShape(lines, n - 2)
    ensures InTable(MetricsAfter(lines, n, isFloat), n - 2, Cells(Strip(lines[0])))
    decreases n
  {
    if n == 2 {
      TableOpened(lines, isFloat);
    } else {
      TableScan(lines, n - 1, isFloat);
      TableGrows(lines, n, isFloat);
    }
  }

  /** The header line opens the table and the separator is not counted. */
  lemma TableOpened(lines: seq<string>, isFloat: string -> bool)
    requires TableShape(lines, 0)
    ensures InTable(MetricsAfter(lines, 2, isFloat), 0, Cells(Strip(lines[0])))
  {
    MetricsAfterNext(lines, 0, isFloat);
    OpeningLine(Start, lines[0], isFloat);
    MetricsAfterNext(lines, 1, isFloat);
    DashLineNotCounted(MetricsAfter(lines, 1, isFloat), lines[1], isFloat);
  }

  /** Inside the table, line `n - 1` counts one more record. */
  lemma TableGrows(lines: seq<string>, n: nat, isFloat: string -> bool)
    requires 3 <= n && TableShape(lines, n - 2)
    ensures InTable(MetricsAfter(lines, n - 1, isFloat), n - 3, Cells(Strip(lines[0]))) ==>
      InTable(MetricsAfter(lines, n, isFloat), n - 2, Cells(Strip(lines[0])))
  {
    var s := MetricsAfter(lines, n - 1, isFloat);
    if s.inTable {
      assert MetricsAfter(lines, n, isFloat) == MetricStep(s, lines[n - 1], isFloat);
      RecordLine(s, lines[n - 1], isFloat);
    }
  }

  /** A line that does not start with `|` leaves the metrics as they
      are. */
  lemma ClosingStep(lines: seq<string>, n: nat, isFloat: string -> bool)
    requires n < |lines| && !StartsWith(Strip(lines[n]), "|")
    ensures MetricsAfter(lines, n + 1, isFloat).metrics == MetricsAfter(lines, n, isFloat).metrics
  {
    MetricsAfterNext(lines, n, isFloat);
    ClosingLine(MetricsAfter(lines, n, isFloat), lines[n], isFloat);
  }

  lemma ClassifyCellGood(m: Metrics, header: string, kind: Kind)
    ensures Good(m) ==> Good(ClassifyCell(m, header, kind))
  {
    AddOnceMeaning(m.dataTypes, header);
    AddOnceMeaning(m.numeric, header);
    AddOnceMeaning(m.categorical, header);
  }

  lemma {:induction false} ClassifyPairsGood(m: Metrics, headers: seq<string>, values: seq<string>, n: nat, isFloat: string -> bool)
    requires n <= |headers| && n <= |values|
    ensures Good(m) ==> Good(ClassifyPairs(m, headers, values, n, isFloat))
  {
    if n > 0 {
      ClassifyPairsGood(m, headers, values, n - 1, isFloat);
      ClassifyCellGood(ClassifyPairs(m, headers, values, n - 1, isFloat), headers[n - 1], KindOf(values[n - 1], isFloat));
    }
  }

  lemma RecordMetricsGood(s: Scan, values: seq<string>, isFloat: string -> bool)
    ensures Good(s.metrics) ==> Good(RecordMetrics(s, values, isFloat))
  {
    var m := s.metrics.(totalRecords := s.metrics.totalRecords + 1);
    ClassifyPairsGood(m, s.headers, values, Min(|s.headers|, |values|), isFloat);
  }

  lemma MetricStepGood(s: Scan, raw: string, isFloat: string -> bool)
    ensures Good(s.metrics) ==> Good(MetricStep(s, raw, isFloat).metrics)
  {
    var line := Strip(raw);
    if !StartsWith(line, "|") {
      ClosingLine(s, raw, isFloat);
    } else if !IsTableLine(line) {
      PipeLineIgnored(s, raw, isFloat);
    } else if !s.inTable {
      OpeningLine(s, raw, isFloat);
    } else {
      RecordLine(s, raw, isFloat);
      RecordMetricsGood(s, Cells(line), isFloat);
    }
  }

  lemma {:induction false} MetricsAfterGood(lines: seq<string>, n: nat, isFloat: string -> bool)
    requires n <= |lines|
    ensures Good(MetricsAfter(lines, n, isFloat).metrics)
  {
    if n == 0 {
      NoMetricsGood();
    } else {
      MetricsAfterGood(lines, n - 1, isFloat);
      LineGood(lines, n, isFloat);
    }
  }

  /** Line `n - 1` keeps the metrics good. */
  lemma LineGood(lines: seq<string>, n: nat, isFloat: string -> bool)
    requires 0 < n <= |lines|
    ensures Good(MetricsAfter(lines, n - 1, isFloat).metrics) ==> Good(MetricsAfter(lines, n, isFloat).metrics)
  {
    MetricStepGood(MetricsAfter(lines, n - 1, isFloat), lines[n - 1], isFloat);
  }

  /** Whatever the context, the metrics list no header twice, and every
      header listed as numeric, categorical or missing has its
      `data_types` entry. */
  lemma KeyMetricsGood(context: string)
    ensures Good(KeyMetrics(context))
  {
    MetricsAfterGood(Lines(context), |Lines(context)|, FloatAccepts);
  }

  /** `extract_key_metrics`: the loop over the lines; `scan` holds its
      `in_table`, `headers` and `metrics` variables. */
  method ExtractKeyMetrics(context: string) returns (metrics: Metrics)
    ensures metrics == KeyMetrics(context)
  {
    var lines := Split(context, "\n");
    metrics := ScanLines(lines, FloatAccepts);
  }

  /** The loop over the lines; `scan` holds its `in_table`, `headers` and
      `metrics` variables. */
  method ScanLines(lines: seq<string>, isFloat: string -> bool) returns (metrics: Metrics)
    ensures metrics == MetricsAfter(lines, |lines|, isFloat).metrics
  {
    var scan := Start;
    var k := 0;
    while k < |lines|
      invariant 0 <= k <= |lines|
      invariant scan == MetricsAfter(lines, k, isFloat)
    {
      MetricsAfterNext(lines, k, isFloat);
      scan := ReadLine(scan, lines[k], isFloat);
      k := k + 1;
    }
    metrics := scan.metrics;
  }

  /** The body of that loop for one line. */
  method ReadLine(s: Scan, raw: string, isFloat: string -> bool) returns (r: Scan)
    ensures r == MetricStep(s, raw, isFloat)
  {
    r := s;
    var line := Strip(raw);
    if StartsWith(line, "|") && !Contains(line, "---") && |line| > 1 {
      if !s.inTable {
        var headers := Cells(line);
        r := Scan(true, headers, s.metrics.(columns := headers));
        OpeningLine(s, raw, isFloat);
      } else if !StartsWith(line, "| ---") {
        var metrics := s.metrics.(totalRecords := s.metrics.totalRecords + 1);
        var values := Cells(line);
        metrics := ClassifyRow(metrics, s.headers, values, isFloat);
        r := r.(metrics := metrics);
        RecordLine(s, raw, isFloat);
      }
    } else if !StartsWith(line, "|") && s.inTable {
      r := s.(inTable := false);
      ClosingLine(s, raw, isFloat);
    } else if StartsWith(line, "|") {
      PipeLineIgnored(s, raw, isFloat);
    } else {
      ClosingLine(s, raw, isFloat);
    }
  }

  /** The nested loop over `zip(headers, values)`. */
  method ClassifyRow(m: Metrics, headers: seq<string>, values: seq<string>, isFloat: string -> bool) returns (metrics: Metrics)
    ensures metrics == ClassifyPairs(m, headers, values, Min(|headers|, |values|), isFloat)
  {
    metrics := m;
    var n := Min(|headers|, |values|);
    var i := 0;
    while i < n
      invariant 0 <= i <= n <= |headers| && n <= |values|
      invariant metrics == ClassifyPairs(m, headers, values, i, isFloat)
    {
      metrics := ClassifyNext(m, headers, values, i, metrics, isFloat);
      i := i + 1;
    }
  }

  /** Pair `i` of the row, on the metrics of the pairs before it. */
  method ClassifyNext(m: Metrics, headers: seq<string>, values: seq<string>, i: nat, before: Metrics, isFloat: string -> bool) returns (metrics: Metrics)
    requires i < |headers| && i < |values| && before == ClassifyPairs(m, headers, values, i, isFloat)
    ensures metrics == ClassifyPairs(m, headers, values, i + 1, isFloat)
  {
    PairsNext(m, headers, values, i, isFloat);
    metrics := ClassifyOne(before, headers[i], values[i], isFloat);
  }

  /** The body of that loop: the dict and list updates for one pair. */
  method ClassifyOne(m: Metrics, header: string, value: string, isFloat: string -> bool) returns (metrics: Metrics)
    ensures metrics == ClassifyCell(m, header, KindOf(value, isFloat))
  {
    var dataTypes := m.dataTypes;
    if header !in dataTypes {
      dataTypes := dataTypes + [header];
    }
    assert dataTypes == AddOnce(m.dataTypes, header);
    if value == "N/D" {
      var count := if header in m.missing then m.missing[header] else 0;
      metrics := m.(dataTypes := dataTypes, missing := m.missing[header := count + 1]);
    } else if isFloat(Replace(Replace(value, ",", ""), "%", "")) {
      var numeric := m.numeric;
      if header !in numeric {
        numeric := numeric + [header];
      }
      assert numeric == AddOnce(m.numeric, header);
      metrics := m.(dataTypes := dataTypes, numeric := numeric);
    } else {
      var categorical := m.categorical;
      if header !in categorical {
        categorical := categorical + [header];
      }
      assert categorical == AddOnce(m.categorical, header);
      metrics := m.(dataTypes := dataTypes, categorical := categorical);
    }
  }

}
