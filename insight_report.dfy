/** `generate_executive_summary`, `generate_recommendations` and
    `process_insights`: the metrics of the data agent's tables become
    bullet lists, and the three lists one Markdown report. Python's
    `ZeroDivisionError`, the one exception these builders can raise, is
    an explicit outcome. */
module InsightReport {
  import opened Text
  import opened InsightAgent
  import InsightPatterns
  import Dicts

  /** What a builder gives back: its list, or the message of the exception
      it raised. */
  datatype Outcome<T> = Done(value: T) | Raised(message: string)

  /** `str(ZeroDivisionError)` for `int / int`. */
  const DivisionByZero := "division by zero"

  // ---------------------------------------------------------------------
  // The figures both builders use
  // ---------------------------------------------------------------------

  /** `sum(metrics['missing_values'].values())`, added up in the order of
      `data_types`, which lists every key of `missing_values` once. */
  function TotalMissing(m: Metrics): nat {
    MissingOver(m.dataTypes, m.missing)
  }

  function MissingOver(hs: seq<string>, missing: map<string, nat>): nat
    decreases |hs|
  {
    if hs == [] then 0 else MissingOver(hs[..|hs| - 1], missing) + Count(missing, hs[|hs| - 1])
  }

  /** Over a list holding every key once, the sum is positive exactly when
      some header has a missing value counted. */
  lemma {:induction false} MissingOverPositive(hs: seq<string>, missing: map<string, nat>)
    ensures MissingOver(hs, missing) > 0 <==> exists i :: 0 <= i < |hs| && Count(missing, hs[i]) > 0
    decreases |hs|
  {
    if hs != [] {
      var init := hs[..|hs| - 1];
      MissingOverPositive(init, missing);
      if MissingOver(init, missing) > 0 {
        var i :| 0 <= i < |init| && Count(missing, init[i]) > 0;
        assert hs[i] == init[i];
      } else if Count(missing, hs[|hs| - 1]) == 0 {
        forall i | 0 <= i < |hs| ensures Count(missing, hs[i]) == 0 {
          if i < |init| {
            assert hs[i] == init[i];
          }
        }
      }
    }
  }

  /** Whatever the metrics, their missing total is positive exactly when a
      column has a missing value counted. */
  lemma TotalMissingPositive(m: Metrics)
    requires Good(m)
    ensures TotalMissing(m) > 0 <==> exists h :: h in m.missing && m.missing[h] > 0
  {
    MissingOverPositive(m.dataTypes, m.missing);
    if exists h :: h in m.missing && m.missing[h] > 0 {
      var h :| h in m.missing && m.missing[h] > 0;
      var i :| 0 <= i < |m.dataTypes| && m.dataTypes[i] == h;
      assert Count(m.missing, m.dataTypes[i]) > 0;
    }
  }

  /** `total_records * len(columns)`, the divisor of the percentage. */
  function CellCount(m: Metrics): nat {
    m.totalRecords * |m.columns|
  }

  /** Whether the percentage divides by zero. */
  predicate Divides(m: Metrics) {
    TotalMissing(m) > 0 && CellCount(m) == 0
  }

  // ---------------------------------------------------------------------
  // f"{missing_percentage:.1f}"
  // ---------------------------------------------------------------------

  /** `n / d` rounded to the nearest integer, a tie to the even one, as
      `format` rounds the last digit it writes. */
  function RoundHalfEven(n: nat, d: nat): nat
    requires d > 0
  {
    var q := n / d;
    var r := n % d;
    if 2 * r > d || (2 * r == d && q % 2 == 1) then q + 1 else q
  }

  /** No integer is closer to `n / d`, and of two equally close ones the
      even one is taken. */
  lemma Nearest(n: nat, d: nat)
    requires d > 0
    ensures var t := RoundHalfEven(n, d);
      2 * (n - t * d) <= d && 2 * (t * d - n) <= d && (2 * (n % d) == d ==> t % 2 == 0)
  {
    var q, r := n / d, n % d;
    if 2 * r > d || (2 * r == d && q % 2 == 1) {
      assert RoundHalfEven(n, d) == q + 1;
      RoundUp(n, d, q, r);
    } else {
      assert RoundHalfEven(n, d) == q;
      RoundDown(n, d, q, r);
    }
  }

  lemma RoundDown(n: nat, d: nat, q: nat, r: nat)
    requires d > 0 && q == n / d && r == n % d && 2 * r <= d
    ensures 2 * (n - q * d) <= d && 2 * (q * d - n) <= d
  {
  }

  lemma RoundUp(n: nat, d: nat, q: nat, r: nat)
    requires d > 0 && q == n / d && r == n % d && 2 * r >= d
    ensures 2 * (n - (q + 1) * d) <= d && 2 * ((q + 1) * d - n) <= d
  {
    assert (q + 1) * d == q * d + d;
  }

  /** The percentage `100 * total / cells` in tenths. */
  function Tenths(total: nat, cells: nat): nat
    requires cells > 0
  {
    RoundHalfEven(1000 * total, cells)
  }

  /** The percentage with one decimal. */
  function PercentText(total: nat, cells: nat): string
    requires cells > 0
  {
    var t := Tenths(total, cells);
    NatToString(t / 10) + "." + [DigitChar(t % 10)]
  }

  /** The text is a whole number, a point and one digit, and it reads back
      as the percentage in tenths, the closest to `100 * total / cells`. */
  lemma PercentTextReads(total: nat, cells: nat)
    requires cells > 0
    ensures var s := PercentText(total, cells);
      |s| >= 3 && s[|s| - 2] == '.' && AllDigits(s[..|s| - 2]) && IsDigit(s[|s| - 1]) &&
      DigitValue(s[..|s| - 2]) * 10 + (s[|s| - 1] as int - '0' as int) == Tenths(total, cells) &&
      2 * (1000 * total - Tenths(total, cells) * cells) <= cells &&
      2 * (Tenths(total, cells) * cells - 1000 * total) <= cells
  {
    var t := Tenths(total, cells);
    var s := PercentText(total, cells);
    NatToStringValue(t / 10);
    Nearest(1000 * total, cells);
    assert s[..|s| - 2] == NatToString(t / 10);
  }

  // ---------------------------------------------------------------------
  // generate_executive_summary
  // ---------------------------------------------------------------------

  function VolumeLine(records: nat): string {
    "• **Volume de dados**: " + NatToString(records) + " registros"
  }

  function StructureLine(columns: nat): string {
    "• **Estrutura**: " + NatToString(columns) + " colunas"
  }

  function NumericLine(columns: seq<string>): string {
    "• **Colunas numéricas**: " + Join(columns, ", ")
  }

  function CategoricalLine(columns: seq<string>): string {
    "• **Colunas categóricas**: " + Join(columns, ", ")
  }

  function QualityLine(total: nat, cells: nat): string
    requires cells > 0
  {
    "• **Qualidade**: " + PercentText(total, cells) + "% de valores ausentes"
  }

  /** The lines before the quality line. */
  function SummaryHead(m: Metrics): seq<string> {
    [VolumeLine(m.totalRecords), StructureLine(|m.columns|)] +
    (if m.numeric != [] then [NumericLine(m.numeric)] else []) +
    (if m.categorical != [] then [CategoricalLine(m.categorical)] else [])
  }

  /** `generate_executive_summary(metrics)` */
  function Summary(m: Metrics): Outcome<seq<string>> {
    if TotalMissing(m) == 0 then Done(SummaryHead(m))
    else if CellCount(m) == 0 then Raised(DivisionByZero)
    else Done(SummaryHead(m) + [QualityLine(TotalMissing(m), CellCount(m))])
  }

  /** The summary raises exactly when a value is missing and the divisor
      is zero, and then with `division by zero`. Otherwise it opens with
      the volume and the column count, lists the numeric and the
      categorical columns each on one line when there are any, and ends
      with the quality line exactly when a value is missing. */
  lemma SummaryMeaning(m: Metrics)
    ensures Summary(m).Raised? <==> Divides(m)
    ensures Summary(m).Raised? ==> Summary(m).message == DivisionByZero
    ensures Summary(m).Done? ==>
      var s := Summary(m).value;
      |s| == 2 + (if m.numeric != [] then 1 else 0) + (if m.categorical != [] then 1 else 0) +
        (if TotalMissing(m) > 0 then 1 else 0) &&
      s[0] == VolumeLine(m.totalRecords) && s[1] == StructureLine(|m.columns|) &&
      (m.numeric != [] ==> s[2] == NumericLine(m.numeric)) &&
      (TotalMissing(m) > 0 ==> CellCount(m) > 0 && s[|s| - 1] == QualityLine(TotalMissing(m), CellCount(m)))
  {
  }

  /** `generate_executive_summary`: the lines are appended one by one. */
  method ExecutiveSummary(m: Metrics) returns (r: Outcome<seq<string>>)
    ensures r == Summary(m)
  {
    var summary := [];
    summary := summary + [VolumeLine(m.totalRecords)];
    summary := summary + [StructureLine(|m.columns|)];
    if m.numeric != [] {
      summary := summary + [NumericLine(m.numeric)];
    }
    if m.categorical != [] {
      summary := summary + [CategoricalLine(m.categorical)];
    }
    assert summary == SummaryHead(m);
    var totalMissing := TotalMissing(m);
    if totalMissing > 0 {
      var cells := m.totalRecords * |m.columns|;
      if cells == 0 {
        return Raised(DivisionByZero);
      }
      summary := summary + [QualityLine(totalMissing, cells)];
    }
    r := Done(summary);
  }

  // ---------------------------------------------------------------------
  // generate_recommendations
  // ---------------------------------------------------------------------

  /** The recommendations, in the order the builder may append them. */
  datatype Advice =
    | SmallSample | HighVolume
    | CriticalQuality | ModerateQuality
    | Multivariate | Segmentation
    | Temporal | Behaviour

  function Rank(a: Advice): nat {
    match a
    case SmallSample => 0
    case HighVolume => 1
    case CriticalQuality => 2
    case ModerateQuality => 3
    case Multivariate => 4
    case Segmentation => 5
    case Temporal => 6
    case Behaviour => 7
  }

  /** The line each recommendation is written as. */
  function AdviceText(a: Advice): string {
    match a
    case SmallSample => "• **Amostra pequena**: " + "Considere coletar mais dados para análises robustas"
    case HighVolume => "• **Volume alto**: " + "Dados suficientes para análises estatísticas avançadas"
    case CriticalQuality => "• **Qualidade crítica**: " + "Implementar estratégias de limpeza de dados"
    case ModerateQuality => "• **Qualidade moderada**: " + "Considerar técnicas de imputação para valores ausentes"
    case Multivariate => "• **Análise multivariada**: " + "Dados numéricos permitem análises de correlação"
    case Segmentation => "• **Segmentação**: " + "Dados categóricos permitem análises por grupos"
    case Temporal => "• **Análise temporal**: " + "Considerar tendências e sazonalidade nos dados financeiros"
    case Behaviour => "• **Comportamento**: " + "Analisar padrões de comportamento dos clientes"
  }

  /** The length of each line, which tells them apart. */
  function Width(a: Advice): nat {
    match a
    case SmallSample => 74
    case HighVolume => 73
    case CriticalQuality => 68
    case ModerateQuality => 80
    case Multivariate => 75
    case Segmentation => 65
    case Temporal => 82
    case Behaviour => 67
  }

  lemma AdviceWidth(a: Advice)
    ensures |AdviceText(a)| == Width(a)
  {
  }

  /** No two recommendations share a line. */
  lemma AdviceTextInjective(a: Advice, b: Advice)
    ensures AdviceText(a) == AdviceText(b) ==> a == b
  {
    AdviceWidth(a);
    AdviceWidth(b);
  }

  function Texts(v: seq<Advice>): (r: seq<string>)
    ensures |r| == |v|
  {
    seq(|v|, i requires 0 <= i < |v| => AdviceText(v[i]))
  }

  /** `'financeiro' in context.lower() or 'valor' in context.lower()` */
  predicate Financial(context: string) {
    Contains(Lower(context), "financeiro") || Contains(Lower(context), "valor")
  }

  /** `'cliente' in context.lower() or 'usuário' in context.lower()` */
  predicate AboutClients(context: string) {
    Contains(Lower(context), "cliente") || Contains(Lower(context), "usuário")
  }

  /** The test under which the builder appends `a`, given whether the
      context speaks of finance and of clients. The percentage tests
      `> 20` and `> 5` are compared exactly, cross-multiplied; a branch
      reached through `elif` carries the negation of the test before it. */
  predicate Applies(a: Advice, m: Metrics, financial: bool, clients: bool) {
    match a
    case SmallSample => m.totalRecords < 100
    case HighVolume => m.totalRecords > 10000
    case CriticalQuality => TotalMissing(m) > 0 && 5 * TotalMissing(m) > CellCount(m)
    case ModerateQuality =>
      TotalMissing(m) > 0 && 5 * TotalMissing(m) <= CellCount(m) && 20 * TotalMissing(m) > CellCount(m)
    case Multivariate => |m.numeric| >= 2
    case Segmentation => |m.categorical| >= 2
    case Temporal => financial
    case Behaviour => clients
  }

  /** The recommendation of rank `i`. */
  function KindOfRank(i: nat): (a: Advice)
    requires i < 8
    ensures Rank(a) == i
  {
    if i == 0 then SmallSample else if i == 1 then HighVolume
    else if i == 2 then CriticalQuality else if i == 3 then ModerateQuality
    else if i == 4 then Multivariate else if i == 5 then Segmentation
    else if i == 6 then Temporal else Behaviour
  }

  /** The recommendations of rank below `k` whose test holds, in rank
      order. */
  function Selected(m: Metrics, financial: bool, clients: bool, k: nat): seq<Advice>
    requires k <= 8
  {
    if k == 0 then []
    else
      var a := KindOfRank(k - 1);
      Selected(m, financial, clients, k - 1) + (if Applies(a, m, financial, clients) then [a] else [])
  }

  /** The recommendations `generate_recommendations(metrics, context)`
      appends, given whether the context speaks of finance and of
      clients; the quality tests divide by the cell count. */
  function AdvicesFor(m: Metrics, financial: bool, clients: bool): Outcome<seq<Advice>> {
    if Divides(m) then Raised(DivisionByZero) else Done(Selected(m, financial, clients, 8))
  }

  function Advices(m: Metrics, context: string): Outcome<seq<Advice>> {
    AdvicesFor(m, Financial(context), AboutClients(context))
  }

  /** `generate_recommendations(metrics, context)` */
  function Recommendations(m: Metrics, context: string): Outcome<seq<string>> {
    match Advices(m, context)
    case Raised(e) => Raised(e)
    case Done(v) => Done(Texts(v))
  }

  predicate Ordered(v: seq<Advice>) {
    forall i, j :: 0 <= i < j < |v| ==> Rank(v[i]) < Rank(v[j])
  }

  /** A recommendation is selected exactly when its rank is below `k` and
      its test holds, and the selection is in rank order. */
  lemma {:induction false} SelectedMeaning(m: Metrics, financial: bool, clients: bool, k: nat)
    requires k <= 8
    ensures forall a :: a in Selected(m, financial, clients, k) <==> Rank(a) < k && Applies(a, m, financial, clients)
    ensures Ordered(Selected(m, financial, clients, k))
  {
    if k > 0 {
      SelectedMeaning(m, financial, clients, k - 1);
      var init := Selected(m, financial, clients, k - 1);
      var b := KindOfRank(k - 1);
      forall a ensures a in Selected(m, financial, clients, k) <==> Rank(a) < k && Applies(a, m, financial, clients) {
        if Rank(a) == k - 1 {
          RankInjective(a, b);
        }
      }
    }
  }

  lemma RankInjective(a: Advice, b: Advice)
    requires Rank(a) == Rank(b)
    ensures a == b
  {
  }

  /** Which recommendations are given: a small sample below 100 records, a
      high volume above 10000, critical quality above 20% missing,
      moderate quality above 5% and at most 20%, a multivariate analysis
      from two numeric columns, a segmentation from two categorical
      ones, a temporal analysis when the context speaks of finance or
      values, and one on behaviour when it speaks of clients or users;
      they come in the builder's order, so at most one about the volume
      and at most one about quality. The builder raises exactly when the
      percentage divides by zero. */
  lemma AdvicesMeaning(m: Metrics, financial: bool, clients: bool)
    ensures AdvicesFor(m, financial, clients).Raised? <==> Divides(m)
    ensures AdvicesFor(m, financial, clients).Raised? ==> AdvicesFor(m, financial, clients).message == DivisionByZero
    ensures AdvicesFor(m, financial, clients).Done? ==>
      var v := AdvicesFor(m, financial, clients).value;
      var t, d := TotalMissing(m), CellCount(m);
      (SmallSample in v <==> m.totalRecords < 100) &&
      (HighVolume in v <==> m.totalRecords > 10000) &&
      (CriticalQuality in v <==> t > 0 && 5 * t > d) &&
      (ModerateQuality in v <==> t > 0 && 5 * t <= d && 20 * t > d) &&
      (Multivariate in v <==> |m.numeric| >= 2) &&
      (Segmentation in v <==> |m.categorical| >= 2) &&
      (Temporal in v <==> financial) &&
      (Behaviour in v <==> clients) &&
      Ordered(v) && !(SmallSample in v && HighVolume in v) && !(CriticalQuality in v && ModerateQuality in v)
  {
    SelectedMeaning(m, financial, clients, 8);
  }

  /** The lines of recommendations in order: a recommendation's line is
      among them exactly when the recommendation is, and no line repeats. */
  lemma TextsLines(v: seq<Advice>, a: Advice)
    requires Ordered(v)
    ensures AdviceText(a) in Texts(v) <==> a in v
    ensures Dicts.Distinct(Texts(v))
  {
    TextsMember(v, a);
    TextsDistinct(v);
  }

  lemma TextsMember(v: seq<Advice>, a: Advice)
    ensures AdviceText(a) in Texts(v) <==> a in v
  {
    if AdviceText(a) in Texts(v) {
      TextsOnlyOf(v, a);
    }
    if a in v {
      var i :| 0 <= i < |v| && v[i] == a;
      assert Texts(v)[i] == AdviceText(a);
    }
  }

  lemma TextsOnlyOf(v: seq<Advice>, a: Advice)
    requires AdviceText(a) in Texts(v)
    ensures a in v
  {
    var r := Texts(v);
    var i :| 0 <= i < |r| && r[i] == AdviceText(a);
    AdviceTextInjective(v[i], a);
  }

  lemma TextsDistinct(v: seq<Advice>)
    requires Ordered(v)
    ensures Dicts.Distinct(Texts(v))
  {
    var r := Texts(v);
    forall i, j | 0 <= i < j < |r| ensures r[i] != r[j] {
      AdviceTextInjective(v[i], v[j]);
    }
  }

  /** The recommendations come in rank order. */
  lemma AdvicesOrdered(m: Metrics, financial: bool, clients: bool)
    requires AdvicesFor(m, financial, clients).Done?
    ensures Ordered(AdvicesFor(m, financial, clients).value)
  {
    SelectedMeaning(m, financial, clients, 8);
  }

  /** The same facts about the lines `generate_recommendations` returns. */
  lemma RecommendationsLines(m: Metrics, context: string, a: Advice)
    requires Recommendations(m, context).Done?
    ensures AdviceText(a) in Recommendations(m, context).value <==> a in Advices(m, context).value
    ensures Dicts.Distinct(Recommendations(m, context).value)
  {
    var v := Advices(m, context).value;
    assert Recommendations(m, context).value == Texts(v);
    AdvicesOrdered(m, Financial(context), AboutClients(context));
    TextsLines(v, a);
  }

  /** Those of `a` and `b` whose test holds. */
  function Pair(a: Advice, b: Advice, m: Metrics, financial: bool, clients: bool): seq<Advice> {
    (if Applies(a, m, financial, clients) then [a] else []) + (if Applies(b, m, financial, clients) then [b] else [])
  }

  /** The selection grows by the recommendations of ranks `k` and `k + 1`. */
  lemma SelectedTwoMore(m: Metrics, financial: bool, clients: bool, k: nat)
    requires k + 2 <= 8
    ensures Selected(m, financial, clients, k + 2) ==
      Selected(m, financial, clients, k) + Pair(KindOfRank(k), KindOfRank(k + 1), m, financial, clients)
  {
  }

  /** The selection is the four pairs in rank order. */
  lemma SelectedInParts(m: Metrics, financial: bool, clients: bool, p0: seq<Advice>, p1: seq<Advice>, p2: seq<Advice>, p3: seq<Advice>)
    requires p0 == Pair(SmallSample, HighVolume, m, financial, clients)
    requires p1 == Pair(CriticalQuality, ModerateQuality, m, financial, clients)
    requires p2 == Pair(Multivariate, Segmentation, m, financial, clients)
    requires p3 == Pair(Temporal, Behaviour, m, financial, clients)
    ensures Selected(m, financial, clients, 8) == p0 + p1 + p2 + p3
  {
    SelectedTwoMore(m, financial, clients, 0);
    assert Selected(m, financial, clients, 2) == p0;
    SelectedTwoMore(m, financial, clients, 2);
    SelectedTwoMore(m, financial, clients, 4);
    SelectedTwoMore(m, financial, clients, 6);
  }

  lemma VolumePair(m: Metrics, financial: bool, clients: bool)
    ensures Pair(SmallSample, HighVolume, m, financial, clients) ==
      if m.totalRecords < 100 then [SmallSample] else if m.totalRecords > 10000 then [HighVolume] else []
  {
  }

  lemma QualityPair(m: Metrics, financial: bool, clients: bool)
    ensures var t, d := TotalMissing(m), CellCount(m);
      Pair(CriticalQuality, ModerateQuality, m, financial, clients) ==
      if t > 0 && 5 * t > d then [CriticalQuality] else if t > 0 && 20 * t > d then [ModerateQuality] else []
  {
  }

  lemma TypesPair(m: Metrics, financial: bool, clients: bool)
    ensures Pair(Multivariate, Segmentation, m, financial, clients) ==
      (if |m.numeric| >= 2 then [Multivariate] else []) + (if |m.categorical| >= 2 then [Segmentation] else [])
  {
  }

  lemma TopicsPair(m: Metrics, financial: bool, clients: bool)
    ensures Pair(Temporal, Behaviour, m, financial, clients) ==
      (if financial then [Temporal] else []) + (if clients then [Behaviour] else [])
  {
  }

  lemma RecommendationsRaise(m: Metrics, context: string)
    requires Divides(m)
    ensures Recommendations(m, context) == Raised(DivisionByZero)
  {
  }

  lemma RecommendationsOf(m: Metrics, context: string, v: seq<Advice>)
    requires !Divides(m) && v == Selected(m, Financial(context), AboutClients(context), 8)
    ensures Recommendations(m, context) == Done(Texts(v))
  {
  }

  /** The volume part of `generate_recommendations`: at most one of the
      two. */
  method VolumeAdvice(m: Metrics, ghost financial: bool, ghost clients: bool) returns (v: seq<Advice>)
    ensures v == Pair(SmallSample, HighVolume, m, financial, clients)
  {
    v := if m.totalRecords < 100 then [SmallSample]
      else if m.totalRecords > 10000 then [HighVolume] else [];
    VolumePair(m, financial, clients);
  }

  /** The quality part, compared against the share of missing cells. */
  method QualityAdvice(m: Metrics, totalMissing: nat, cells: nat, ghost financial: bool, ghost clients: bool) returns (v: seq<Advice>)
    requires totalMissing == TotalMissing(m) && cells == CellCount(m)
    ensures v == Pair(CriticalQuality, ModerateQuality, m, financial, clients)
  {
    v := if totalMissing > 0 && 5 * totalMissing > cells then [CriticalQuality]
      else if totalMissing > 0 && 20 * totalMissing > cells then [ModerateQuality] else [];
    QualityPair(m, financial, clients);
  }

  /** The column-type part. */
  method TypeAdvice(m: Metrics, ghost financial: bool, ghost clients: bool) returns (v: seq<Advice>)
    ensures v == Pair(Multivariate, Segmentation, m, financial, clients)
  {
    v := (if |m.numeric| >= 2 then [Multivariate] else []) +
      (if |m.categorical| >= 2 then [Segmentation] else []);
    TypesPair(m, financial, clients);
  }

  /** The part that reads the context's topics. */
  method TopicAdvice(m: Metrics, context: string) returns (v: seq<Advice>)
    ensures v == Pair(Temporal, Behaviour, m, Financial(context), AboutClients(context))
  {
    v := (if Financial(context) then [Temporal] else []) +
      (if AboutClients(context) then [Behaviour] else []);
    TopicsPair(m, Financial(context), AboutClients(context));
  }

  /** `generate_recommendations`: the recommendations are appended part by
      part, and their lines are the result. */
  method GenerateRecommendations(m: Metrics, context: string) returns (r: Outcome<seq<string>>)
    ensures r == Recommendations(m, context)
  {
    ghost var financial, clients := Financial(context), AboutClients(context);
    var advice := [];
    var volume := VolumeAdvice(m, financial, clients);
    advice := advice + volume;
    // the percentage of missing cells divides by their number
    var totalMissing := TotalMissing(m);
    var cells := m.totalRecords * |m.columns|;
    if totalMissing > 0 && cells == 0 {
      RecommendationsRaise(m, context);
      return Raised(DivisionByZero);
    }
    var quality := QualityAdvice(m, totalMissing, cells, financial, clients);
    advice := advice + quality;
    var types := TypeAdvice(m, financial, clients);
    advice := advice + types;
    var topics := TopicAdvice(m, context);
    advice := advice + topics;
    SelectedInParts(m, financial, clients, volume, quality, types, topics);
    RecommendationsOf(m, context, advice);
    r := Done(Texts(advice));
  }

  // ---------------------------------------------------------------------
  // process_insights
  // ---------------------------------------------------------------------

  const SummaryHeading := "## Resumo Executivo\n"
  const AdviceHeading := "## Recomendações\n"
  const PatternHeading := "## Padrões Identificados\n"

  function ErrorText(message: string): string {
    "**Erro ao processar insights: " + message + "**"
  }

  /** The response built from the three lists: each section but the first
      is set apart by a blank line. */
  function Report(summary: seq<string>, recommendations: seq<string>, patterns: seq<string>): string {
    SummarySection(summary) + AdviceSection(recommendations) + PatternSection(patterns)
  }

  function SummarySection(summary: seq<string>): string {
    SummaryHeading + Join(summary, "\n")
  }

  function AdviceSection(recommendations: seq<string>): string {
    "\n\n" + AdviceHeading + Join(recommendations, "\n")
  }

  function PatternSection(patterns: seq<string>): string {
    "\n\n" + PatternHeading + Join(patterns, "\n")
  }

  /** `process_insights(context)`: the summary is built first, so its
      exception is the one reported. */
  function Insights(context: string): string {
    var m := KeyMetrics(context);
    match Summary(m)
    case Raised(e) => ErrorText(e)
    case Done(summary) =>
      match Recommendations(m, context)
      case Raised(e) => ErrorText(e)
      case Done(recommendations) => Report(summary, recommendations, InsightPatterns.DataPatterns(context))
  }

  lemma JoinStarts(parts: seq<string>, sep: string)
    requires |parts| >= 2
    ensures StartsWith(Join(parts, sep), parts[0] + sep + parts[1])
  {
    var rest := Join(parts[1..], sep);
    assert StartsWith(rest, parts[1]);
    assert (parts[0] + sep + rest)[..|parts[0] + sep + parts[1]|] == parts[0] + sep + parts[1];
  }

  lemma PrefixOfConcat(x: string, y: string, p: string)
    requires StartsWith(y, p)
    ensures StartsWith(x + y, x + p)
  {
    assert (x + y)[..|x + p|] == x + y[..|p|];
  }

  lemma PrefixExtends(x: string, y: string, p: string)
    requires StartsWith(x, p)
    ensures StartsWith(x + y, p)
  {
    assert (x + y)[..|p|] == x[..|p|];
  }

  lemma Pieces(a: string, b: string, c: string)
    ensures (a + b + c)[|a|..|a| + |b|] == b && (a + b + c)[|a| + |b|..] == c
  {
  }

  /** A report starts with the summary heading and its first two lines,
      and ends with the recommendations section followed by the patterns
      section. */
  lemma ReportSections(summary: seq<string>, recommendations: seq<string>, patterns: seq<string>)
    requires |summary| >= 2
    ensures var out := Report(summary, recommendations, patterns);
      StartsWith(out, SummaryHeading + (summary[0] + "\n" + summary[1])) &&
      exists i, j :: |SummaryHeading| < i < j <= |out| &&
        out[i..j] == AdviceSection(recommendations) && out[j..] == PatternSection(patterns)
  {
    var head, mid, tail := SummarySection(summary), AdviceSection(recommendations), PatternSection(patterns);
    JoinStarts(summary, "\n");
    PrefixOfConcat(SummaryHeading, Join(summary, "\n"), summary[0] + "\n" + summary[1]);
    PrefixExtends(head, mid + tail, SummaryHeading + (summary[0] + "\n" + summary[1]));
    assert head + (mid + tail) == head + mid + tail;
    Pieces(head, mid, tail);
    assert |head| > |SummaryHeading| by {
      assert |Join(summary, "\n")| > 0;
    }
  }

  /** A report and an error line differ in their first character. */
  lemma ReportIsNoError(summary: seq<string>, recommendations: seq<string>, patterns: seq<string>, message: string)
    ensures Report(summary, recommendations, patterns) != ErrorText(message)
  {
    assert Report(summary, recommendations, patterns)[0] == SummaryHeading[0] == '#';
    assert ErrorText(message)[0] == '*';
  }

  /** The report is the error line exactly when a value is missing from
      tables whose last header has no cells (or that have no rows), and
      otherwise three sections in order: the summary, opening with the
      volume and the column count, then the recommendations, then the
      patterns, which end it. */
  lemma InsightsLayout(context: string)
    ensures var m := KeyMetrics(context);
      (Insights(context) == ErrorText(DivisionByZero) <==> Divides(m)) &&
      (!Divides(m) ==>
        var out := Insights(context);
        StartsWith(out, SummaryHeading + (VolumeLine(m.totalRecords) + "\n" + StructureLine(|m.columns|))) &&
        exists i, j :: |SummaryHeading| < i < j <= |out| &&
          out[i..j] == AdviceSection(Recommendations(m, context).value) &&
          out[j..] == PatternSection(InsightPatterns.DataPatterns(context)))
  {
    var m := KeyMetrics(context);
    SummaryMeaning(m);
    AdvicesMeaning(m, Financial(context), AboutClients(context));
    if !Divides(m) {
      var s := Summary(m).value;
      var rs := Recommendations(m, context).value;
      var ps := InsightPatterns.DataPatterns(context);
      ReportSections(s, rs, ps);
      ReportIsNoError(s, rs, ps, DivisionByZero);
    }
  }

  lemma Regroup(a: string, b: string, c: string, d: string, e: string, f: string, g: string, h: string)
    ensures a + b + c + d + e + f + g + h == (a + b) + (c + d + e) + (f + g + h)
  {
  }

  /** `process_insights`: the metrics, the two lists and the patterns, then
      the response extended section by section. */
  method ProcessInsights(context: string) returns (response: string)
    ensures response == Insights(context)
  {
    var metrics := ExtractKeyMetrics(context);
    var summary := ExecutiveSummary(metrics);
    if summary.Raised? {
      return ErrorText(summary.message);
    }
    var recommendations := GenerateRecommendations(metrics, context);
    if recommendations.Raised? {
      return ErrorText(recommendations.message);
    }
    var patterns := InsightPatterns.AnalyzeDataPatterns(context);
    var summaryText, adviceText, patternText := Join(summary.value, "\n"), Join(recommendations.value, "\n"), Join(patterns, "\n");
    response := SummaryHeading;
    response := response + summaryText + "\n\n";
    response := response + AdviceHeading;
    response := response + adviceText + "\n\n";
    response := response + PatternHeading;
    response := response + patternText;
    Regroup(SummaryHeading, summaryText, "\n\n", AdviceHeading, adviceText, "\n\n", PatternHeading, patternText);
  }
}
