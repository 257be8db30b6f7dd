/** `executar_analise_completa_fraude` and its report helpers: the five
    detectors run in a fixed order, their findings are concatenated and the
    report tallies them by type and by risk, summarises the high-risk share
    and picks canned recommendations. */
module FraudReport {
  import opened Text
  import opened Records
  import opened Grouping
  import opened FraudFindings
  import opened FraudVolume
  import opened FraudCross
  import opened FraudRates
  import opened FraudInterval
  import opened FraudRepeat

  // ---------------------------------------------------------------------
  // The detectors and their fixed order
  // ---------------------------------------------------------------------

  /** The entries of the `algoritmos` list. */
  datatype Detector = Volume | Cross | Rates | Interval | Repeat

  const Detectors: seq<Detector> := [Volume, Cross, Rates, Interval, Repeat]

  /** The position of a detector in `algoritmos`. */
  function DetectorRank(d: Detector): nat {
    match d
    case Volume => 0
    case Cross => 1
    case Rates => 2
    case Interval => 3
    case Repeat => 4
  }

  /** The position of the detector that emits a finding. */
  function FindingRank(f: Finding): nat {
    match f
    case VolumeAnomaly(_, _, _, _, _, _) => 0
    case AdjustmentAndReturn(_, _, _, _, _, _, _) => 1
    case HighExchangeRate(_, _, _, _) => 2
    case HighCancellationRate(_, _, _, _) => 2
    case ShortInterval(_, _, _, _, _) => 3
    case RepeatCustomer(_, _, _) => 4
    case RepeatProduct(_, _, _) => 4
  }

  /** What the five detectors return, one field per entry of `algoritmos`;
      `order` is the iteration order of the set of SKUs the cross-category
      detector walks. */
  datatype Runs = Runs(volume: seq<Finding>, cross: seq<Finding>, rates: seq<Finding>,
                       interval: seq<Finding>, repeat: seq<Finding>)

  function RunsOf(db: Database, order: seq<string>): Runs {
    Runs(VolumeFindings(db), CrossFindings(db, order), RateFindings(db),
         IntervalFindings(db), RepeatFindings(db))
  }

  /** What detector `d` returned. */
  function Pick(r: Runs, d: Detector): seq<Finding> {
    match d
    case Volume => r.volume
    case Cross => r.cross
    case Rates => r.rates
    case Interval => r.interval
    case Repeat => r.repeat
  }

  function PickOf(r: Runs): Detector -> seq<Finding> {
    d => Pick(r, d)
  }

  /** The detectors' findings concatenated in the order of `algoritmos`. */
  function Concat(r: Runs): seq<Finding> {
    FlatMap(Detectors, PickOf(r))
  }

  /** `todas_suspeitas` after the loop. */
  function AllFindings(db: Database, order: seq<string>): seq<Finding> {
    Concat(RunsOf(db, order))
  }

  /** `funcao_algoritmo()`. Every detector catches its own exceptions and
      returns `[]` for them, so the `except` around the call is never taken. */
  method RunDetector(db: Database, order: seq<string>, d: Detector) returns (findings: seq<Finding>)
    requires Enumerates(order, CommonSkus(db))
    ensures findings == Pick(RunsOf(db, order), d)
  {
    match d
    case Volume => findings := DetectVolumeAnomalies(db);
    case Cross => findings := DetectAdjustmentsWithReturns(db, order);
    case Rates => findings := DetectRateAnomalies(db);
    case Interval => findings := DetectShortIntervals(db);
    case Repeat => findings := DetectRepeats(db);
  }

  /** The loop over `algoritmos`, extending `todas_suspeitas`. */
  method RunDetectors(db: Database, order: seq<string>) returns (all: seq<Finding>)
    requires Enumerates(order, CommonSkus(db))
    ensures all == AllFindings(db, order)
  {
    all := [];
    for i := 0 to |Detectors|
      invariant all == FlatMap(Detectors[..i], PickOf(RunsOf(db, order)))
    {
      var found := RunDetector(db, order, Detectors[i]);
      FlatMapPrefix(Detectors, i, PickOf(RunsOf(db, order)));
      all := all + found;
    }
    assert Detectors[..|Detectors|] == Detectors;
  }

  // ---------------------------------------------------------------------
  // The report
  // ---------------------------------------------------------------------

  /** `dict(Counter(...))`: the labels in order of first appearance and how
      often each occurs. */
  datatype Tally = Tally(labels: seq<string>, counts: map<string, nat>)

  /** The tally of `xs` by `tag`. */
  function TallyOf<T>(xs: seq<T>, tag: T -> string): Tally {
    var ks := Keys(xs, tag);
    Tally(ks, map k | k in ks :: |Members(xs, tag, k)|)
  }

  /** `nivel_risco` as the report reads it. */
  function RiskName(f: Finding): string {
    RiskLabel(RiskOf(f))
  }

  predicate IsHigh(f: Finding) {
    RiskName(f) == "ALTO"
  }

  predicate IsMedium(f: Finding) {
    RiskName(f) == "MÉDIO"
  }

  /** `resumo_executivo`; `percentual_alto_risco` is the exact quotient,
      before `round(..., 2)`. */
  datatype Summary = Summary(total: nat, high: nat, medium: nat, highPercent: real,
                             recommendations: seq<Advice>)

  /** `relatorio` without the clock readings `timestamp_analise` and
      `tempo_analise_segundos`. */
  datatype Report = Report(total: nat, byType: Tally, byRisk: Tally, summary: Summary,
                           details: seq<Finding>, config: Config)

  /** The lines `_gerar_recomendacoes` can append; `AdviceText` is their
      exact wording. */
  datatype Advice = NothingFound | HighRisk | Unbalanced | CrossCheck | ExchangeReview | Cooldown | History

  function AdviceText(a: Advice): string {
    match a
    case NothingFound => " Nenhuma suspeita de fraude detectada. Sistema operando normalmente."
    case HighRisk => "ATENÇÃO: Suspeitas de ALTO RISCO detectadas. Investigação imediata recomendada."
    case Unbalanced => " Revisar processos de controle de estoque para trocas desbalanceadas."
    case CrossCheck => " Implementar validação cruzada entre ajustes de estoque e trocas."
    case ExchangeReview => " Investigar lojas com percentuais anômalos de trocas."
    case Cooldown => "⏰ Implementar cooldown entre movimentações do mesmo produto/usuário."
    case History => " Revisar políticas para clientes e produtos com histórico de problemas."
  }

  /** The type names `_gerar_recomendacoes` tests for that no detector
      emits. */
  const UnbalancedLabel: string := "Trocas com mais saídas que entradas"
  const RepeatCustomerLabel: string := "Cliente reincidente"
  const RepeatProductLabel: string := "Produto reincidente"

  /** `tipos_fraude` */
  function TypesOf(fs: seq<Finding>): set<string> {
    set f | f in fs :: FraudType(f)
  }

  /** `recomendacoes.append(a)` under the test `b`. */
  function When(b: bool, a: Advice): (r: seq<Advice>)
    ensures forall x :: x in r <==> b && x == a
  {
    if b then [a] else []
  }

  /** The list `_gerar_recomendacoes` builds from the outcomes of its
      tests, in the order it makes them. */
  function Advise(none: bool, anyHigh: bool, unbalanced: bool, cross: bool, exchange: bool,
                  interval: bool, repeat: bool): seq<Advice> {
    if none then [NothingFound]
    else
      When(anyHigh, HighRisk) + When(unbalanced, Unbalanced) + When(cross, CrossCheck) +
      When(exchange, ExchangeReview) + When(interval, Cooldown) + When(repeat, History)
  }

  /** `_gerar_recomendacoes` */
  function Recommendations(fs: seq<Finding>): seq<Advice> {
    var types := TypesOf(fs);
    Advise(|fs| == 0, |Filter(fs, IsHigh)| > 0, UnbalancedLabel in types, AdjustmentType in types,
           ExchangeRateType in types, IntervalType in types,
           RepeatCustomerLabel in types || RepeatProductLabel in types)
  }

  /** A line is in the list exactly when its test holds. */
  lemma AdviseMember(none: bool, anyHigh: bool, unbalanced: bool, cross: bool, exchange: bool,
                     interval: bool, repeat: bool, x: Advice)
    ensures x in Advise(none, anyHigh, unbalanced, cross, exchange, interval, repeat) <==>
            if none then x == NothingFound
            else (anyHigh && x == HighRisk) || (unbalanced && x == Unbalanced) ||
                 (cross && x == CrossCheck) || (exchange && x == ExchangeReview) ||
                 (interval && x == Cooldown) || (repeat && x == History)
  {
    assert x in [NothingFound] <==> x == NothingFound;
  }

  /** The ATENÇÃO line, when given, is first. */
  lemma AdviseFirst(unbalanced: bool, cross: bool, exchange: bool, interval: bool, repeat: bool)
    ensures var r := Advise(false, true, unbalanced, cross, exchange, interval, repeat);
            |r| > 0 && r[0] == HighRisk
  {
    var rest := When(unbalanced, Unbalanced) + When(cross, CrossCheck) + When(exchange, ExchangeReview) +
                When(interval, Cooldown) + When(repeat, History);
    assert Advise(false, true, unbalanced, cross, exchange, interval, repeat) == [HighRisk] + rest;
  }

  function Max(a: nat, b: nat): nat {
    if a >= b then a else b
  }

  /** `_gerar_resumo_executivo` */
  function Summarize(fs: seq<Finding>): Summary {
    var high := |Filter(fs, IsHigh)|;
    Summary(|fs|, high, |Filter(fs, IsMedium)|, high as real / Max(|fs|, 1) as real * 100.0,
            Recommendations(fs))
  }

  function ReportOf(fs: seq<Finding>): Report {
    Report(|fs|, TallyOf(fs, FraudType), TallyOf(fs, RiskName), Summarize(fs), fs, Settings)
  }

  /** One `contadores[...] += 1` of a `Counter`, for the element `x` joining
      the elements `kept` already counted. */
  method Bump<T>(ghost kept: seq<T>, x: T, tag: T -> string, labels: seq<string>, counts: map<string, nat>)
    returns (labels': seq<string>, counts': map<string, nat>)
    requires labels == Keys(kept, tag)
    requires forall k :: k in counts <==> k in labels
    requires forall k :: k in counts ==> counts[k] == |Members(kept, tag, k)|
    ensures labels' == Keys(kept + [x], tag)
    ensures forall k :: k in counts' <==> k in labels'
    ensures forall k :: k in counts' ==> counts'[k] == |Members(kept + [x], tag, k)|
  {
    var l := tag(x);
    KeysSnoc(kept, x, tag);
    if l in counts {
      labels' := labels;
      counts' := counts[l := counts[l] + 1];
    } else {
      MembersNonEmpty(kept, tag, l);
      labels' := labels + [l];
      counts' := counts[l := 1];
    }
    forall k | k in counts'
      ensures counts'[k] == |Members(kept + [x], tag, k)|
    {
      MembersSnoc(kept, x, tag, k);
    }
  }

  /** `_agrupar_suspeitas_por_tipo` (with `FraudType`) and
      `_agrupar_suspeitas_por_risco` (with `RiskName`). */
  method CountBy<T>(xs: seq<T>, tag: T -> string) returns (t: Tally)
    ensures t == TallyOf(xs, tag)
  {
    var labels: seq<string> := [];
    var counts: map<string, nat> := map[];
    for i := 0 to |xs|
      invariant labels == Keys(xs[..i], tag)
      invariant forall k :: k in counts <==> k in labels
      invariant forall k :: k in counts ==> counts[k] == |Members(xs[..i], tag, k)|
    {
      assert xs[..i + 1] == xs[..i] + [xs[i]];
      labels, counts := Bump(xs[..i], xs[i], tag, labels, counts);
    }
    assert xs[..|xs|] == xs;
    t := Tally(labels, counts);
  }

  /** `executar_analise_completa_fraude` */
  method AnalyseAll(db: Database, order: seq<string>) returns (report: Report)
    requires Enumerates(order, CommonSkus(db))
    ensures report == ReportOf(AllFindings(db, order))
  {
    var all := RunDetectors(db, order);
    var byType := CountBy(all, FraudType);
    var byRisk := CountBy(all, RiskName);
    report := Report(|all|, byType, byRisk, Summarize(all), all, Settings);
  }

  // ---------------------------------------------------------------------
  // Properties
  // ---------------------------------------------------------------------

  /** In a concatenation over detectors in rank order where everything
      `f(d)` yields comes from `d`, ranks never decrease. */
  lemma {:induction false} FlatMapRanked(ds: seq<Detector>, f: Detector -> seq<Finding>, i: nat, j: nat)
    requires forall d, x :: d in ds && x in f(d) ==> FindingRank(x) == DetectorRank(d)
    requires forall a, b :: 0 <= a < b < |ds| ==> DetectorRank(ds[a]) < DetectorRank(ds[b])
    requires i <= j < |FlatMap(ds, f)|
    ensures FindingRank(FlatMap(ds, f)[i]) <= FindingRank(FlatMap(ds, f)[j])
    decreases |ds|
  {
    var init := ds[..|ds| - 1];
    var last := ds[|ds| - 1];
    var p := FlatMap(init, f);
    assert FlatMap(ds, f) == p + f(last);
    if j < |p| {
      assert forall a, b :: 0 <= a < b < |init| ==> DetectorRank(init[a]) < DetectorRank(init[b]) by {
        forall a, b | 0 <= a < b < |init| ensures DetectorRank(init[a]) < DetectorRank(init[b]) {
          assert init[a] == ds[a] && init[b] == ds[b];
        }
      }
      FlatMapRanked(init, f, i, j);
    } else {
      assert FlatMap(ds, f)[j] in f(last);
      if i < |p| {
        FlatMapMember(init, f, p[i]);
        var d :| d in init && p[i] in f(d);
        var a :| 0 <= a < |init| && init[a] == d;
        assert ds[a] == d;
      } else {
        assert FlatMap(ds, f)[i] in f(last);
      }
    }
  }

  /** Every detector emits only its own kinds of finding. */
  predicate WellRanked(r: Runs) {
    (forall f :: f in r.volume ==> f.VolumeAnomaly?) &&
    (forall f :: f in r.cross ==> f.AdjustmentAndReturn?) &&
    (forall f :: f in r.rates ==> f.HighExchangeRate? || f.HighCancellationRate?) &&
    (forall f :: f in r.interval ==> f.ShortInterval?) &&
    (forall f :: f in r.repeat ==> f.RepeatCustomer? || f.RepeatProduct?)
  }

  lemma RunsRanked(db: Database, order: seq<string>)
    ensures WellRanked(RunsOf(db, order))
  {
    VolumeKinds(db);
    CrossKinds(db, order);
    RateKinds(db);
    IntervalKinds(db);
    RepeatKinds(db);
  }

  /** A detector's rank is its position in `algoritmos`. */
  lemma DetectorsRanked(a: nat)
    requires a < |Detectors|
    ensures DetectorRank(Detectors[a]) == a
  {
    if a == 0 {
    } else if a == 1 {
    } else if a == 2 {
    } else if a == 3 {
    } else {
    }
  }

  /** Concatenating well-ranked runs in the order of `algoritmos` never
      puts a later detector's finding before an earlier one's. */
  lemma ConcatOrder(r: Runs, i: nat, j: nat)
    requires WellRanked(r)
    requires i <= j < |Concat(r)|
    ensures FindingRank(Concat(r)[i]) <= FindingRank(Concat(r)[j])
  {
    forall d, f | d in Detectors && f in PickOf(r)(d) ensures FindingRank(f) == DetectorRank(d) {
    }
    forall a, b | 0 <= a < b < |Detectors| ensures DetectorRank(Detectors[a]) < DetectorRank(Detectors[b]) {
      DetectorsRanked(a);
      DetectorsRanked(b);
    }
    FlatMapRanked(Detectors, PickOf(r), i, j);
  }

  /** The report lists the detectors' findings in the fixed order of
      `algoritmos`: an earlier finding never comes from a later detector. */
  lemma DetectorOrder(db: Database, order: seq<string>, i: nat, j: nat)
    requires i <= j < |AllFindings(db, order)|
    ensures FindingRank(AllFindings(db, order)[i]) <= FindingRank(AllFindings(db, order)[j])
  {
    RunsRanked(db, order);
    ConcatOrder(RunsOf(db, order), i, j);
  }

  /** The sum of a tally's counts, over its labels. */
  function TallySum(labels: seq<string>, counts: map<string, nat>): nat {
    if |labels| == 0 then 0
    else (if labels[0] in counts then counts[labels[0]] else 0) + TallySum(labels[1..], counts)
  }

  lemma {:induction false} TallySumSizes<T>(xs: seq<T>, tag: T -> string, ks: seq<string>)
    requires forall k :: k in ks ==> k in TallyOf(xs, tag).counts
    ensures TallySum(ks, TallyOf(xs, tag).counts) == SumSizes(xs, tag, ks)
    decreases |ks|
  {
    if |ks| > 0 {
      assert forall k :: k in ks[1..] ==> k in ks;
      TallySumSizes(xs, tag, ks[1..]);
    }
  }

  /** The counts of a tally add up to the number of elements tallied; each
      tag is counted as often as it occurs. */
  lemma TallyTotal<T>(xs: seq<T>, tag: T -> string)
    ensures TallySum(TallyOf(xs, tag).labels, TallyOf(xs, tag).counts) == |xs|
    ensures forall k :: k in TallyOf(xs, tag).counts <==> k in TallyOf(xs, tag).labels
    ensures forall k :: k in TallyOf(xs, tag).counts ==>
              TallyOf(xs, tag).counts[k] == |Members(xs, tag, k)| > 0
  {
    var t := TallyOf(xs, tag);
    TallySumSizes(xs, tag, t.labels);
    GroupSizesSum(xs, tag);
    forall k | k in t.counts ensures t.counts[k] > 0 {
      MembersNonEmpty(xs, tag, k);
    }
  }

  /** A filter that picks exactly one group yields that group. */
  lemma {:induction false} FilterGroup<T>(xs: seq<T>, p: T -> bool, tag: T -> string, k: string)
    requires forall x :: p(x) <==> tag(x) == k
    ensures Filter(xs, p) == Members(xs, tag, k)
    decreases |xs|
  {
    if |xs| > 0 {
      FilterGroup(xs[..|xs| - 1], p, tag, k);
    }
  }

  /** A finding is counted as high risk or as medium risk, never both. */
  lemma {:induction false} HighMediumSplit(fs: seq<Finding>)
    ensures |Filter(fs, IsHigh)| + |Filter(fs, IsMedium)| == |fs|
    decreases |fs|
  {
    if |fs| > 0 {
      HighMediumSplit(fs[..|fs| - 1]);
      var f := fs[|fs| - 1];
      assert IsHigh(f) != IsMedium(f) by {
        assert "ALTO" != "MÉDIO" by { assert "ALTO"[0] != "MÉDIO"[0]; }
      }
    }
  }

  /** The summary's high and medium counts are the risk tally's and add up
      to the total. */
  lemma SummaryMatchesTally(fs: seq<Finding>)
    ensures var s := Summarize(fs);
            var t := TallyOf(fs, RiskName);
            s.total == |fs| && s.high + s.medium == s.total &&
            ("ALTO" in t.counts ==> t.counts["ALTO"] == s.high) &&
            ("ALTO" !in t.counts ==> s.high == 0) &&
            ("MÉDIO" in t.counts ==> t.counts["MÉDIO"] == s.medium) &&
            ("MÉDIO" !in t.counts ==> s.medium == 0)
  {
    HighMediumSplit(fs);
    FilterGroup(fs, IsHigh, RiskName, "ALTO");
    FilterGroup(fs, IsMedium, RiskName, "MÉDIO");
    MembersNonEmpty(fs, RiskName, "ALTO");
    MembersNonEmpty(fs, RiskName, "MÉDIO");
  }

  /** `total_suspeitas` equals the sum of `suspeitas_por_tipo`, the sum of
      `suspeitas_por_nivel_risco` and the summary's total, which splits into
      its high and medium counts. */
  lemma ReportTotals(fs: seq<Finding>)
    ensures var r := ReportOf(fs);
            r.total == |fs| == r.summary.total &&
            TallySum(r.byType.labels, r.byType.counts) == r.total &&
            TallySum(r.byRisk.labels, r.byRisk.counts) == r.total &&
            r.summary.high + r.summary.medium == r.total
  {
    var byType, byRisk := TallyOf(fs, FraudType), TallyOf(fs, RiskName);
    assert TallySum(byType.labels, byType.counts) == |fs| by {
      TallyTotal(fs, FraudType);
    }
    assert TallySum(byRisk.labels, byRisk.counts) == |fs| by {
      TallyTotal(fs, RiskName);
    }
    var s := Summarize(fs);
    assert s.total == |fs| && s.high + s.medium == s.total by {
      SummaryMatchesTally(fs);
    }
  }

  /** The risk tally has at most the two labels `ALTO` and `MÉDIO`. */
  lemma RiskLabels(fs: seq<Finding>)
    ensures forall k :: k in TallyOf(fs, RiskName).counts ==> k == "ALTO" || k == "MÉDIO"
  {
    forall k | k in TallyOf(fs, RiskName).counts ensures k == "ALTO" || k == "MÉDIO" {
      assert k in Keys(fs, RiskName);
      var i :| 0 <= i < |fs| && RiskName(fs[i]) == k;
    }
  }

  /** `h / max(n, 1) * 100` for `h <= n` lies in [0, 100], is 0 exactly when
      `h` is, and is 100 exactly when `h` is a non-zero `n`. */
  lemma PercentBounds(h: nat, n: nat)
    requires h <= n
    ensures var p := h as real / Max(n, 1) as real * 100.0;
            0.0 <= p <= 100.0 && (h == 0 <==> p == 0.0) && (n > 0 && h == n <==> p == 100.0)
  {
    var d := Max(n, 1) as real;
    var q := h as real / d;
    assert q * d == h as real;
    assert h as real <= d;
    assert q <= 1.0;
  }

  /** `percentual_alto_risco` lies in [0, 100]: 0 without high-risk findings
      (in particular without findings) and 100 when every finding is high
      risk. */
  lemma HighPercentBounds(fs: seq<Finding>)
    ensures var s := Summarize(fs);
            0.0 <= s.highPercent <= 100.0 &&
            (s.high == 0 <==> s.highPercent == 0.0) &&
            (|fs| > 0 && s.high == |fs| <==> s.highPercent == 100.0)
  {
    PercentBounds(|Filter(fs, IsHigh)|, |fs|);
  }

  /** Without findings the recommendations are exactly the all-clear line;
      with findings that line never appears. */
  lemma NothingFoundAlone(fs: seq<Finding>)
    ensures |fs| == 0 <==> Recommendations(fs) == [NothingFound]
    ensures |fs| > 0 <==> NothingFound !in Recommendations(fs)
  {
    AdviseTests(fs);
  }

  /** Any high-risk finding puts the ATENÇÃO line first; without one it does
      not appear. */
  lemma HighRiskFirst(fs: seq<Finding>)
    ensures (exists f :: f in fs && IsHigh(f)) ==>
              |Recommendations(fs)| > 0 && Recommendations(fs)[0] == HighRisk
    ensures HighRisk in Recommendations(fs) <==> exists f :: f in fs && IsHigh(f)
  {
    var high := Filter(fs, IsHigh);
    if exists f :: f in fs && IsHigh(f) {
      var f :| f in fs && IsHigh(f);
      FilterMember(fs, IsHigh, f);
    }
    if |high| > 0 {
      FilterMember(fs, IsHigh, high[0]);
    }
    AdviseTests(fs);
  }

  lemma AdviseTests(fs: seq<Finding>)
    ensures var types := TypesOf(fs);
            var r := Recommendations(fs);
            (NothingFound in r <==> |fs| == 0) && (|fs| == 0 ==> r == [NothingFound]) &&
            (HighRisk in r <==> |fs| > 0 && |Filter(fs, IsHigh)| > 0) &&
            (|fs| > 0 && |Filter(fs, IsHigh)| > 0 ==> |r| > 0 && r[0] == HighRisk) &&
            (Unbalanced in r <==> |fs| > 0 && UnbalancedLabel in types) &&
            (CrossCheck in r <==> |fs| > 0 && AdjustmentType in types) &&
            (ExchangeReview in r <==> |fs| > 0 && ExchangeRateType in types) &&
            (Cooldown in r <==> |fs| > 0 && IntervalType in types) &&
            (History in r <==> |fs| > 0 && (RepeatCustomerLabel in types || RepeatProductLabel in types))
  {
    var types := TypesOf(fs);
    var none, high, unbalanced, cross := |fs| == 0, |Filter(fs, IsHigh)| > 0, UnbalancedLabel in types, AdjustmentType in types;
    var exchange, interval, repeat := ExchangeRateType in types, IntervalType in types,
                                      RepeatCustomerLabel in types || RepeatProductLabel in types;
    AdviseMember(none, high, unbalanced, cross, exchange, interval, repeat, NothingFound);
    AdviseMember(none, high, unbalanced, cross, exchange, interval, repeat, HighRisk);
    AdviseMember(none, high, unbalanced, cross, exchange, interval, repeat, Unbalanced);
    AdviseMember(none, high, unbalanced, cross, exchange, interval, repeat, CrossCheck);
    AdviseMember(none, high, unbalanced, cross, exchange, interval, repeat, ExchangeReview);
    AdviseMember(none, high, unbalanced, cross, exchange, interval, repeat, Cooldown);
    AdviseMember(none, high, unbalanced, cross, exchange, interval, repeat, History);
    if !none && high {
      AdviseFirst(unbalanced, cross, exchange, interval, repeat);
    }
  }

  /** Which type name each kind of finding carries; none carries the three
      names the dead checks test for. */
  lemma TypeNames(f: Finding)
    ensures FraudType(f) == AdjustmentType <==> f.AdjustmentAndReturn?
    ensures FraudType(f) == ExchangeRateType <==> f.HighExchangeRate?
    ensures FraudType(f) == IntervalType <==> f.ShortInterval?
    ensures FraudType(f) == VolumeType <==> f.VolumeAnomaly?
    ensures FraudType(f) == CustomerType <==> f.RepeatCustomer?
    ensures FraudType(f) == ProductType <==> f.RepeatProduct?
    ensures FraudType(f) != UnbalancedLabel
    ensures FraudType(f) != RepeatCustomerLabel && FraudType(f) != RepeatProductLabel
  {
  }

  /** A finding of kind `p` is reported exactly when type name `t` is among
      `tipos_fraude`, given that `t` names exactly the kind `p`. */
  lemma TypesMember(fs: seq<Finding>, t: string, p: Finding -> bool)
    requires forall f :: FraudType(f) == t <==> p(f)
    ensures t in TypesOf(fs) <==> exists f :: f in fs && p(f)
  {
    if exists f :: f in fs && p(f) {
      var f :| f in fs && p(f);
      assert FraudType(f) in TypesOf(fs);
    }
  }

  predicate NoKind(f: Finding) {
    false
  }

  /** The balance and recidivism recommendations are never given: they test
      type names that differ from those the volume and recidivism detectors
      emit. */
  lemma DeadAdvice(fs: seq<Finding>)
    ensures Unbalanced !in Recommendations(fs)
    ensures History !in Recommendations(fs)
  {
    forall f ensures (FraudType(f) == UnbalancedLabel <==> NoKind(f)) &&
                     (FraudType(f) == RepeatCustomerLabel <==> NoKind(f)) &&
                     (FraudType(f) == RepeatProductLabel <==> NoKind(f)) {
      TypeNames(f);
    }
    TypesMember(fs, UnbalancedLabel, NoKind);
    TypesMember(fs, RepeatCustomerLabel, NoKind);
    TypesMember(fs, RepeatProductLabel, NoKind);
    AdviseTests(fs);
  }

  predicate IsCross(f: Finding) {
    f.AdjustmentAndReturn?
  }

  predicate IsExchangeRate(f: Finding) {
    f.HighExchangeRate?
  }

  predicate IsInterval(f: Finding) {
    f.ShortInterval?
  }

  /** The three live type checks: each recommendation is given exactly when
      a finding of its type is reported. */
  lemma TypeAdvice(fs: seq<Finding>)
    ensures CrossCheck in Recommendations(fs) <==> exists f :: f in fs && f.AdjustmentAndReturn?
    ensures ExchangeReview in Recommendations(fs) <==> exists f :: f in fs && f.HighExchangeRate?
    ensures Cooldown in Recommendations(fs) <==> exists f :: f in fs && f.ShortInterval?
  {
    forall f ensures (FraudType(f) == AdjustmentType <==> IsCross(f)) &&
                     (FraudType(f) == ExchangeRateType <==> IsExchangeRate(f)) &&
                     (FraudType(f) == IntervalType <==> IsInterval(f)) {
      TypeNames(f);
    }
    TypesMember(fs, AdjustmentType, IsCross);
    TypesMember(fs, ExchangeRateType, IsExchangeRate);
    TypesMember(fs, IntervalType, IsInterval);
    AdviseTests(fs);
  }

  predicate IsVolume(f: Finding) {
    f.VolumeAnomaly?
  }

  predicate IsCustomer(f: Finding) {
    f.RepeatCustomer?
  }

  predicate IsProduct(f: Finding) {
    f.RepeatProduct?
  }

  /** The lines other than the balance and history ones do not depend on
      those two tests. */
  lemma AdviseOthers(none: bool, anyHigh: bool, u: bool, u0: bool, cross: bool, exchange: bool,
                     interval: bool, repeat: bool, repeat0: bool, x: Advice)
    requires x != Unbalanced && x != History
    ensures x in Advise(none, anyHigh, u, cross, exchange, interval, repeat) <==>
            x in Advise(none, anyHigh, u0, cross, exchange, interval, repeat0)
  {
    AdviseMember(none, anyHigh, u, cross, exchange, interval, repeat, x);
    AdviseMember(none, anyHigh, u0, cross, exchange, interval, repeat0, x);
  }

  /** The recommendations with the two dead tests aimed at the type names
      the detectors emit: the balance line at the volume detector (the
      method named after exchanges with more outgoing than incoming
      goods), the history line at the two recidivism types, whose names
      begin with the words tested for. */
  function RecommendationsFixed(fs: seq<Finding>): seq<Advice> {
    var types := TypesOf(fs);
    Advise(|fs| == 0, |Filter(fs, IsHigh)| > 0, VolumeType in types, AdjustmentType in types,
           ExchangeRateType in types, IntervalType in types,
           CustomerType in types || ProductType in types)
  }

  /** With the corrected tests the balance line is given exactly when a
      volume anomaly is reported ... */
  lemma FixedBalance(fs: seq<Finding>)
    ensures Unbalanced in RecommendationsFixed(fs) <==> exists f :: f in fs && f.VolumeAnomaly?
  {
    forall f ensures FraudType(f) == VolumeType <==> IsVolume(f) {
      TypeNames(f);
    }
    TypesMember(fs, VolumeType, IsVolume);
    var types := TypesOf(fs);
    AdviseMember(|fs| == 0, |Filter(fs, IsHigh)| > 0, VolumeType in types, AdjustmentType in types,
                 ExchangeRateType in types, IntervalType in types,
                 CustomerType in types || ProductType in types, Unbalanced);
  }

  /** ... the history line exactly when a repeat customer or product is ... */
  lemma FixedHistory(fs: seq<Finding>)
    ensures History in RecommendationsFixed(fs) <==>
            exists f :: f in fs && (f.RepeatCustomer? || f.RepeatProduct?)
  {
    forall f ensures (FraudType(f) == CustomerType <==> IsCustomer(f)) &&
                     (FraudType(f) == ProductType <==> IsProduct(f)) {
      TypeNames(f);
    }
    TypesMember(fs, CustomerType, IsCustomer);
    TypesMember(fs, ProductType, IsProduct);
    var types := TypesOf(fs);
    AdviseMember(|fs| == 0, |Filter(fs, IsHigh)| > 0, VolumeType in types, AdjustmentType in types,
                 ExchangeRateType in types, IntervalType in types,
                 CustomerType in types || ProductType in types, History);
  }

  /** ... and every other line is given as before. */
  lemma FixedOthers(fs: seq<Finding>)
    ensures forall x :: x != Unbalanced && x != History ==>
              (x in RecommendationsFixed(fs) <==> x in Recommendations(fs))
  {
    var types := TypesOf(fs);
    forall x | x != Unbalanced && x != History
      ensures x in RecommendationsFixed(fs) <==> x in Recommendations(fs)
    {
      AdviseOthers(|fs| == 0, |Filter(fs, IsHigh)| > 0, VolumeType in types, UnbalancedLabel in types,
                   AdjustmentType in types, ExchangeRateType in types, IntervalType in types,
                   CustomerType in types || ProductType in types,
                   RepeatCustomerLabel in types || RepeatProductLabel in types, x);
    }
  }
}
