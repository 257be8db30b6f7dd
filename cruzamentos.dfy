/** The reconciliation rules of the analysis pipeline: stock against sales
    and list price against sold price, the dispatch that runs them, and the
    summary of their results. Amounts are exact rationals. */
module Cruzamentos {
  import opened Text
  import PyFloat
  import Grouping
  import Dicts

  /** One result dict: `regra`, `sku`, `data`, `valor_base`,
      `valor_comparado`, `score`, `flag`. */
  datatype RuleResult = RuleResult(rule: string, sku: string, date: string,
                                   base: real, compared: real, score: real, flag: bool)

  function Abs(x: real): (a: real)
    ensures a >= 0.0 && (a == x || a == -x)
  {
    if x < 0.0 then -x else x
  }

  // ---------------------------------------------------------------------
  // Column checks shared by the two rules
  // ---------------------------------------------------------------------

  /** `col.lower().replace(' ', '_')` */
  function RuleColumnName(col: string): string {
    Replace(Lower(col), " ", "_")
  }

  /** Every required column is among the renamed columns. */
  predicate HasColumns(names: seq<string>, required: seq<string>) {
    forall k :: 0 <= k < |required| ==> HasColumn(names, required[k])
  }

  /** Some column is `col` once renamed. */
  predicate HasColumn(names: seq<string>, col: string) {
    exists i :: 0 <= i < |names| && RuleColumnName(names[i]) == col
  }

  const StockColumns: seq<string> := ["sku", "data", "estoque_disponivel"]
  const SalesColumns: seq<string> := ["sku", "data", "vendas"]
  const PriceColumns: seq<string> := ["sku", "data", "preco_tabela"]
  const SoldPriceColumns: seq<string> := ["sku", "data", "preco_vendido"]

  /** A column missing from either frame makes a rule return `[]`. */
  lemma MissingColumn(names: seq<string>, required: seq<string>, k: nat)
    requires k < |required| && forall i :: 0 <= i < |names| ==> RuleColumnName(names[i]) != required[k]
    ensures !HasColumns(names, required)
  {
    assert !HasColumn(names, required[k]);
  }

  // ---------------------------------------------------------------------
  // regra_estoque_vs_vendas
  // ---------------------------------------------------------------------

  /** One row of the inner merge of the per-(sku, month) sums. */
  datatype StockSales = StockSales(sku: string, period: string, stock: real, sales: real)

  /** The severity score of `estoque` against `vendas`. */
  function StockScore(stock: real, sales: real): (score: real)
    ensures stock > 0.0 ==> score * stock == sales - stock
    ensures stock <= 0.0 ==> score == if sales == 0.0 then 0.0 else 1.0
  {
    if stock > 0.0 then (sales - stock) / stock
    else if sales == 0.0 then 0.0 else 1.0
  }

  function StockResult(m: StockSales): (r: RuleResult)
    ensures r.rule == "estoque_vs_vendas" && r.sku == m.sku && r.date == m.period
    ensures r.base == m.stock && r.compared == m.sales && r.score == StockScore(m.stock, m.sales)
    ensures r.flag <==> m.sales > m.stock
  {
    RuleResult("estoque_vs_vendas", m.sku, m.period, m.stock, m.sales,
               StockScore(m.stock, m.sales), m.sales > m.stock)
  }

  /** With stock on hand the score is positive exactly when the row is
      flagged, and never below -1 for non-negative sales. */
  lemma StockScoreMeaning(stock: real, sales: real)
    requires stock > 0.0
    ensures StockScore(stock, sales) > 0.0 <==> sales > stock
    ensures StockScore(stock, sales) == 0.0 <==> sales == stock
    ensures sales >= 0.0 ==> StockScore(stock, sales) >= -1.0
  {
    var score := StockScore(stock, sales);
    if score > 0.0 {
      assert score * stock > 0.0;
    }
    if sales > stock {
      assert score * stock > 0.0;
    }
    if sales >= 0.0 {
      assert (score + 1.0) * stock == sales;
      if score < -1.0 {
        assert (score + 1.0) * stock < 0.0;
      }
    }
  }

  /** Without stock, any sale scores 1 even though negative stock can
      leave the row unflagged. */
  lemma NoStockScore(stock: real, sales: real)
    requires stock <= 0.0 && sales != 0.0 && sales <= stock
    ensures StockScore(stock, sales) == 1.0 && !StockResult(StockSales("", "", stock, sales)).flag
  {
  }

  /** The rule's results for the merged rows. */
  function StockResults(stockNames: seq<string>, salesNames: seq<string>, merged: seq<StockSales>): (r: seq<RuleResult>)
    ensures !(HasColumns(stockNames, StockColumns) && HasColumns(salesNames, SalesColumns)) ==> r == []
    ensures HasColumns(stockNames, StockColumns) && HasColumns(salesNames, SalesColumns) ==>
              |r| == |merged| && forall i :: 0 <= i < |merged| ==> r[i] == StockResult(merged[i])
  {
    if HasColumns(stockNames, StockColumns) && HasColumns(salesNames, SalesColumns) then
      seq(|merged|, i requires 0 <= i < |merged| => StockResult(merged[i]))
    else []
  }

  /** `regra_estoque_vs_vendas` from the renamed columns on: the column
      checks, then one result per merged row, in order. */
  method StockVsSales(stockNames: seq<string>, salesNames: seq<string>, merged: seq<StockSales>)
    returns (results: seq<RuleResult>)
    ensures results == StockResults(stockNames, salesNames, merged)
  {
    if !(HasColumns(stockNames, StockColumns) && HasColumns(salesNames, SalesColumns)) {
      return [];
    }
    if |merged| == 0 {
      return [];
    }
    results := [];
    var i := 0;
    while i < |merged|
      invariant 0 <= i <= |merged| && |results| == i
      invariant forall j :: 0 <= j < i ==> results[j] == StockResult(merged[j])
    {
      results := results + [StockResult(merged[i])];
      i := i + 1;
    }
  }

  // ---------------------------------------------------------------------
  // regra_divergencia_preco
  // ---------------------------------------------------------------------

  /** One row of the inner merge on (sku, date); `None` is a missing price. */
  datatype PriceSale = PriceSale(sku: string, date: string, listPrice: Option<real>, soldPrice: Option<real>)

  /** A row that is not skipped: both prices present and a non-zero list price. */
  predicate Scorable(m: PriceSale) {
    m.listPrice.Some? && m.soldPrice.Some? && m.listPrice.value != 0.0
  }

  /** `abs(delta) > threshold` for the float the threshold parsed to. */
  predicate Exceeds(delta: real, threshold: PyFloat.FloatVal) {
    match threshold
    case Finite(t) => Abs(delta) > t
    case Infinite(negative) => negative
    case NaN => false
  }

  function DivergenceResult(m: PriceSale, threshold: PyFloat.FloatVal): (r: RuleResult)
    requires Scorable(m)
    ensures r.rule == "divergencia_preco" && r.sku == m.sku && r.date == m.date
    ensures r.base == m.listPrice.value && r.compared == m.soldPrice.value
    ensures r.score * r.base == (r.compared - r.base) * 100.0
    ensures r.flag <==> Exceeds(r.score, threshold)
  {
    var list := m.listPrice.value;
    var sold := m.soldPrice.value;
    var delta := (sold - list) / list * 100.0;
    RuleResult("divergencia_preco", m.sku, m.date, list, sold, delta, Exceeds(delta, threshold))
  }

  /** With a finite threshold, a row is flagged exactly when the price gap
      exceeds that percentage of the list price. */
  lemma DivergenceCrossMultiplied(m: PriceSale, t: real)
    requires Scorable(m)
    ensures DivergenceResult(m, PyFloat.Finite(t)).flag <==>
              Abs(m.soldPrice.value - m.listPrice.value) * 100.0 > t * Abs(m.listPrice.value)
  {
    var list := m.listPrice.value;
    var gap := m.soldPrice.value - list;
    var score := DivergenceResult(m, PyFloat.Finite(t)).score;
    assert score * list == gap * 100.0;
    assert Abs(score) * Abs(list) == Abs(gap) * 100.0 by {
      if list < 0.0 && score < 0.0 { assert Abs(score) * Abs(list) == score * list; }
      if list < 0.0 && score >= 0.0 { assert Abs(score) * Abs(list) == -(score * list); }
      if list > 0.0 && score < 0.0 { assert Abs(score) * Abs(list) == -(score * list); }
    }
    if Abs(score) > t {
      assert Abs(score) * Abs(list) > t * Abs(list);
    } else {
      assert Abs(score) * Abs(list) <= t * Abs(list);
    }
  }

  /** The results of the loop: skipped rows leave nothing. */
  function Divergences(merged: seq<PriceSale>, threshold: PyFloat.FloatVal): (r: seq<RuleResult>)
    ensures |r| == Grouping.CountWhere(merged, Scorable)
    decreases |merged|
  {
    if |merged| == 0 then []
    else
      var last := merged[|merged| - 1];
      Divergences(merged[..|merged| - 1], threshold) + (if Scorable(last) then [DivergenceResult(last, threshold)] else [])
  }

  /** Every result comes from a scorable merged row, in order. */
  lemma {:induction false} DivergencesFromRows(merged: seq<PriceSale>, threshold: PyFloat.FloatVal, k: nat)
    requires k < |Divergences(merged, threshold)|
    ensures exists i :: 0 <= i < |merged| && Scorable(merged[i]) &&
              Divergences(merged, threshold)[k] == DivergenceResult(merged[i], threshold)
    decreases |merged|
  {
    var init := merged[..|merged| - 1];
    var before := Divergences(init, threshold);
    if k < |before| {
      DivergencesFromRows(init, threshold, k);
      var i :| 0 <= i < |init| && Scorable(init[i]) && before[k] == DivergenceResult(init[i], threshold);
      assert merged[i] == init[i];
    } else {
      assert Scorable(merged[|merged| - 1]);
    }
  }

  /** With a NaN threshold nothing is flagged. */
  lemma NaNThresholdFlagsNothing(merged: seq<PriceSale>)
    ensures forall k :: 0 <= k < |Divergences(merged, PyFloat.NaN)| ==> !Divergences(merged, PyFloat.NaN)[k].flag
  {
    forall k | 0 <= k < |Divergences(merged, PyFloat.NaN)| ensures !Divergences(merged, PyFloat.NaN)[k].flag {
      DivergencesFromRows(merged, PyFloat.NaN, k);
    }
  }

  /** `float(os.getenv('PRECO_DIVERGENCIA_THRESHOLD', 10.0))`, falling back to
      10.0 when the text does not parse. */
  function Threshold(env: Option<string>): (t: PyFloat.FloatVal)
    ensures env.None? ==> t == PyFloat.Finite(10.0)
    ensures env.Some? && PyFloat.ParseFloat(env.value).None? ==> t == PyFloat.Finite(10.0)
    ensures env.Some? && PyFloat.ParseFloat(env.value).Some? ==> t == PyFloat.ParseFloat(env.value).value
  {
    match env
    case None => PyFloat.Finite(10.0)
    case Some(text) =>
      match PyFloat.ParseFloat(text)
      case Some(v) => v
      case None => PyFloat.Finite(10.0)
  }

  function PriceResults(priceNames: seq<string>, salesNames: seq<string>, merged: seq<PriceSale>,
                        threshold: PyFloat.FloatVal): (r: seq<RuleResult>)
    ensures !(HasColumns(priceNames, PriceColumns) && HasColumns(salesNames, SoldPriceColumns)) ==> r == []
    ensures HasColumns(priceNames, PriceColumns) && HasColumns(salesNames, SoldPriceColumns) ==>
              r == Divergences(merged, threshold)
  {
    if HasColumns(priceNames, PriceColumns) && HasColumns(salesNames, SoldPriceColumns) then
      Divergences(merged, threshold)
    else []
  }

  /** `regra_divergencia_preco` from the renamed columns on. */
  method PriceDivergence(priceNames: seq<string>, salesNames: seq<string>, merged: seq<PriceSale>,
                         threshold: PyFloat.FloatVal) returns (results: seq<RuleResult>)
    ensures results == PriceResults(priceNames, salesNames, merged, threshold)
  {
    if !(HasColumns(priceNames, PriceColumns) && HasColumns(salesNames, SoldPriceColumns)) {
      return [];
    }
    if |merged| == 0 {
      return [];
    }
    results := [];
    var i := 0;
    while i < |merged|
      invariant 0 <= i <= |merged|
      invariant results == Divergences(merged[..i], threshold)
    {
      var row := merged[i];
      assert merged[..i + 1][..i] == merged[..i];
      if !Scorable(row) {
        i := i + 1;
        continue;
      }
      results := results + [DivergenceResult(row, threshold)];
      i := i + 1;
    }
    assert merged[..i] == merged;
  }

  // ---------------------------------------------------------------------
  // executar_regras_cruzamento
  // ---------------------------------------------------------------------

  /** The inputs rule 1 reads once its tables are found. */
  datatype StockInput = StockInput(stockNames: seq<string>, salesNames: seq<string>, merged: seq<StockSales>)

  datatype PriceInput = PriceInput(priceNames: seq<string>, salesNames: seq<string>, merged: seq<PriceSale>)

  predicate RunsStockRule(datasets: set<string>, tablesExist: bool) {
    "estoque_id" in datasets && "vendas_id" in datasets && tablesExist
  }

  predicate RunsPriceRule(datasets: set<string>, tablesExist: bool) {
    "precos_id" in datasets && "vendas_id" in datasets && tablesExist
  }

  /** The rules that apply, rule 1's results before rule 2's. `datasets`
      is the set of keys given; whether the cleaned tables exist is an
      input. */
  method ExecuteRules(datasets: set<string>, stockTables: bool, priceTables: bool,
                      stock: StockInput, price: PriceInput, threshold: PyFloat.FloatVal)
    returns (results: seq<RuleResult>)
    ensures results ==
      (if RunsStockRule(datasets, stockTables) then StockResults(stock.stockNames, stock.salesNames, stock.merged) else []) +
      (if RunsPriceRule(datasets, priceTables) then PriceResults(price.priceNames, price.salesNames, price.merged, threshold) else [])
  {
    results := [];
    if "estoque_id" in datasets && "vendas_id" in datasets {
      if stockTables {
        var r := StockVsSales(stock.stockNames, stock.salesNames, stock.merged);
        results := results + r;
      }
    }
    if "precos_id" in datasets && "vendas_id" in datasets {
      if priceTables {
        var r := PriceDivergence(price.priceNames, price.salesNames, price.merged, threshold);
        results := results + r;
      }
    }
  }

  /** Without `vendas_id` no rule runs. */
  lemma NoSalesNoRules(datasets: set<string>, stockTables: bool, priceTables: bool)
    requires "vendas_id" !in datasets
    ensures !RunsStockRule(datasets, stockTables) && !RunsPriceRule(datasets, priceTables)
  {
  }

  // ---------------------------------------------------------------------
  // gerar_resumo_analise: counts per rule
  // ---------------------------------------------------------------------

  function RuleIs(rule: string): RuleResult -> bool {
    (r: RuleResult) => r.rule == rule
  }

  /** `contagem_por_regra[regra] = contagem_por_regra.get(regra, 0) + 1`
      over the results. */
  function CountsByRule(results: seq<RuleResult>): (d: Dicts.Dict<nat>)
    ensures Dicts.WellFormed(d)
    decreases |results|
  {
    if |results| == 0 then Dicts.Empty()
    else
      var d := CountsByRule(results[..|results| - 1]);
      var rule := results[|results| - 1].rule;
      Dicts.Put(d, rule, (if rule in d.entries then d.entries[rule] else 0) + 1)
  }

  /** Each rule present counts its results; a rule with none is absent. */
  lemma {:induction false} CountsByRuleCount(results: seq<RuleResult>, rule: string)
    ensures rule in CountsByRule(results).entries <==> Grouping.CountWhere(results, RuleIs(rule)) > 0
    ensures rule in CountsByRule(results).entries ==>
              CountsByRule(results).entries[rule] == Grouping.CountWhere(results, RuleIs(rule))
    decreases |results|
  {
    if |results| > 0 {
      CountsByRuleCount(results[..|results| - 1], rule);
    }
  }

  /** The sum of the values over the keys `ks`. */
  function SumOver(ks: seq<string>, entries: map<string, nat>): nat
    decreases |ks|
  {
    if |ks| == 0 then 0
    else (if ks[|ks| - 1] in entries then entries[ks[|ks| - 1]] else 0) + SumOver(ks[..|ks| - 1], entries)
  }

  /** Raising the value of one key of a distinct list raises the sum alike. */
  lemma {:induction false} SumOverBump(ks: seq<string>, entries: map<string, nat>, k: string, v: nat)
    requires Dicts.Distinct(ks) && k in ks && k in entries
    ensures SumOver(ks, entries[k := v]) == SumOver(ks, entries) - entries[k] + v
    decreases |ks|
  {
    var init := ks[..|ks| - 1];
    if ks[|ks| - 1] == k {
      assert k !in init;
      SumOverUntouched(init, entries, k, v);
    } else {
      assert k in init;
      SumOverBump(init, entries, k, v);
    }
  }

  lemma {:induction false} SumOverUntouched(ks: seq<string>, entries: map<string, nat>, k: string, v: nat)
    requires k !in ks
    ensures SumOver(ks, entries[k := v]) == SumOver(ks, entries)
    decreases |ks|
  {
    if |ks| > 0 {
      SumOverUntouched(ks[..|ks| - 1], entries, k, v);
    }
  }

  /** Setting one key of a dictionary moves the sum of its values by the
      difference. */
  lemma SumOverPut(d: Dicts.Dict<nat>, k: string, v: nat)
    requires Dicts.WellFormed(d)
    ensures var r := Dicts.Put(d, k, v);
      SumOver(r.order, r.entries) + (if k in d.entries then d.entries[k] else 0) == SumOver(d.order, d.entries) + v
  {
    var r := Dicts.Put(d, k, v);
    if k in d.entries {
      SumOverBump(d.order, d.entries, k, v);
    } else {
      SumOverUntouched(d.order, d.entries, k, v);
      assert r.order == d.order + [k];
      assert r.order[..|d.order|] == d.order;
    }
  }

  /** The counts add up to the number of results. */
  lemma {:induction false} CountsSum(results: seq<RuleResult>)
    ensures SumOver(CountsByRule(results).order, CountsByRule(results).entries) == |results|
    decreases |results|
  {
    if |results| > 0 {
      var init := results[..|results| - 1];
      var d := CountsByRule(init);
      var rule := results[|results| - 1].rule;
      var v := (if rule in d.entries then d.entries[rule] else 0) + 1;
      assert CountsByRule(results) == Dicts.Put(d, rule, v);
      CountsSum(init);
      SumOverPut(d, rule, v);
    }
  }

  // ---------------------------------------------------------------------
  // gerar_resumo_analise: the ten largest scores
  // ---------------------------------------------------------------------

  function Magnitude(r: RuleResult): real {
    Abs(r.score)
  }

  /** Largest magnitude first. */
  ghost predicate Descending(s: seq<RuleResult>) {
    forall i, j :: 0 <= i < j < |s| ==> Magnitude(s[i]) >= Magnitude(s[j])
  }

  /** `x` placed after every element whose magnitude is at least its own. */
  function InsertDescending(s: seq<RuleResult>, x: RuleResult): (r: seq<RuleResult>)
    ensures |r| == |s| + 1
    decreases |s|
  {
    if |s| == 0 || Magnitude(s[|s| - 1]) >= Magnitude(x) then s + [x]
    else InsertDescending(s[..|s| - 1], x) + [s[|s| - 1]]
  }

  /** `sorted(results, key=lambda x: abs(x['score']), reverse=True)`. */
  function SortByMagnitude(xs: seq<RuleResult>): (r: seq<RuleResult>)
    ensures |r| == |xs|
    decreases |xs|
  {
    if |xs| == 0 then []
    else InsertDescending(SortByMagnitude(xs[..|xs| - 1]), xs[|xs| - 1])
  }

  lemma {:induction false} InsertDescendingPermutes(s: seq<RuleResult>, x: RuleResult)
    ensures multiset(InsertDescending(s, x)) == multiset(s) + multiset{x}
    decreases |s|
  {
    if |s| > 0 && Magnitude(s[|s| - 1]) < Magnitude(x) {
      var p := s[..|s| - 1];
      assert s == p + [s[|s| - 1]];
      InsertDescendingPermutes(p, x);
    }
  }

  /** The sort permutes its input. */
  lemma {:induction false} SortByMagnitudePermutes(xs: seq<RuleResult>)
    ensures multiset(SortByMagnitude(xs)) == multiset(xs)
    decreases |xs|
  {
    if |xs| > 0 {
      var p := xs[..|xs| - 1];
      assert xs == p + [xs[|xs| - 1]];
      SortByMagnitudePermutes(p);
      InsertDescendingPermutes(SortByMagnitude(p), xs[|xs| - 1]);
    }
  }

  lemma {:induction false} InsertDescendingSorted(s: seq<RuleResult>, x: RuleResult)
    requires Descending(s)
    ensures Descending(InsertDescending(s, x))
    decreases |s|
  {
    if |s| > 0 && Magnitude(s[|s| - 1]) < Magnitude(x) {
      var p := s[..|s| - 1];
      var last := s[|s| - 1];
      InsertDescendingSorted(p, x);
      var q := InsertDescending(p, x);
      InsertDescendingPermutes(p, x);
      forall i | 0 <= i < |q| ensures Magnitude(q[i]) >= Magnitude(last) {
        assert q[i] in multiset(q);
        if q[i] != x {
          assert q[i] in multiset(p);
          var m :| 0 <= m < |p| && p[m] == q[i];
          assert s[m] == q[i];
        }
      }
    }
  }

  /** The sort orders by non-increasing magnitude. */
  lemma {:induction false} SortByMagnitudeSorted(xs: seq<RuleResult>)
    ensures Descending(SortByMagnitude(xs))
    decreases |xs|
  {
    if |xs| > 0 {
      SortByMagnitudeSorted(xs[..|xs| - 1]);
      InsertDescendingSorted(SortByMagnitude(xs[..|xs| - 1]), xs[|xs| - 1]);
    }
  }

  function MagnitudeIs(m: real): RuleResult -> bool {
    (r: RuleResult) => Magnitude(r) == m
  }

  lemma {:induction false} InsertDescendingStable(s: seq<RuleResult>, x: RuleResult, m: real)
    ensures Grouping.Filter(InsertDescending(s, x), MagnitudeIs(m)) == Grouping.Filter(s + [x], MagnitudeIs(m))
    decreases |s|
  {
    var f := MagnitudeIs(m);
    if |s| > 0 && Magnitude(s[|s| - 1]) < Magnitude(x) {
      var p := s[..|s| - 1];
      var last := s[|s| - 1];
      assert s == p + [last];
      InsertDescendingStable(p, x, m);
      Grouping.FilterSnoc(InsertDescending(p, x), last, f);
      Grouping.FilterSnoc(p + [last], x, f);
      Grouping.FilterSnoc(p, last, f);
      Grouping.FilterSnoc(p + [x], last, f);
      Grouping.FilterSnoc(p, x, f);
    }
  }

  /** Ties keep their input order: for every magnitude, the results of that
      magnitude come out as they went in. */
  lemma {:induction false} SortByMagnitudeStable(xs: seq<RuleResult>, m: real)
    ensures Grouping.Filter(SortByMagnitude(xs), MagnitudeIs(m)) == Grouping.Filter(xs, MagnitudeIs(m))
    decreases |xs|
  {
    if |xs| > 0 {
      var p := xs[..|xs| - 1];
      var x := xs[|xs| - 1];
      assert xs == p + [x];
      SortByMagnitudeStable(p, m);
      InsertDescendingStable(SortByMagnitude(p), x, m);
      Grouping.FilterSnoc(SortByMagnitude(p), x, MagnitudeIs(m));
      Grouping.FilterSnoc(p, x, MagnitudeIs(m));
    }
  }

  /** One entry of `top_10_scores`. */
  datatype TopEntry = TopEntry(rule: string, sku: string, date: string, score: real, flag: bool)

  function Project(r: RuleResult): TopEntry {
    TopEntry(r.rule, r.sku, r.date, r.score, r.flag)
  }

  /** The ten largest, or all of them when there are fewer. */
  function TopTen(results: seq<RuleResult>): (top: seq<RuleResult>)
    ensures |top| == if |results| < 10 then |results| else 10
  {
    var sorted := SortByMagnitude(results);
    if |sorted| < 10 then sorted else sorted[..10]
  }

  /** The top list is ordered, drawn from the results, and no result left
      out has a larger magnitude than one kept. */
  lemma TopTenMeaning(results: seq<RuleResult>)
    ensures Descending(TopTen(results))
    ensures multiset(TopTen(results)) <= multiset(results)
    ensures forall x :: x in results && x !in TopTen(results) ==>
              forall i :: 0 <= i < |TopTen(results)| ==> Magnitude(TopTen(results)[i]) >= Magnitude(x)
  {
    var sorted := SortByMagnitude(results);
    var top := TopTen(results);
    SortByMagnitudeSorted(results);
    SortByMagnitudePermutes(results);
    assert top == sorted[..|top|];
    DescendingPrefix(sorted, |top|);
    forall x | x in results ensures x in sorted {
      assert x in multiset(results);
    }
  }

  /** A prefix of a descending list is descending, is drawn from it, and
      is at least as large as everything after it. */
  lemma DescendingPrefix(sorted: seq<RuleResult>, n: nat)
    requires Descending(sorted) && n <= |sorted|
    ensures Descending(sorted[..n])
    ensures multiset(sorted[..n]) <= multiset(sorted)
    ensures forall x :: x in sorted && x !in sorted[..n] ==>
              forall i :: 0 <= i < n ==> Magnitude(sorted[..n][i]) >= Magnitude(x)
  {
    var top := sorted[..n];
    assert sorted == top + sorted[n..];
    assert multiset(sorted) == multiset(top) + multiset(sorted[n..]);
    forall x | x in sorted && x !in top
      ensures forall i :: 0 <= i < n ==> Magnitude(top[i]) >= Magnitude(x)
    {
      var j :| 0 <= j < |sorted| && sorted[j] == x;
      assert j >= n;
    }
  }

  datatype Summary = Summary(total: nat, perRule: Dicts.Dict<nat>, top: seq<TopEntry>)

  /** The counting loop of `gerar_resumo_analise`. */
  method CountRules(results: seq<RuleResult>) returns (counts: Dicts.Dict<nat>)
    ensures counts == CountsByRule(results)
  {
    counts := Dicts.Empty();
    var i := 0;
    while i < |results|
      invariant 0 <= i <= |results| && counts == CountsByRule(results[..i])
    {
      var rule := results[i].rule;
      assert results[..i + 1] == results[..i] + [results[i]];
      CountsByRuleSnoc(results[..i], results[i]);
      counts := Dicts.Put(counts, rule, (if rule in counts.entries then counts.entries[rule] else 0) + 1);
      i := i + 1;
    }
    assert results[..i] == results;
  }

  lemma CountsByRuleSnoc(init: seq<RuleResult>, x: RuleResult)
    ensures var d := CountsByRule(init);
      CountsByRule(init + [x]) == Dicts.Put(d, x.rule, (if x.rule in d.entries then d.entries[x.rule] else 0) + 1)
  {
    var xs := init + [x];
    assert xs[..|xs| - 1] == init;
    assert xs[|xs| - 1] == x;
    var d := CountsByRule(init);
    assert CountsByRule(xs) == Dicts.Put(CountsByRule(xs[..|xs| - 1]), xs[|xs| - 1].rule,
      (if xs[|xs| - 1].rule in CountsByRule(xs[..|xs| - 1]).entries then CountsByRule(xs[..|xs| - 1]).entries[xs[|xs| - 1].rule] else 0) + 1);
  }

  /** The list comprehension that formats `top_10_scores`. */
  method FormatTop(top: seq<RuleResult>) returns (formatted: seq<TopEntry>)
    ensures |formatted| == |top| && forall i :: 0 <= i < |top| ==> formatted[i] == Project(top[i])
  {
    formatted := [];
    var j := 0;
    while j < |top|
      invariant 0 <= j <= |top| && |formatted| == j
      invariant forall k :: 0 <= k < j ==> formatted[k] == Project(top[k])
    {
      formatted := formatted + [Project(top[j])];
      j := j + 1;
    }
  }

  /** `gerar_resumo_analise` */
  method Summarise(results: seq<RuleResult>) returns (s: Summary)
    ensures s.total == |results| && s.perRule == CountsByRule(results)
    ensures |s.top| == |TopTen(results)| && forall i :: 0 <= i < |s.top| ==> s.top[i] == Project(TopTen(results)[i])
  {
    if |results| == 0 {
      return Summary(0, Dicts.Empty(), []);
    }
    var counts := CountRules(results);
    var formatted := FormatTop(TopTen(results));
    s := Summary(|results|, counts, formatted);
  }

  /** No results: total 0, no counts, no top list. */
  lemma EmptySummary()
    ensures CountsByRule([]).order == [] && |TopTen([])| == 0
  {
  }
}
