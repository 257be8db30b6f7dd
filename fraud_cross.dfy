/** `detectar_produtos_ajustes_trocas_simultaneos`: a SKU present both in a
    stock adjustment and in a return, where the return's date is within 24
    hours of the SKU's last adjustment. */
module FraudCross {
  import opened Text
  import opened Records
  import opened Grouping
  import opened FraudValues
  import opened FraudFindings

  function SkuOf(d: Doc): Value {
    Field(d, "SKU")
  }

  /** The non-empty SKUs of a collection (`ajustes_skus`, `devolucoes_skus`). */
  function SkuSet(docs: seq<Doc>): set<string> {
    set i | 0 <= i < |docs| && Truthy(SkuOf(docs[i])) :: SkuOf(docs[i]).s
  }

  /** `skus_simultaneos` */
  function CommonSkus(db: Database): set<string> {
    SkuSet(Collection(db, Adjustments)) * SkuSet(Collection(db, Returns))
  }

  /** `ajustes_detalhes[sku]`: later adjustments overwrite earlier ones, so
      the entry is the last adjustment with that SKU. */
  function LastAdjustment(adjs: seq<Doc>, sku: string): Option<Doc>
    decreases |adjs|
  {
    if |adjs| == 0 then None
    else if SkuOf(adjs[|adjs| - 1]) == Str(sku) then Some(adjs[|adjs| - 1])
    else LastAdjustment(adjs[..|adjs| - 1], sku)
  }

  /** `devolucoes_detalhes[sku]` */
  function ReturnsWithSku(rets: seq<Doc>, sku: string): seq<Doc> {
    Members(rets, SkuOf, Str(sku))
  }

  function Pair(sku: string, adj: Doc, dev: Doc): Finding {
    AdjustmentAndReturn(sku, Field(adj, "LOJA"), Field(dev, "LOJA"),
                        Field(adj, "DATA_AJUSTE"), Field(dev, "DATA_DEVOLUCAO"), adj, dev)
  }

  /** One finding per return whose date is close to the adjustment's. */
  function CloseReturns(sku: string, adj: Doc, devs: seq<Doc>): seq<Finding>
    decreases |devs|
  {
    if |devs| == 0 then []
    else
      var dev := devs[|devs| - 1];
      CloseReturns(sku, adj, devs[..|devs| - 1]) +
      (if DatesClose(Field(adj, "DATA_AJUSTE"), Field(dev, "DATA_DEVOLUCAO"), 24) then [Pair(sku, adj, dev)] else [])
  }

  function SkuFindings(adjs: seq<Doc>, rets: seq<Doc>, sku: string): seq<Finding> {
    match LastAdjustment(adjs, sku)
    case None => []
    case Some(adj) => CloseReturns(sku, adj, ReturnsWithSku(rets, sku))
  }

  function SkuStep(adjs: seq<Doc>, rets: seq<Doc>): string -> seq<Finding> {
    sku => SkuFindings(adjs, rets, sku)
  }

  /** The findings of the detector when the common SKUs are visited in the
      order `order`. */
  function CrossFindings(db: Database, order: seq<string>): seq<Finding> {
    FlatMap(order, SkuStep(Collection(db, Adjustments), Collection(db, Returns)))
  }

  /** `order` lists every element of `s` once: an iteration order of the set. */
  ghost predicate Enumerates(order: seq<string>, s: set<string>) {
    (forall i, j :: 0 <= i < j < |order| ==> order[i] != order[j]) &&
    (forall x :: x in order <==> x in s)
  }

  // ---------------------------------------------------------------------
  // The detector
  // ---------------------------------------------------------------------

  lemma SkuSetSnoc(docs: seq<Doc>, d: Doc)
    ensures SkuSet(docs + [d]) == SkuSet(docs) + (if Truthy(SkuOf(d)) then {SkuOf(d).s} else {})
  {
    var all := docs + [d];
    forall s | s in SkuSet(all) ensures s in SkuSet(docs) + (if Truthy(SkuOf(d)) then {SkuOf(d).s} else {}) {
      var i :| 0 <= i < |all| && Truthy(SkuOf(all[i])) && SkuOf(all[i]).s == s;
      if i < |docs| {
        assert all[i] == docs[i];
      }
    }
    forall s | s in SkuSet(docs) ensures s in SkuSet(all) {
      var i :| 0 <= i < |docs| && Truthy(SkuOf(docs[i])) && SkuOf(docs[i]).s == s;
      assert all[i] == docs[i];
    }
    if Truthy(SkuOf(d)) {
      assert all[|docs|] == d;
    }
  }

  lemma LastAdjustmentSnoc(adjs: seq<Doc>, a: Doc, sku: string)
    ensures LastAdjustment(adjs + [a], sku) ==
            if SkuOf(a) == Str(sku) then Some(a) else LastAdjustment(adjs, sku)
  {
    assert (adjs + [a])[..|adjs|] == adjs;
  }

  /** The first pass: `ajustes_skus` and `ajustes_detalhes`. */
  method ScanAdjustments(adjs: seq<Doc>) returns (skus: set<string>, last: map<string, Doc>)
    ensures skus == SkuSet(adjs)
    ensures forall s :: s in last <==> s in skus
    ensures forall s :: s in last ==> LastAdjustment(adjs, s) == Some(last[s])
  {
    skus := {};
    last := map[];
    var i := 0;
    while i < |adjs|
      invariant 0 <= i <= |adjs|
      invariant skus == SkuSet(adjs[..i])
      invariant forall s :: s in last <==> s in skus
      invariant forall s :: s in last ==> LastAdjustment(adjs[..i], s) == Some(last[s])
    {
      var sku := SkuOf(adjs[i]);
      assert adjs[..i + 1] == adjs[..i] + [adjs[i]];
      SkuSetSnoc(adjs[..i], adjs[i]);
      forall s ensures LastAdjustment(adjs[..i + 1], s) ==
                       if SkuOf(adjs[i]) == Str(s) then Some(adjs[i]) else LastAdjustment(adjs[..i], s) {
        LastAdjustmentSnoc(adjs[..i], adjs[i], s);
      }
      if Truthy(sku) {
        skus := skus + {sku.s};
        last := last[sku.s := adjs[i]];
      }
      i := i + 1;
    }
    assert adjs[..i] == adjs;
  }

  /** The second pass: `devolucoes_skus` and `devolucoes_detalhes`. */
  method ScanReturns(rets: seq<Doc>) returns (skus: set<string>, bySku: map<string, seq<Doc>>)
    ensures skus == SkuSet(rets)
    ensures forall s :: s in bySku <==> s in skus
    ensures forall s :: s in bySku ==> bySku[s] == ReturnsWithSku(rets, s)
  {
    skus := {};
    bySku := map[];
    var i := 0;
    while i < |rets|
      invariant 0 <= i <= |rets|
      invariant skus == SkuSet(rets[..i])
      invariant forall s :: s in bySku <==> s in skus
      invariant forall s :: s in bySku ==> bySku[s] == ReturnsWithSku(rets[..i], s)
    {
      var sku := SkuOf(rets[i]);
      assert rets[..i + 1] == rets[..i] + [rets[i]];
      SkuSetSnoc(rets[..i], rets[i]);
      forall s ensures ReturnsWithSku(rets[..i + 1], s) ==
                       ReturnsWithSku(rets[..i], s) + (if SkuOf(rets[i]) == Str(s) then [rets[i]] else []) {
        MembersSnoc(rets[..i], rets[i], SkuOf, Str(s));
      }
      if Truthy(sku) {
        skus := skus + {sku.s};
        if sku.s !in bySku {
          SkuSetMembers(rets[..i], sku.s);
          bySku := bySku[sku.s := []];
        }
        bySku := bySku[sku.s := bySku[sku.s] + [rets[i]]];
      }
      i := i + 1;
    }
    assert rets[..i] == rets;
  }

  /** The loop step over `devs[k]`. */
  lemma CloseReturnsPrefix(sku: string, adj: Doc, devs: seq<Doc>, k: nat)
    requires k < |devs|
    ensures CloseReturns(sku, adj, devs[..k + 1]) ==
            CloseReturns(sku, adj, devs[..k]) +
            (if DatesClose(Field(adj, "DATA_AJUSTE"), Field(devs[k], "DATA_DEVOLUCAO"), 24)
             then [Pair(sku, adj, devs[k])] else [])
  {
    assert devs[..k + 1][..k] == devs[..k];
  }

  /** The inner loop: the returns of one SKU against its adjustment. */
  method MatchReturns(sku: string, adj: Doc, devs: seq<Doc>) returns (found: seq<Finding>)
    ensures found == CloseReturns(sku, adj, devs)
  {
    var adjDate := Field(adj, "DATA_AJUSTE");
    found := [];
    var k := 0;
    while k < |devs|
      invariant 0 <= k <= |devs|
      invariant found == CloseReturns(sku, adj, devs[..k])
    {
      var dev := devs[k];
      ghost var before := found;
      if DatesClose(adjDate, Field(dev, "DATA_DEVOLUCAO"), 24) {
        found := found + [Pair(sku, adj, dev)];
      }
      assert found == CloseReturns(sku, adj, devs[..k + 1]) by {
        CloseReturnsPrefix(sku, adj, devs, k);
        assert before + [] == before;
      }
      k := k + 1;
    }
    assert devs[..k] == devs;
  }

  /** `detectar_produtos_ajustes_trocas_simultaneos`; the set of common SKUs
      is visited in the order `order`. */
  method DetectAdjustmentsWithReturns(db: Database, order: seq<string>) returns (findings: seq<Finding>)
    requires Enumerates(order, CommonSkus(db))
    ensures findings == CrossFindings(db, order)
  {
    var adjs := Collection(db, Adjustments);
    var rets := Collection(db, Returns);
    var adjSkus, last := ScanAdjustments(adjs);
    var retSkus, bySku := ScanReturns(rets);
    var common := adjSkus * retSkus;
    assert forall s :: s in order <==> s in common;
    findings := [];
    var j := 0;
    while j < |order|
      invariant 0 <= j <= |order|
      invariant findings == FlatMap(order[..j], SkuStep(adjs, rets))
    {
      var sku := order[j];
      assert sku in order;
      assert sku in common;
      var adj := last[sku];
      var found := MatchReturns(sku, adj, bySku[sku]);
      assert order[..j + 1] == order[..j] + [sku];
      FlatMapSnoc(order[..j], sku, SkuStep(adjs, rets));
      findings := findings + found;
      j := j + 1;
    }
    assert order[..j] == order;
  }

  // ---------------------------------------------------------------------
  // Properties
  // ---------------------------------------------------------------------

  /** The last adjustment with a SKU carries that SKU and no later adjustment
      does; a SKU without adjustments has none. */
  lemma {:induction false} LastAdjustmentIsLast(adjs: seq<Doc>, sku: string)
    ensures LastAdjustment(adjs, sku).None? <==> forall i :: 0 <= i < |adjs| ==> SkuOf(adjs[i]) != Str(sku)
    ensures LastAdjustment(adjs, sku).Some? ==>
              exists i :: 0 <= i < |adjs| && adjs[i] == LastAdjustment(adjs, sku).value &&
                          SkuOf(adjs[i]) == Str(sku) &&
                          forall j :: i < j < |adjs| ==> SkuOf(adjs[j]) != Str(sku)
    decreases |adjs|
  {
    if |adjs| > 0 {
      var p := adjs[..|adjs| - 1];
      LastAdjustmentIsLast(p, sku);
      if SkuOf(adjs[|adjs| - 1]) != Str(sku) {
        assert forall i :: 0 <= i < |p| ==> p[i] == adjs[i];
        if LastAdjustment(p, sku).Some? {
          var i :| 0 <= i < |p| && p[i] == LastAdjustment(p, sku).value &&
                   SkuOf(p[i]) == Str(sku) && forall j :: i < j < |p| ==> SkuOf(p[j]) != Str(sku);
          assert adjs[i] == p[i];
        }
      }
    }
  }

  lemma LastAdjustmentHasSku(adjs: seq<Doc>, sku: string)
    requires |sku| > 0
    ensures LastAdjustment(adjs, sku).Some? <==> sku in SkuSet(adjs)
  {
    LastAdjustmentIsLast(adjs, sku);
    if sku in SkuSet(adjs) {
      var i :| 0 <= i < |adjs| && Truthy(SkuOf(adjs[i])) && SkuOf(adjs[i]).s == sku;
      assert SkuOf(adjs[i]) == Str(sku);
    }
    if LastAdjustment(adjs, sku).Some? {
      var i :| 0 <= i < |adjs| && SkuOf(adjs[i]) == Str(sku);
    }
  }

  lemma {:induction false} CloseReturnsMember(sku: string, adj: Doc, devs: seq<Doc>, f: Finding)
    ensures f in CloseReturns(sku, adj, devs) <==>
            exists dev :: dev in devs && f == Pair(sku, adj, dev) &&
                          DatesClose(Field(adj, "DATA_AJUSTE"), Field(dev, "DATA_DEVOLUCAO"), 24)
    decreases |devs|
  {
    if |devs| > 0 {
      var p := devs[..|devs| - 1];
      CloseReturnsMember(sku, adj, p, f);
      assert devs == p + [devs[|devs| - 1]];
      forall dev | dev in devs ensures dev in p || dev == devs[|devs| - 1] {
      }
    }
  }

  lemma {:induction false} SkuSetMembers(docs: seq<Doc>, sku: string)
    requires |sku| > 0
    ensures sku in SkuSet(docs) <==> |Members(docs, SkuOf, Str(sku))| > 0
  {
    MembersNonEmpty(docs, SkuOf, Str(sku));
    if sku in SkuSet(docs) {
      var i :| 0 <= i < |docs| && Truthy(SkuOf(docs[i])) && SkuOf(docs[i]).s == sku;
      assert SkuOf(docs[i]) in Keys(docs, SkuOf);
    }
    if Str(sku) in Keys(docs, SkuOf) {
      var i :| 0 <= i < |docs| && SkuOf(docs[i]) == Str(sku);
    }
  }

  /** Every finding of the detector, in any visiting order, pairs an
      adjustment with a return. */
  lemma CrossKinds(db: Database, order: seq<string>)
    ensures forall f :: f in CrossFindings(db, order) ==> f.AdjustmentAndReturn?
  {
    var adjs := Collection(db, Adjustments);
    var rets := Collection(db, Returns);
    forall f | f in CrossFindings(db, order) ensures f.AdjustmentAndReturn? {
      FlatMapMember(order, SkuStep(adjs, rets), f);
      var sku :| sku in order && f in SkuStep(adjs, rets)(sku);
      var adj := LastAdjustment(adjs, sku).value;
      CloseReturnsMember(sku, adj, ReturnsWithSku(rets, sku), f);
    }
  }

  /** Every finding is `ALTO`, names a non-empty SKU present among both the
      adjustments and the returns, carries that SKU's last adjustment and one
      of its returns, and the two dates are within 24 hours. */
  lemma CrossFindingFacts(db: Database, order: seq<string>, f: Finding)
    requires Enumerates(order, CommonSkus(db))
    requires f in CrossFindings(db, order)
    ensures var adjs := Collection(db, Adjustments);
            var rets := Collection(db, Returns);
            f.AdjustmentAndReturn? && RiskOf(f) == High &&
            |f.sku| > 0 && f.sku in SkuSet(adjs) && f.sku in SkuSet(rets) &&
            LastAdjustment(adjs, f.sku) == Some(f.adjustment) &&
            f.returnDoc in ReturnsWithSku(rets, f.sku) &&
            f.adjustmentDate == Field(f.adjustment, "DATA_AJUSTE") &&
            f.returnDate == Field(f.returnDoc, "DATA_DEVOLUCAO") &&
            f.adjustmentStore == Field(f.adjustment, "LOJA") &&
            f.returnStore == Field(f.returnDoc, "LOJA") &&
            DatesClose(f.adjustmentDate, f.returnDate, 24)
  {
    var adjs := Collection(db, Adjustments);
    var rets := Collection(db, Returns);
    FlatMapMember(order, SkuStep(adjs, rets), f);
    var sku :| sku in order && f in SkuStep(adjs, rets)(sku);
    assert sku in CommonSkus(db);
    var adj := LastAdjustment(adjs, sku).value;
    CloseReturnsMember(sku, adj, ReturnsWithSku(rets, sku), f);
    var dev :| dev in ReturnsWithSku(rets, sku) && f == Pair(sku, adj, dev) &&
               DatesClose(Field(adj, "DATA_AJUSTE"), Field(dev, "DATA_DEVOLUCAO"), 24);
    var i :| 0 <= i < |adjs| && Truthy(SkuOf(adjs[i])) && SkuOf(adjs[i]).s == sku;
  }

  /** Conversely every return on a common SKU whose date is within 24 hours
      of that SKU's last adjustment gives a finding. */
  lemma CrossFindingComplete(db: Database, order: seq<string>, sku: string, dev: Doc)
    requires Enumerates(order, CommonSkus(db))
    requires sku in CommonSkus(db)
    requires dev in ReturnsWithSku(Collection(db, Returns), sku)
    ensures var adj := LastAdjustment(Collection(db, Adjustments), sku);
            adj.Some? &&
            (DatesClose(Field(adj.value, "DATA_AJUSTE"), Field(dev, "DATA_DEVOLUCAO"), 24) ==>
             Pair(sku, adj.value, dev) in CrossFindings(db, order))
  {
    var adjs := Collection(db, Adjustments);
    var rets := Collection(db, Returns);
    var i :| 0 <= i < |adjs| && Truthy(SkuOf(adjs[i])) && SkuOf(adjs[i]).s == sku;
    LastAdjustmentHasSku(adjs, sku);
    var adj := LastAdjustment(adjs, sku).value;
    if DatesClose(Field(adj, "DATA_AJUSTE"), Field(dev, "DATA_DEVOLUCAO"), 24) {
      CloseReturnsMember(sku, adj, ReturnsWithSku(rets, sku), Pair(sku, adj, dev));
      FlatMapMember(order, SkuStep(adjs, rets), Pair(sku, adj, dev));
    }
  }
}
