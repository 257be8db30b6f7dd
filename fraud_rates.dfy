/** `detectar_percentuais_suspeitos_trocas_cancelamentos`: per store, the
    share of exchanges and of cancellations among its movements, compared
    with 15% and 10%. */
module FraudRates {
  import opened Text
  import opened Records
  import opened Grouping
  import opened FraudFindings
  import opened FraudEvents
  import opened FraudStats

  /** `total_x / total_movimentacoes`, left at 0.0 for a store without
      movements. */
  function Rate(part: nat, whole: nat): real {
    if whole == 0 then 0.0 else part as real / whole as real
  }

  function ExchangeRate(s: StoreStats): real {
    Rate(s.exchanges, s.movements)
  }

  function CancellationRate(s: StoreStats): real {
    Rate(s.cancellations, s.movements)
  }

  /** The findings for one store: the exchange share above 15% (`ALTO`
      above 25%), then the cancellation share above 10% (`ALTO` above 15%). */
  function StoreFindings(store: Value, s: StoreStats): seq<Finding> {
    var exchange := ExchangeRate(s);
    var cancellation := CancellationRate(s);
    (if exchange > Settings.exchangeRate
     then [HighExchangeRate(Render(store), exchange, s, if exchange > 0.25 then High else Medium)]
     else []) +
    (if cancellation > Settings.cancellationRate
     then [HighCancellationRate(Render(store), cancellation, s, if cancellation > 0.15 then High else Medium)]
     else [])
  }

  function StatsStep(stats: map<Value, StoreStats>): Value -> seq<Finding> {
    v => if v in stats then StoreFindings(v, stats[v]) else []
  }

  /** The counters of store `v`. */
  function StoreOf(db: Database, v: Value): StoreStats {
    StoreCounts(GroupOf(StoreEvents(db), "LOJA", v))
  }

  function StoreStep(db: Database): Value -> seq<Finding> {
    v => StoreFindings(v, StoreOf(db, v))
  }

  /** The findings of the detector: none when the statistics pass raises,
      otherwise those of every store in insertion order. */
  function RateFindings(db: Database): seq<Finding> {
    var es := StoreEvents(db);
    if AnyRaises(Present(es, "LOJA")) then []
    else FlatMap(KeysBy(es, "LOJA"), StoreStep(db))
  }

  /** The two conditional appends of one store add exactly its findings. */
  lemma StoreFindingsAppended(before: seq<Finding>, after: seq<Finding>, store: Value, s: StoreStats)
    requires var exchange := ExchangeRate(s);
             var cancellation := CancellationRate(s);
             var mid := if exchange > Settings.exchangeRate
                        then before + [HighExchangeRate(Render(store), exchange, s, if exchange > 0.25 then High else Medium)]
                        else before;
             after == if cancellation > Settings.cancellationRate
                      then mid + [HighCancellationRate(Render(store), cancellation, s, if cancellation > 0.15 then High else Medium)]
                      else mid
    ensures after == before + StoreFindings(store, s)
  {
    var exchange := ExchangeRate(s);
    var cancellation := CancellationRate(s);
    var x := [HighExchangeRate(Render(store), exchange, s, if exchange > 0.25 then High else Medium)];
    var y := [HighCancellationRate(Render(store), cancellation, s, if cancellation > 0.15 then High else Medium)];
    var a := if exchange > Settings.exchangeRate then x else [];
    var b := if cancellation > Settings.cancellationRate then y else [];
    assert StoreFindings(store, s) == a + b;
    assert before + [] == before;
    assert [] + b == b;
    assert a + [] == a;
    assert (before + a) + b == before + (a + b);
  }

  /** The loop over `lojas_stats.items()`. */
  method FlagStores(order: seq<Value>, stats: map<Value, StoreStats>) returns (findings: seq<Finding>)
    requires forall v :: v in order ==> v in stats
    ensures findings == FlatMap(order, StatsStep(stats))
  {
    findings := [];
    var j := 0;
    while j < |order|
      invariant 0 <= j <= |order|
      invariant findings == FlatMap(order[..j], StatsStep(stats))
    {
      var store := order[j];
      var s := stats[store];
      var exchange := Rate(s.exchanges, s.movements);
      var cancellation := Rate(s.cancellations, s.movements);
      ghost var before := findings;
      if exchange > Settings.exchangeRate {
        findings := findings + [HighExchangeRate(Render(store), exchange, s, if exchange > 0.25 then High else Medium)];
      }
      if cancellation > Settings.cancellationRate {
        findings := findings + [HighCancellationRate(Render(store), cancellation, s, if cancellation > 0.15 then High else Medium)];
      }
      assert findings == FlatMap(order[..j + 1], StatsStep(stats)) by {
        StoreFindingsAppended(before, findings, store, s);
        assert order[..j + 1] == order[..j] + [store];
        FlatMapSnoc(order[..j], store, StatsStep(stats));
      }
      j := j + 1;
    }
    assert order[..j] == order;
  }

  /** `detectar_percentuais_suspeitos_trocas_cancelamentos` */
  method DetectRateAnomalies(db: Database) returns (findings: seq<Finding>)
    ensures findings == RateFindings(db)
  {
    var r := StoreStatistics(db);
    if r.None? {
      return [];
    }
    var order := r.value.0;
    var stats := r.value.1;
    findings := FlagStores(order, stats);
    FlatMapCongruent(order, StatsStep(stats), StoreStep(db));
  }

  // ---------------------------------------------------------------------
  // Properties
  // ---------------------------------------------------------------------

  /** A share of a whole lies between 0 and 1. */
  lemma RateBounds(part: nat, whole: nat)
    requires part <= whole
    ensures 0.0 <= Rate(part, whole) <= 1.0
  {
    if whole > 0 {
      assert part as real / whole as real * whole as real == part as real;
    }
  }

  /** Scaling by a positive factor keeps a strict order. */
  lemma ScaleOrder(x: real, y: real, c: real)
    requires c > 0.0
    ensures x > y <==> x * c > y * c
  {
    if x > y {
      assert x * c - y * c == (x - y) * c;
    } else {
      assert y * c - x * c == (y - x) * c;
    }
  }

  /** A share exceeds `n/d` exactly when the cross-multiplied counts do. */
  lemma RateAbove(part: nat, whole: nat, n: nat, d: nat)
    requires whole > 0 && d > 0
    ensures Rate(part, whole) > n as real / d as real <==> part * d > n * whole
  {
    var w := whole as real;
    var e := d as real;
    var r := part as real / w;
    var t := n as real / e;
    assert r * w == part as real;
    assert t * e == n as real;
    ScaleOrder(r, t, w * e);
    assert r * (w * e) == (r * w) * e == (part * d) as real;
    assert t * (w * e) == (t * e) * w == (n * whole) as real;
  }

  /** The four thresholds as integer comparisons: exchanges above 3/20 of the
      movements (`ALTO` above 1/4), cancellations above 1/10 (`ALTO` above
      3/20). */
  lemma Thresholds(s: StoreStats)
    requires s.movements > 0
    ensures ExchangeRate(s) > Settings.exchangeRate <==> 20 * s.exchanges > 3 * s.movements
    ensures ExchangeRate(s) > 0.25 <==> 4 * s.exchanges > s.movements
    ensures CancellationRate(s) > Settings.cancellationRate <==> 10 * s.cancellations > s.movements
    ensures CancellationRate(s) > 0.15 <==> 20 * s.cancellations > 3 * s.movements
  {
    RateAbove(s.exchanges, s.movements, 3, 20);
    RateAbove(s.exchanges, s.movements, 1, 4);
    RateAbove(s.cancellations, s.movements, 1, 10);
    RateAbove(s.cancellations, s.movements, 3, 20);
  }

  /** Every store the pass lists has at least one movement and its two
      shares lie between 0 and 1. */
  lemma StoreShares(db: Database, v: Value)
    requires v in KeysBy(StoreEvents(db), "LOJA")
    ensures var s := StoreOf(db, v);
            s.movements > 0 &&
            0.0 <= ExchangeRate(s) <= 1.0 && 0.0 <= CancellationRate(s) <= 1.0
  {
    var es := StoreEvents(db);
    MembersNonEmpty(Present(es, "LOJA"), FieldOf("LOJA"), v);
    StoreKeyTruthy(db, v);
    StoreCountsSplit(db, v);
    var s := StoreOf(db, v);
    RateBounds(s.exchanges, s.movements);
    RateBounds(s.cancellations, s.movements);
  }

  /** The stores are non-empty `LOJA` values. */
  lemma StoreKeyTruthy(db: Database, v: Value)
    requires v in KeysBy(StoreEvents(db), "LOJA")
    ensures Truthy(v) && v == Str(Render(v))
  {
    var kept := Present(StoreEvents(db), "LOJA");
    var i :| 0 <= i < |kept| && FieldOf("LOJA")(kept[i]) == v;
    assert HasKey("LOJA")(kept[i]);
  }

  /** A store's findings carry its name, its counters and the share that
      crossed the threshold, with the tier the share decides. */
  lemma StoreFindingFacts(store: Value, s: StoreStats, f: Finding)
    requires f in StoreFindings(store, s)
    ensures f.HighExchangeRate? || f.HighCancellationRate?
    ensures f.store == Render(store) && f.storeStats == s
    ensures f.HighExchangeRate? ==>
              f.rate == ExchangeRate(s) && f.rate > 0.15 && (f.risk == High <==> f.rate > 0.25)
    ensures f.HighCancellationRate? ==>
              f.rate == CancellationRate(s) && f.rate > 0.10 && (f.risk == High <==> f.rate > 0.15)
  {
  }

  /** Every finding of the detector is an exchange or a cancellation share. */
  lemma RateKinds(db: Database)
    ensures forall f :: f in RateFindings(db) ==> f.HighExchangeRate? || f.HighCancellationRate?
  {
    forall f | f in RateFindings(db) ensures f.HighExchangeRate? || f.HighCancellationRate? {
      var v := RateFindingFacts(db, f);
    }
  }

  /** Every finding names a listed store and carries its counters and the
      share, between 0 and 1, that crossed the threshold; the counters are
      those of the two collections. */
  lemma RateFindingFacts(db: Database, f: Finding) returns (v: Value)
    requires f in RateFindings(db)
    ensures v in KeysBy(StoreEvents(db), "LOJA") && Truthy(v) && f in StoreFindings(v, StoreOf(db, v))
    ensures var s := StoreOf(db, v);
            var rets := |WithValue(Collection(db, Returns), "LOJA", v)|;
            var cancels := |WithValue(Collection(db, Cancellations), "LOJA", v)|;
            s.movements == rets + cancels && s.cancellations == cancels && s.exchanges <= rets
    ensures (f.HighExchangeRate? || f.HighCancellationRate?) && f.store == v.s && f.storeStats == StoreOf(db, v)
    ensures var s := StoreOf(db, v);
            f.HighExchangeRate? ==>
              f.rate == s.exchanges as real / s.movements as real &&
              0.15 < f.rate <= 1.0 && (f.risk == High <==> f.rate > 0.25)
    ensures var s := StoreOf(db, v);
            f.HighCancellationRate? ==>
              f.rate == s.cancellations as real / s.movements as real &&
              0.10 < f.rate <= 1.0 && (f.risk == High <==> f.rate > 0.15)
  {
    var es := StoreEvents(db);
    var keys := KeysBy(es, "LOJA");
    FlatMapMember(keys, StoreStep(db), f);
    v :| v in keys && f in StoreStep(db)(v);
    StoreKeyTruthy(db, v);
    StoreShares(db, v);
    StoreCountsSplit(db, v);
    StoreFindingFacts(v, StoreOf(db, v), f);
  }

  /** A rate finding that names a listed store is one of that store's. */
  lemma StoreFindingsOnly(db: Database, v: Value, f: Finding)
    requires v in KeysBy(StoreEvents(db), "LOJA")
    requires f in RateFindings(db) && (f.HighExchangeRate? || f.HighCancellationRate?) && f.store == Render(v)
    ensures f in StoreFindings(v, StoreOf(db, v))
  {
    var w := RateFindingFacts(db, f);
    StoreKeyTruthy(db, w);
    StoreKeyTruthy(db, v);
  }

  /** The findings of a listed store are among the detector's. */
  lemma StoreFindingsKept(db: Database, v: Value, f: Finding)
    requires !AnyRaises(Present(StoreEvents(db), "LOJA"))
    requires v in KeysBy(StoreEvents(db), "LOJA")
    requires f in StoreFindings(v, StoreOf(db, v))
    ensures f in RateFindings(db) && (f.HighExchangeRate? || f.HighCancellationRate?) && f.store == Render(v)
  {
    FlatMapMember(KeysBy(StoreEvents(db), "LOJA"), StoreStep(db), f);
    StoreFindingFacts(v, StoreOf(db, v), f);
  }

  /** The findings of a listed store are exactly its own two checks. */
  lemma RateFindingsOfStore(db: Database, v: Value)
    requires !AnyRaises(Present(StoreEvents(db), "LOJA"))
    requires v in KeysBy(StoreEvents(db), "LOJA")
    ensures forall f :: f in RateFindings(db) && (f.HighExchangeRate? || f.HighCancellationRate?) && f.store == Render(v) <==>
                        f in StoreFindings(v, StoreOf(db, v))
  {
    forall f | f in RateFindings(db) && (f.HighExchangeRate? || f.HighCancellationRate?) && f.store == Render(v)
      ensures f in StoreFindings(v, StoreOf(db, v))
    {
      StoreFindingsOnly(db, v, f);
    }
    forall f | f in StoreFindings(v, StoreOf(db, v))
      ensures f in RateFindings(db) && (f.HighExchangeRate? || f.HighCancellationRate?) && f.store == Render(v)
    {
      StoreFindingsKept(db, v, f);
    }
  }

  /** A store with movements gets an exchange finding exactly when its
      exchanges exceed 3/20 of them, and a cancellation finding exactly when
      its cancellations exceed 1/10. */
  lemma StoreFlagged(v: Value, s: StoreStats)
    requires s.movements > 0
    ensures (exists f :: f in StoreFindings(v, s) && f.HighExchangeRate?) <==> 20 * s.exchanges > 3 * s.movements
    ensures (exists f :: f in StoreFindings(v, s) && f.HighCancellationRate?) <==> 10 * s.cancellations > s.movements
  {
    Thresholds(s);
    var own := StoreFindings(v, s);
    forall f | f in own ensures f.HighExchangeRate? ==> 20 * s.exchanges > 3 * s.movements
      ensures f.HighCancellationRate? ==> 10 * s.cancellations > s.movements
    {
      StoreFindingFacts(v, s, f);
    }
    if 20 * s.exchanges > 3 * s.movements {
      assert own[0] in own;
    }
    if 10 * s.cancellations > s.movements {
      assert own[|own| - 1] in own;
    }
  }

  /** A listed store gets an exchange finding exactly when its exchanges
      exceed 3/20 of its movements, and a cancellation finding exactly when
      its cancellations exceed 1/10. */
  lemma RateFlagged(db: Database, v: Value)
    requires !AnyRaises(Present(StoreEvents(db), "LOJA"))
    requires v in KeysBy(StoreEvents(db), "LOJA")
    ensures var s := StoreOf(db, v);
            ((exists f :: f in RateFindings(db) && f.HighExchangeRate? && f.store == Render(v)) <==>
               20 * s.exchanges > 3 * s.movements) &&
            ((exists f :: f in RateFindings(db) && f.HighCancellationRate? && f.store == Render(v)) <==>
               10 * s.cancellations > s.movements)
  {
    StoreShares(db, v);
    RateFindingsOfStore(db, v);
    StoreFlagged(v, StoreOf(db, v));
  }

  /** A finding that names the store `name`. */
  function NamesStore(name: string): Finding -> bool {
    (f: Finding) => (f.HighExchangeRate? || f.HighCancellationRate?) && f.store == name
  }

  /** A listed store is named by at most two findings, and a name that is
      no listed store by none. */
  lemma StoreNamedTwice(db: Database, name: string)
    ensures CountWhere(RateFindings(db), NamesStore(name)) <=
            if Str(name) in KeysBy(StoreEvents(db), "LOJA") then 2 else 0
  {
    var keys := KeysBy(StoreEvents(db), "LOJA");
    if !AnyRaises(Present(StoreEvents(db), "LOJA")) {
      forall k | k in keys && k != Str(name)
        ensures CountWhere(StoreStep(db)(k), NamesStore(name)) == 0
      {
        StoreKeyTruthy(db, k);
        OtherStoreUnnamed(k, StoreOf(db, k), name);
      }
      assert |StoreStep(db)(Str(name))| <= 2;
      FlatMapCountOne(keys, StoreStep(db), NamesStore(name), Str(name), 2);
    }
  }

  /** The findings of one store never name another. */
  lemma OtherStoreUnnamed(v: Value, s: StoreStats, name: string)
    requires v == Str(Render(v)) && v != Str(name)
    ensures CountWhere(StoreFindings(v, s), NamesStore(name)) == 0
  {
    var fs := StoreFindings(v, s);
    forall i | 0 <= i < |fs|
      ensures NamesStore(name)(fs[i]) == false
    {
      assert fs[i].store == Render(v);
    }
    CountWhereUniform(fs, NamesStore(name), false);
  }

  /** No store is named by more than two findings, and a name that is no
      listed store is named by none; so there are at most twice as many
      findings as stores. */
  lemma AtMostTwoPerStore(db: Database)
    ensures forall name :: CountWhere(RateFindings(db), NamesStore(name)) <=
                           if Str(name) in KeysBy(StoreEvents(db), "LOJA") then 2 else 0
    ensures |RateFindings(db)| <= 2 * |KeysBy(StoreEvents(db), "LOJA")|
  {
    if !AnyRaises(Present(StoreEvents(db), "LOJA")) {
      FlatMapBound(KeysBy(StoreEvents(db), "LOJA"), StoreStep(db), 2);
    }
    forall name
      ensures CountWhere(RateFindings(db), NamesStore(name)) <=
              if Str(name) in KeysBy(StoreEvents(db), "LOJA") then 2 else 0
    {
      StoreNamedTwice(db, name);
    }
  }
}
