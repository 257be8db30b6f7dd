/** The per-entity statistics passes `_calcular_estatisticas_lojas`,
    `_calcular_estatisticas_clientes` and `_calcular_estatisticas_produtos`.
    Each walks the collections in a fixed order, skips documents whose key
    field is empty and increments `defaultdict` counters for the rest. */
module FraudStats {
  import opened Text
  import opened Records
  import opened Grouping
  import opened FraudFindings
  import opened FraudEvents

  /** Bumping the counters of a document's store gives the counts of its
      group once the document joins it. */
  lemma StoreBumped<K>(kept: seq<Event>, e: Event, key: Event -> K, c: StoreStats)
    requires c == StoreCounts(Members(kept, key, key(e)))
    ensures StoreStats(c.movements + 1, c.exchanges + (if IsExchange(e) then 1 else 0),
                       c.cancellations + (if IsCancellation(e) then 1 else 0)) ==
            StoreCounts(Members(kept + [e], key, key(e)))
  {
    StoreCountsSnoc(Members(kept, key, key(e)), e);
    MembersSnoc(kept, e, key, key(e));
  }

  /** The counters a store pass finds for `key(e)` before counting `e`:
      its entry, or zeros when it has none. */
  lemma StoreEntry<K>(kept: seq<Event>, key: Event -> K, k: K, order: seq<K>,
                      stats: map<K, StoreStats>, current: StoreStats)
    requires order == Keys(kept, key)
    requires forall v :: v in stats <==> v in order
    requires forall v :: v in stats ==> stats[v] == StoreCounts(Members(kept, key, v))
    requires current == if k in stats then stats[k] else StoreStats(0, 0, 0)
    ensures current == StoreCounts(Members(kept, key, k))
  {
    MembersNonEmpty(kept, key, k);
  }

  /** Setting the entry of `key(e)` to its new counters keeps every entry
      the counters of its group; the other groups did not change. */
  lemma StoresTallied<K>(kept: seq<Event>, e: Event, key: Event -> K, stats: map<K, StoreStats>, next: StoreStats)
    requires forall v :: v in stats ==> stats[v] == StoreCounts(Members(kept, key, v))
    requires next == StoreCounts(Members(kept + [e], key, key(e)))
    ensures forall v :: v in stats[key(e) := next] ==> stats[key(e) := next][v] == StoreCounts(Members(kept + [e], key, v))
  {
    forall v | v in stats[key(e) := next] ensures stats[key(e) := next][v] == StoreCounts(Members(kept + [e], key, v)) {
      if v != key(e) {
        MembersSnoc(kept, e, key, v);
      }
    }
  }

  lemma EntityBumped<K>(kept: seq<Event>, e: Event, key: Event -> K, other: string, c: EntityStats)
    requires c == EntityCounts(Members(kept, key, key(e)), other)
    ensures EntityStats(c.occurrences + 1, c.exchanges + (if IsExchange(e) then 1 else 0),
                        c.cancellations + (if IsCancellation(e) then 1 else 0),
                        c.adjustments + (if IsAdjustment(e) then 1 else 0),
                        c.stores + {Field(e.doc, "LOJA")}, c.others + {Field(e.doc, other)}) ==
            EntityCounts(Members(kept + [e], key, key(e)), other)
  {
    EntityCountsSnoc(Members(kept, key, key(e)), e, other);
    MembersSnoc(kept, e, key, key(e));
  }

  lemma EntityEntry<K>(kept: seq<Event>, key: Event -> K, other: string, k: K, order: seq<K>,
                       stats: map<K, EntityStats>, current: EntityStats)
    requires order == Keys(kept, key)
    requires forall v :: v in stats <==> v in order
    requires forall v :: v in stats ==> stats[v] == EntityCounts(Members(kept, key, v), other)
    requires current == if k in stats then stats[k] else EntityStats(0, 0, 0, 0, {}, {})
    ensures current == EntityCounts(Members(kept, key, k), other)
  {
    MembersNonEmpty(kept, key, k);
  }

  lemma EntitiesTallied<K>(kept: seq<Event>, e: Event, key: Event -> K, other: string,
                           stats: map<K, EntityStats>, next: EntityStats)
    requires forall v :: v in stats ==> stats[v] == EntityCounts(Members(kept, key, v), other)
    requires next == EntityCounts(Members(kept + [e], key, key(e)), other)
    ensures forall v :: v in stats[key(e) := next] ==>
              stats[key(e) := next][v] == EntityCounts(Members(kept + [e], key, v), other)
  {
    forall v | v in stats[key(e) := next]
      ensures stats[key(e) := next][v] == EntityCounts(Members(kept + [e], key, v), other)
    {
      if v != key(e) {
        MembersSnoc(kept, e, key, v);
      }
    }
  }

  /** The body of the store loops for a document with a store: its entry is
      created when new and its counters are bumped; `kept`, the documents
      counted so far, is ghost. */
  method CountStore<K(==)>(ghost kept: seq<Event>, e: Event, key: Event -> K,
                           order: seq<K>, stats: map<K, StoreStats>)
    returns (order': seq<K>, stats': map<K, StoreStats>)
    requires order == Keys(kept, key)
    requires forall v :: v in stats <==> v in order
    requires forall v :: v in stats ==> stats[v] == StoreCounts(Members(kept, key, v))
    ensures order' == Keys(kept + [e], key)
    ensures forall v :: v in stats' <==> v in order'
    ensures forall v :: v in stats' ==> stats'[v] == StoreCounts(Members(kept + [e], key, v))
  {
    var store := key(e);
    var current := StoreStats(0, 0, 0);
    order' := order;
    if store in stats {
      current := stats[store];
    } else {
      order' := order + [store];
    }
    assert order' == Keys(kept + [e], key) by {
      KeysSnoc(kept, e, key);
    }
    var next := StoreStats(current.movements + 1,
                           current.exchanges + (if IsExchange(e) then 1 else 0),
                           current.cancellations + (if IsCancellation(e) then 1 else 0));
    StoreEntry(kept, key, store, order, stats, current);
    StoreBumped(kept, e, key, current);
    StoresTallied(kept, e, key, stats, next);
    stats' := stats[store := next];
  }

  /** The body of the customer and product loops for a document with a key. */
  method CountEntity<K(==)>(ghost kept: seq<Event>, e: Event, key: Event -> K, other: string,
                            order: seq<K>, stats: map<K, EntityStats>)
    returns (order': seq<K>, stats': map<K, EntityStats>)
    requires order == Keys(kept, key)
    requires forall v :: v in stats <==> v in order
    requires forall v :: v in stats ==> stats[v] == EntityCounts(Members(kept, key, v), other)
    ensures order' == Keys(kept + [e], key)
    ensures forall v :: v in stats' <==> v in order'
    ensures forall v :: v in stats' ==> stats'[v] == EntityCounts(Members(kept + [e], key, v), other)
  {
    var k := key(e);
    var current := EntityStats(0, 0, 0, 0, {}, {});
    order' := order;
    if k in stats {
      current := stats[k];
    } else {
      order' := order + [k];
    }
    assert order' == Keys(kept + [e], key) by {
      KeysSnoc(kept, e, key);
    }
    var next := EntityStats(current.occurrences + 1,
                            current.exchanges + (if IsExchange(e) then 1 else 0),
                            current.cancellations + (if IsCancellation(e) then 1 else 0),
                            current.adjustments + (if IsAdjustment(e) then 1 else 0),
                            current.stores + {Field(e.doc, "LOJA")},
                            current.others + {Field(e.doc, other)});
    EntityEntry(kept, key, other, k, order, stats, current);
    EntityBumped(kept, e, key, other, current);
    EntitiesTallied(kept, e, key, other, stats, next);
    stats' := stats[k := next];
  }

  /** `_calcular_estatisticas_lojas`: `None` when the pass raises, else the
      stores in insertion order with their counters. */
  method StoreStatistics(db: Database) returns (r: Option<(seq<Value>, map<Value, StoreStats>)>)
    ensures var es := StoreEvents(db);
            r.None? <==> AnyRaises(Present(es, "LOJA"))
    ensures var es := StoreEvents(db);
            r.Some? ==>
              r.value.0 == KeysBy(es, "LOJA") &&
              (forall v :: v in r.value.1 <==> v in r.value.0) &&
              (forall v :: v in r.value.1 ==> r.value.1[v] == StoreCounts(GroupOf(es, "LOJA", v)))
  {
    r := StoreTally(StoreEvents(db), HasKey("LOJA"), FieldOf("LOJA"));
  }

  /** The loops of `_calcular_estatisticas_lojas`, over its documents in
      reading order; `keep` is the guard and `key` the dictionary key. */
  method StoreTally<K(==)>(es: seq<Event>, keep: Event -> bool, key: Event -> K)
    returns (r: Option<(seq<K>, map<K, StoreStats>)>)
    ensures r.None? <==> AnyRaises(Filter(es, keep))
    ensures r.Some? ==>
              r.value.0 == Keys(Filter(es, keep), key) &&
              (forall v :: v in r.value.1 <==> v in r.value.0) &&
              (forall v :: v in r.value.1 ==> r.value.1[v] == StoreCounts(Members(Filter(es, keep), key, v)))
  {
    var order: seq<K> := [];
    var stats: map<K, StoreStats> := map[];
    ghost var kept: seq<Event> := [];
    var i := 0;
    while i < |es|
      invariant 0 <= i <= |es|
      invariant kept == Filter(es[..i], keep)
      invariant !AnyRaises(kept)
      invariant order == Keys(kept, key)
      invariant forall v :: v in stats <==> v in order
      invariant forall v :: v in stats ==> stats[v] == StoreCounts(Members(kept, key, v))
    {
      var e := es[i];
      assert Filter(es[..i + 1], keep) == if keep(e) then kept + [e] else kept by {
        assert es[..i + 1] == es[..i] + [e];
        FilterSnoc(es[..i], e, keep);
      }
      if keep(e) {
        if Raises(e) {
          assert AnyRaises(Filter(es, keep)) by {
            AnyRaisesSnoc(kept, e);
            RaisesPrefix(es, i + 1, keep);
          }
          return None;
        }
        assert !AnyRaises(kept + [e]) by {
          AnyRaisesSnoc(kept, e);
        }
        order, stats := CountStore(kept, e, key, order, stats);
        kept := kept + [e];
      }
      i := i + 1;
    }
    assert es[..i] == es;
    r := Some((order, stats));
  }

  /** `_calcular_estatisticas_clientes` (`field` = `IDUSUARIO`, `other` =
      `SKU`) and `_calcular_estatisticas_produtos` (`field` = `SKU`, `other`
      = `IDUSUARIO`). */
  method EntityStatistics(db: Database, field: string, other: string)
    returns (r: Option<(seq<Value>, map<Value, EntityStats>)>)
    ensures var es := EntityEvents(db);
            r.None? <==> AnyRaises(Present(es, field))
    ensures var es := EntityEvents(db);
            r.Some? ==>
              r.value.0 == KeysBy(es, field) &&
              (forall v :: v in r.value.1 <==> v in r.value.0) &&
              (forall v :: v in r.value.1 ==> r.value.1[v] == EntityCounts(GroupOf(es, field, v), other))
  {
    r := EntityTally(EntityEvents(db), HasKey(field), FieldOf(field), other);
  }

  /** The three loops of the customer and product passes, over their
      documents in reading order. */
  method EntityTally<K(==)>(es: seq<Event>, keep: Event -> bool, key: Event -> K, other: string)
    returns (r: Option<(seq<K>, map<K, EntityStats>)>)
    ensures r.None? <==> AnyRaises(Filter(es, keep))
    ensures r.Some? ==>
              r.value.0 == Keys(Filter(es, keep), key) &&
              (forall v :: v in r.value.1 <==> v in r.value.0) &&
              (forall v :: v in r.value.1 ==> r.value.1[v] == EntityCounts(Members(Filter(es, keep), key, v), other))
  {
    var order: seq<K> := [];
    var stats: map<K, EntityStats> := map[];
    ghost var kept: seq<Event> := [];
    var i := 0;
    while i < |es|
      invariant 0 <= i <= |es|
      invariant kept == Filter(es[..i], keep)
      invariant !AnyRaises(kept)
      invariant order == Keys(kept, key)
      invariant forall v :: v in stats <==> v in order
      invariant forall v :: v in stats ==> stats[v] == EntityCounts(Members(kept, key, v), other)
    {
      var e := es[i];
      assert Filter(es[..i + 1], keep) == if keep(e) then kept + [e] else kept by {
        assert es[..i + 1] == es[..i] + [e];
        FilterSnoc(es[..i], e, keep);
      }
      if keep(e) {
        if Raises(e) {
          assert AnyRaises(Filter(es, keep)) by {
            AnyRaisesSnoc(kept, e);
            RaisesPrefix(es, i + 1, keep);
          }
          return None;
        }
        assert !AnyRaises(kept + [e]) by {
          AnyRaisesSnoc(kept, e);
        }
        order, stats := CountEntity(kept, e, key, other, order, stats);
        kept := kept + [e];
      }
      i := i + 1;
    }
    assert es[..i] == es;
    r := Some((order, stats));
  }
}
