/** `detectar_clientes_produtos_reincidentes`: customers and products with
    at least three occurrences across returns, cancellations and stock
    adjustments. */
module FraudRepeat {
  import opened Text
  import opened Records
  import opened Grouping
  import opened FraudFindings
  import opened FraudEvents
  import opened FraudStats

  /** The two passes of the detector: customers keyed by `IDUSUARIO`
      (collecting SKUs), then products keyed by `SKU` (collecting customers). */
  datatype Entity = Customer | Product

  function KeyField(kind: Entity): string {
    match kind
    case Customer => "IDUSUARIO"
    case Product => "SKU"
  }

  function OtherField(kind: Entity): string {
    match kind
    case Customer => "SKU"
    case Product => "IDUSUARIO"
  }

  /** The occurrence count above which a finding is `ALTO`. */
  function HighAbove(kind: Entity): nat {
    match kind
    case Customer => 10
    case Product => 15
  }

  /** The finding, if any, for one customer or product. */
  function EntityFindings(kind: Entity, v: Value, s: EntityStats): seq<Finding> {
    if s.occurrences >= Settings.minimumOccurrences then
      var risk := if s.occurrences > HighAbove(kind) then High else Medium;
      match kind
      case Customer => [RepeatCustomer(Render(v), s, risk)]
      case Product => [RepeatProduct(Render(v), s, risk)]
    else []
  }

  /** The counters of customer or product `v`. */
  function EntityOf(db: Database, kind: Entity, v: Value): EntityStats {
    EntityCounts(GroupOf(EntityEvents(db), KeyField(kind), v), OtherField(kind))
  }

  function EntityStep(db: Database, kind: Entity): Value -> seq<Finding> {
    v => EntityFindings(kind, v, EntityOf(db, kind, v))
  }

  function EntityStatsStep(kind: Entity, stats: map<Value, EntityStats>): Value -> seq<Finding> {
    v => if v in stats then EntityFindings(kind, v, stats[v]) else []
  }

  /** The entities one pass lists, in insertion order. */
  function EntityKeys(db: Database, kind: Entity): seq<Value> {
    KeysBy(EntityEvents(db), KeyField(kind))
  }

  predicate PassRaises(db: Database, kind: Entity) {
    AnyRaises(Present(EntityEvents(db), KeyField(kind)))
  }

  /** The findings of one pass. */
  function PassFindings(db: Database, kind: Entity): seq<Finding> {
    FlatMap(EntityKeys(db, kind), EntityStep(db, kind))
  }

  /** The findings of the detector: none when either pass raises, otherwise
      the customers' findings followed by the products'. */
  function RepeatFindings(db: Database): seq<Finding> {
    if PassRaises(db, Customer) || PassRaises(db, Product) then []
    else PassFindings(db, Customer) + PassFindings(db, Product)
  }

  /** The loop over `clientes_stats.items()` or `produtos_stats.items()`. */
  method FlagEntities(kind: Entity, order: seq<Value>, stats: map<Value, EntityStats>)
    returns (findings: seq<Finding>)
    requires forall v :: v in order ==> v in stats
    ensures findings == FlatMap(order, EntityStatsStep(kind, stats))
  {
    findings := [];
    var j := 0;
    while j < |order|
      invariant 0 <= j <= |order|
      invariant findings == FlatMap(order[..j], EntityStatsStep(kind, stats))
    {
      var v := order[j];
      var s := stats[v];
      ghost var before := findings;
      if s.occurrences >= Settings.minimumOccurrences {
        var risk := if s.occurrences > HighAbove(kind) then High else Medium;
        var f := match kind
                 case Customer => RepeatCustomer(Render(v), s, risk)
                 case Product => RepeatProduct(Render(v), s, risk);
        findings := findings + [f];
      } else {
        assert findings == before + [];
      }
      assert order[..j + 1] == order[..j] + [v];
      FlatMapSnoc(order[..j], v, EntityStatsStep(kind, stats));
      j := j + 1;
    }
    assert order[..j] == order;
  }

  /** One pass: the statistics, then the findings; `None` when it raises. */
  method RunPass(db: Database, kind: Entity) returns (r: Option<seq<Finding>>)
    ensures r.None? <==> PassRaises(db, kind)
    ensures r.Some? ==> r.value == PassFindings(db, kind)
  {
    var st := EntityStatistics(db, KeyField(kind), OtherField(kind));
    if st.None? {
      return None;
    }
    var order := st.value.0;
    var stats := st.value.1;
    var findings := FlagEntities(kind, order, stats);
    FlatMapCongruent(order, EntityStatsStep(kind, stats), EntityStep(db, kind));
    return Some(findings);
  }

  /** `detectar_clientes_produtos_reincidentes` */
  method DetectRepeats(db: Database) returns (findings: seq<Finding>)
    ensures findings == RepeatFindings(db)
  {
    var customers := RunPass(db, Customer);
    if customers.None? {
      return [];
    }
    var products := RunPass(db, Product);
    if products.None? {
      return [];
    }
    findings := customers.value + products.value;
  }

  // ---------------------------------------------------------------------
  // Properties
  // ---------------------------------------------------------------------

  /** The listed entities are non-empty key values. */
  lemma EntityKeyTruthy(db: Database, kind: Entity, v: Value)
    requires v in EntityKeys(db, kind)
    ensures Truthy(v) && v == Str(Render(v))
  {
    var kept := Present(EntityEvents(db), KeyField(kind));
    var i :| 0 <= i < |kept| && FieldOf(KeyField(kind))(kept[i]) == v;
    assert HasKey(KeyField(kind))(kept[i]);
  }

  /** The name a finding carries. */
  function Subject(f: Finding): string
    requires f.RepeatCustomer? || f.RepeatProduct?
  {
    if f.RepeatCustomer? then f.customer else f.product
  }

  predicate OfKind(f: Finding, kind: Entity) {
    match kind
    case Customer => f.RepeatCustomer?
    case Product => f.RepeatProduct?
  }

  /** The finding of one entity names it, carries its counters, needs three
      occurrences and is `ALTO` above the kind's limit. */
  lemma EntityFindingFacts(kind: Entity, v: Value, s: EntityStats, f: Finding)
    requires f in EntityFindings(kind, v, s)
    ensures OfKind(f, kind) && (f.RepeatCustomer? || f.RepeatProduct?)
    ensures Subject(f) == Render(v) && f.entityStats == s
    ensures s.occurrences >= 3 && (f.risk == High <==> s.occurrences > HighAbove(kind))
  {
  }

  /** Every finding of a pass names a listed entity with at least three
      occurrences, the sum of its returns, cancellations and adjustments; it
      is `ALTO` exactly when the occurrences exceed 10 for a customer or 15
      for a product. */
  lemma PassFindingFacts(db: Database, kind: Entity, f: Finding) returns (v: Value)
    requires f in PassFindings(db, kind)
    ensures v in EntityKeys(db, kind) && Truthy(v) && f in EntityFindings(kind, v, EntityOf(db, kind, v))
    ensures OfKind(f, kind) && (f.RepeatCustomer? || f.RepeatProduct?)
    ensures Subject(f) == v.s && f.entityStats == EntityOf(db, kind, v)
    ensures var s := EntityOf(db, kind, v);
            var field := KeyField(kind);
            s.occurrences == |WithValue(Collection(db, Returns), field, v)| +
                             |WithValue(Collection(db, Cancellations), field, v)| +
                             |WithValue(Collection(db, Adjustments), field, v)| &&
            s.occurrences >= 3 &&
            (f.risk == High <==> s.occurrences > HighAbove(kind))
  {
    var keys := EntityKeys(db, kind);
    FlatMapMember(keys, EntityStep(db, kind), f);
    v :| v in keys && f in EntityStep(db, kind)(v);
    EntityKeyTruthy(db, kind, v);
    EntityCountsSplit(db, KeyField(kind), OtherField(kind), v);
    EntityFindingFacts(kind, v, EntityOf(db, kind, v), f);
  }

  /** Every finding of a pass is of that pass's kind. */
  lemma PassKinds(db: Database, kind: Entity)
    ensures forall f :: f in PassFindings(db, kind) ==> OfKind(f, kind)
  {
    forall f | f in PassFindings(db, kind) ensures OfKind(f, kind) {
      FlatMapMember(EntityKeys(db, kind), EntityStep(db, kind), f);
      var v :| v in EntityKeys(db, kind) && f in EntityStep(db, kind)(v);
      EntityFindingFacts(kind, v, EntityOf(db, kind, v), f);
    }
  }

  /** Every finding of the detector is a repeat customer or product. */
  lemma RepeatKinds(db: Database)
    ensures forall f :: f in RepeatFindings(db) ==> f.RepeatCustomer? || f.RepeatProduct?
  {
    PassKinds(db, Customer);
    PassKinds(db, Product);
  }

  /** Every finding of the detector is one of a pass's findings. */
  lemma RepeatFindingFacts(db: Database, f: Finding) returns (kind: Entity, v: Value)
    requires f in RepeatFindings(db)
    ensures !PassRaises(db, Customer) && !PassRaises(db, Product)
    ensures OfKind(f, kind) && v in EntityKeys(db, kind) && Truthy(v)
    ensures (f.RepeatCustomer? || f.RepeatProduct?) && Subject(f) == v.s && f.entityStats == EntityOf(db, kind, v)
    ensures var s := EntityOf(db, kind, v);
            s.occurrences >= 3 && (f.risk == High <==> s.occurrences > HighAbove(kind))
  {
    if f in PassFindings(db, Customer) {
      kind := Customer;
    } else {
      kind := Product;
    }
    v := PassFindingFacts(db, kind, f);
  }

  /** A listed entity with at least three occurrences is reported. */
  lemma RepeatFlaggedIf(db: Database, kind: Entity, v: Value)
    requires !PassRaises(db, Customer) && !PassRaises(db, Product)
    requires v in EntityKeys(db, kind) && EntityOf(db, kind, v).occurrences >= 3
    ensures exists f :: f in RepeatFindings(db) && OfKind(f, kind) && Subject(f) == Render(v)
  {
    var s := EntityOf(db, kind, v);
    var f := EntityFindings(kind, v, s)[0];
    assert f in EntityStep(db, kind)(v);
    assert f in PassFindings(db, kind) by {
      FlatMapMember(EntityKeys(db, kind), EntityStep(db, kind), f);
    }
    assert f in RepeatFindings(db);
    EntityFindingFacts(kind, v, s, f);
  }

  /** A reported entity has at least three occurrences. */
  lemma RepeatFlaggedOnlyIf(db: Database, kind: Entity, v: Value, f: Finding)
    requires v in EntityKeys(db, kind)
    requires f in RepeatFindings(db) && OfKind(f, kind) && Subject(f) == Render(v)
    ensures EntityOf(db, kind, v).occurrences >= 3
  {
    var kind', w := RepeatFindingFacts(db, f);
    assert kind' == kind;
    EntityKeyTruthy(db, kind, v);
    assert w == v;
  }

  /** A listed entity is reported exactly when it has at least three
      occurrences. */
  lemma RepeatFlagged(db: Database, kind: Entity, v: Value)
    requires !PassRaises(db, Customer) && !PassRaises(db, Product)
    requires v in EntityKeys(db, kind)
    ensures (exists f :: f in RepeatFindings(db) && OfKind(f, kind) && Subject(f) == Render(v)) <==>
            EntityOf(db, kind, v).occurrences >= 3
  {
    if EntityOf(db, kind, v).occurrences >= 3 {
      RepeatFlaggedIf(db, kind, v);
    }
    if exists f :: f in RepeatFindings(db) && OfKind(f, kind) && Subject(f) == Render(v) {
      var f :| f in RepeatFindings(db) && OfKind(f, kind) && Subject(f) == Render(v);
      RepeatFlaggedOnlyIf(db, kind, v, f);
    }
  }

  /** In customers' findings followed by products' findings, nothing after
      a product's finding is a customer's. */
  lemma ProductsAfterCustomers(cs: seq<Finding>, ps: seq<Finding>, i: nat, j: nat)
    requires forall f :: f in cs ==> f.RepeatCustomer?
    requires forall f :: f in ps ==> f.RepeatProduct?
    requires i <= j < |cs + ps| && (cs + ps)[i].RepeatProduct?
    ensures (cs + ps)[j].RepeatProduct?
  {
    forall k | 0 <= k < |cs| ensures (cs + ps)[k].RepeatCustomer? {
      assert (cs + ps)[k] == cs[k] && cs[k] in cs;
    }
    assert (cs + ps)[j] == ps[j - |cs|] && ps[j - |cs|] in ps;
  }

  /** Customers' findings come before products' findings. */
  lemma CustomersFirst(db: Database, i: nat, j: nat)
    requires i <= j < |RepeatFindings(db)|
    requires RepeatFindings(db)[i].RepeatProduct?
    ensures RepeatFindings(db)[j].RepeatProduct?
  {
    PassKinds(db, Customer);
    PassKinds(db, Product);
    ProductsAfterCustomers(PassFindings(db, Customer), PassFindings(db, Product), i, j);
  }

  /** A pass gives at most one finding per listed entity. */
  lemma PassBound(db: Database, kind: Entity)
    ensures |PassFindings(db, kind)| <= |EntityKeys(db, kind)|
  {
    forall v | v in EntityKeys(db, kind) ensures |EntityStep(db, kind)(v)| <= 1 {
      var s := EntityOf(db, kind, v);
      assert |EntityFindings(kind, v, s)| <= 1;
    }
    FlatMapBound(EntityKeys(db, kind), EntityStep(db, kind), 1);
  }

  /** A finding of kind `kind` that names `name`. */
  function NamesEntity(kind: Entity, name: string): Finding -> bool {
    (f: Finding) => OfKind(f, kind) && (f.RepeatCustomer? || f.RepeatProduct?) && Subject(f) == name
  }

  /** One pass names each listed entity at most once and any other name
      never. */
  lemma PassNamesOnce(db: Database, kind: Entity, name: string)
    ensures CountWhere(PassFindings(db, kind), NamesEntity(kind, name)) <=
            if Str(name) in EntityKeys(db, kind) then 1 else 0
  {
    var keys := EntityKeys(db, kind);
    forall k | k in keys && k != Str(name)
      ensures CountWhere(EntityStep(db, kind)(k), NamesEntity(kind, name)) == 0
    {
      EntityKeyTruthy(db, kind, k);
      OtherEntityUnnamed(kind, k, EntityOf(db, kind, k), name);
    }
    assert |EntityStep(db, kind)(Str(name))| <= 1;
    FlatMapCountOne(keys, EntityStep(db, kind), NamesEntity(kind, name), Str(name), 1);
  }

  /** The finding of one entity never names another. */
  lemma OtherEntityUnnamed(kind: Entity, v: Value, s: EntityStats, name: string)
    requires v == Str(Render(v)) && v != Str(name)
    ensures CountWhere(EntityFindings(kind, v, s), NamesEntity(kind, name)) == 0
  {
    var fs := EntityFindings(kind, v, s);
    forall i | 0 <= i < |fs|
      ensures NamesEntity(kind, name)(fs[i]) == false
    {
      EntityFindingFacts(kind, v, s, fs[i]);
    }
    CountWhereUniform(fs, NamesEntity(kind, name), false);
  }

  /** The detector names each listed entity of a kind at most once, and
      any other name never. */
  lemma RepeatNamesOnce(db: Database, kind: Entity, name: string)
    ensures CountWhere(RepeatFindings(db), NamesEntity(kind, name)) <=
            if Str(name) in EntityKeys(db, kind) then 1 else 0
  {
    if !PassRaises(db, Customer) && !PassRaises(db, Product) {
      var other := if kind == Customer then Product else Customer;
      PassNamesOnce(db, kind, name);
      OtherPassUnnamed(db, other, kind, name);
      CountWhereAppend(PassFindings(db, Customer), PassFindings(db, Product), NamesEntity(kind, name));
    }
  }

  /** A pass never names an entity of the other kind. */
  lemma OtherPassUnnamed(db: Database, other: Entity, kind: Entity, name: string)
    requires other != kind
    ensures CountWhere(PassFindings(db, other), NamesEntity(kind, name)) == 0
  {
    var fs := PassFindings(db, other);
    PassKinds(db, other);
    forall i | 0 <= i < |fs|
      ensures NamesEntity(kind, name)(fs[i]) == false
    {
      assert fs[i] in fs && OfKind(fs[i], other);
    }
    CountWhereUniform(fs, NamesEntity(kind, name), false);
  }

  /** At most one finding per listed customer and per listed product, and
      none for a name that is not listed; so there are no more findings
      than listed customers and products together. */
  lemma AtMostOnePerEntity(db: Database)
    ensures forall kind, name :: CountWhere(RepeatFindings(db), NamesEntity(kind, name)) <=
                                 if Str(name) in EntityKeys(db, kind) then 1 else 0
    ensures |RepeatFindings(db)| <= |EntityKeys(db, Customer)| + |EntityKeys(db, Product)|
  {
    PassBound(db, Customer);
    PassBound(db, Product);
    forall kind, name
      ensures CountWhere(RepeatFindings(db), NamesEntity(kind, name)) <=
              if Str(name) in EntityKeys(db, kind) then 1 else 0
    {
      RepeatNamesOnce(db, kind, name);
    }
  }
}
