/** The findings (`suspeitas`) the five detectors emit, their two risk tiers
    and the labels the report counts them by. */
module FraudFindings {
  import opened Text
  import opened PyFloat
  import opened Records

  /** `nivel_risco` */
  datatype Risk = High | Medium

  function RiskLabel(r: Risk): string {
    match r
    case High => "ALTO"
    case Medium => "MÉDIO"
  }

  /** One entry of the `detalhes` list of a volume finding. */
  datatype ReturnDetail = ReturnDetail(date: Value, kind: Value, amount: FloatVal, user: Value, returnId: Value)

  /** One entry of `todas_movimentacoes` in the short-interval detector;
      `origin` is its `tipo` (`DEVOLUCAO`, `AJUSTE` or `CANCELAMENTO`). */
  datatype Movement = Movement(origin: string, sku: Value, store: Value, user: Value,
                               date: Value, kind: Value, amount: FloatVal, doc: Doc)

  /** The per-store counters of `_calcular_estatisticas_lojas`. */
  datatype StoreStats = StoreStats(movements: nat, exchanges: nat, cancellations: nat)

  /** The per-customer and per-product counters of
      `_calcular_estatisticas_clientes` and `_calcular_estatisticas_produtos`;
      `others` is `skus_envolvidos` for a customer and `clientes_envolvidos`
      for a product. */
  datatype EntityStats = EntityStats(occurrences: nat, exchanges: nat, cancellations: nat,
                                     adjustments: nat, stores: set<Value>, others: set<Value>)

  /** A finding, one constructor per `tipo_fraude`. The display fields that
      `round()` or the clock compute are not part of it. */
  datatype Finding =
    | VolumeAnomaly(sku: string, store: string, count: nat, mean: real,
                    details: seq<ReturnDetail>, risk: Risk)
    | AdjustmentAndReturn(sku: string, adjustmentStore: Value, returnStore: Value,
                          adjustmentDate: Value, returnDate: Value, adjustment: Doc, returnDoc: Doc)
    | HighExchangeRate(store: string, rate: real, storeStats: StoreStats, risk: Risk)
    | HighCancellationRate(store: string, rate: real, storeStats: StoreStats, risk: Risk)
    | ShortInterval(sku: string, store: string, user: Value, first: Movement, second: Movement)
    | RepeatCustomer(customer: string, entityStats: EntityStats, risk: Risk)
    | RepeatProduct(product: string, entityStats: EntityStats, risk: Risk)

  const VolumeType: string := "Volume anômalo de devoluções"
  const AdjustmentType: string := "Produto em ajuste e troca simultâneos"
  const ExchangeRateType: string := "Percentual de trocas acima do padrão"
  const CancellationRateType: string := "Percentual de cancelamentos acima do padrão"
  const IntervalType: string := "Movimentações suspeitas em curto intervalo"
  const CustomerType: string := "Cliente reincidente em trocas/divergências"
  const ProductType: string := "Produto reincidente em trocas/divergências"

  /** `tipo_fraude` */
  function FraudType(f: Finding): string {
    match f
    case VolumeAnomaly(_, _, _, _, _, _) => VolumeType
    case AdjustmentAndReturn(_, _, _, _, _, _, _) => AdjustmentType
    case HighExchangeRate(_, _, _, _) => ExchangeRateType
    case HighCancellationRate(_, _, _, _) => CancellationRateType
    case ShortInterval(_, _, _, _, _) => IntervalType
    case RepeatCustomer(_, _, _) => CustomerType
    case RepeatProduct(_, _, _) => ProductType
  }

  /** `nivel_risco`: the two detectors that carry no tier always say `ALTO`. */
  function RiskOf(f: Finding): Risk {
    match f
    case AdjustmentAndReturn(_, _, _, _, _, _, _) => High
    case ShortInterval(_, _, _, _, _) => High
    case _ => f.risk
  }

  /** `self.config` */
  datatype Config = Config(exchangeRate: real, cancellationRate: real, intervalHours: nat,
                           minimumOccurrences: nat, valueDifference: real)

  const Settings: Config := Config(0.15, 0.10, 24, 3, 0.20)

  /** `f"{sku}_{loja}"` for two field values. */
  function GroupKey(sku: Value, store: Value): string {
    Render(sku) + "_" + Render(store)
  }

  /** `sku, loja = chave.split('_', 1)`. Every key is built by `GroupKey`
      and so holds a `_`; the `[key]` case of the split is therefore never
      taken (`GroupKeyParts`). */
  function KeyParts(key: string): (string, string) {
    var parts := SplitOnce(key, "_");
    if |parts| == 2 then (parts[0], parts[1]) else (key, "")
  }

  /** Splitting a key at its first `_` joins back to the key; it gives back
      the SKU and the store exactly when the SKU text holds no `_`. */
  lemma GroupKeyParts(sku: Value, store: Value)
    ensures KeyParts(GroupKey(sku, store)).0 + "_" + KeyParts(GroupKey(sku, store)).1 == GroupKey(sku, store)
    ensures '_' !in Render(sku) ==> KeyParts(GroupKey(sku, store)) == (Render(sku), Render(store))
  {
    var key := GroupKey(sku, store);
    var s := Render(sku);
    assert OccursAt(key, "_", |s|) by {
      assert key[|s|..|s| + 1] == "_";
    }
    ContainsAt(key, "_", |s|);
    if '_' !in s {
      SplitOnceJoined(s, '_', Render(store));
    }
  }

  /** Two different (SKU, store) pairs share a key when the SKU holds a `_`:
      `A_B` in store `C` and `A` in store `B_C` are one group, reported as
      SKU `A` in store `B_C`. */
  lemma KeyCollision()
    ensures GroupKey(Str("A_B"), Str("C")) == GroupKey(Str("A"), Str("B_C"))
    ensures KeyParts(GroupKey(Str("A_B"), Str("C"))) == ("A", "B_C")
  {
    assert GroupKey(Str("A_B"), Str("C")) == "A_B_C";
    assert GroupKey(Str("A"), Str("B_C")) == "A_B_C";
    assert 'A' != '_';
    GroupKeyParts(Str("A"), Str("B_C"));
  }
}
