/** `detectar_trocas_mais_saidas_que_entradas`: returns grouped by the
    string key `sku_loja`; a group is anomalous when its size exceeds three
    times the mean group size. */
module FraudVolume {
  import opened Text
  import opened Records
  import opened Grouping
  import opened FraudValues
  import opened FraudFindings

  function VolumeKey(d: Doc): string {
    GroupKey(Field(d, "SKU"), Field(d, "LOJA"))
  }

  /** The `detalhes` entry of one return. */
  function Detail(d: Doc): ReturnDetail {
    ReturnDetail(Field(d, "DATA_DEVOLUCAO"), Field(d, "TIPOMOVIMENTACAO"),
                 ConvertValue(Get(d, "DIFERENCA_VALOR", Str("0"))),
                 Field(d, "IDUSUARIO"), Field(d, "ID_DEVOLUCAO"))
  }

  function Details(ds: seq<Doc>): seq<ReturnDetail> {
    seq(|ds|, i requires 0 <= i < |ds| => Detail(ds[i]))
  }

  function Max(a: nat, b: nat): nat {
    if a < b then b else a
  }

  /** `total_devolucoes / max(total_produtos, 1)` */
  function Mean(total: nat, groups: nat): real {
    total as real / Max(groups, 1) as real
  }

  /** The finding, if any, for the group `k` of `rets` under the grouping
      `key`, among `groups` groups. */
  function GroupFinding(rets: seq<Doc>, key: Doc -> string, groups: nat, k: string): seq<Finding> {
    var members := Members(rets, key, k);
    var mean := Mean(|rets|, groups);
    if |members| as real > mean * 3.0 then
      var (sku, store) := KeyParts(k);
      [VolumeAnomaly(sku, store, |members|, mean, Details(members),
                     if |members| as real > mean * 5.0 then High else Medium)]
    else []
  }

  function GroupStep(rets: seq<Doc>, key: Doc -> string, groups: nat): string -> seq<Finding> {
    k => GroupFinding(rets, key, groups, k)
  }

  /** None without returns, otherwise one finding per anomalous group in
      order of first appearance. */
  function Anomalies(rets: seq<Doc>, key: Doc -> string): seq<Finding> {
    if |rets| == 0 then []
    else
      var keys := Keys(rets, key);
      FlatMap(keys, GroupStep(rets, key, |keys|))
  }

  /** The findings of the detector. */
  function VolumeFindings(db: Database): seq<Finding> {
    Anomalies(Collection(db, Returns), VolumeKey)
  }

  /** The second pass of the detector: the groups in insertion order, each
      compared with three and five times the mean group size. */
  method FlagEach(rets: seq<Doc>, key: Doc -> string, keys: seq<string>, groups: map<string, seq<Doc>>)
    returns (findings: seq<Finding>)
    requires forall k :: k in keys ==> k in groups && groups[k] == Members(rets, key, k)
    ensures findings == FlatMap(keys, GroupStep(rets, key, |keys|))
  {
    var mean := Mean(|rets|, |keys|);
    findings := [];
    var j := 0;
    while j < |keys|
      invariant 0 <= j <= |keys|
      invariant findings == FlatMap(keys[..j], GroupStep(rets, key, |keys|))
    {
      var k := keys[j];
      var members := groups[k];
      if |members| as real > mean * 3.0 {
        var (sku, store) := KeyParts(k);
        var risk := if |members| as real > mean * 5.0 then High else Medium;
        findings := findings + [VolumeAnomaly(sku, store, |members|, mean, Details(members), risk)];
      }
      assert keys[..j + 1] == keys[..j] + [k];
      FlatMapSnoc(keys[..j], k, GroupStep(rets, key, |keys|));
      j := j + 1;
    }
    assert keys[..j] == keys;
  }

  /** The detector: one pass fills the groups, a second walks them in
      insertion order. The grouping is a parameter so that the proof does not
      depend on how the key text is built. */
  method FlagGroups(rets: seq<Doc>, key: Doc -> string) returns (findings: seq<Finding>)
    ensures findings == Anomalies(rets, key)
  {
    if |rets| == 0 {
      return [];
    }
    var keys, groups := GroupBy(rets, key);
    findings := FlagEach(rets, key, keys, groups);
  }

  /** `detectar_trocas_mais_saidas_que_entradas` */
  method DetectVolumeAnomalies(db: Database) returns (findings: seq<Finding>)
    ensures findings == VolumeFindings(db)
  {
    findings := FlagGroups(Collection(db, Returns), VolumeKey);
  }

  // ---------------------------------------------------------------------
  // Properties
  // ---------------------------------------------------------------------

  /** Comparing a count with a multiple of the mean is comparing
      cross-multiplied integers. */
  lemma AboveMultipleOfMean(count: nat, total: nat, groups: nat, m: nat)
    requires groups >= 1
    ensures count as real > Mean(total, groups) * m as real <==> count * groups > m * total
  {
    var g := groups as real;
    var mean := total as real / g;
    assert mean * g == total as real;
    assert (count as real > mean * m as real) == (count as real * g > mean * m as real * g);
    assert mean * m as real * g == (m * total) as real;
    assert count as real * g == (count * groups) as real;
  }

  /** Every finding comes from one of the groups. */
  lemma FindingGroup(rets: seq<Doc>, key: Doc -> string, f: Finding) returns (k: string)
    requires f in Anomalies(rets, key)
    ensures k in Keys(rets, key) && f in GroupFinding(rets, key, |Keys(rets, key)|, k)
  {
    var keys := Keys(rets, key);
    FlatMapMember(keys, GroupStep(rets, key, |keys|), f);
    k :| k in keys && f in GroupStep(rets, key, |keys|)(k);
  }

  /** Every key splits at its first `_` into two parts that join back to it. */
  ghost predicate Rejoins(key: Doc -> string) {
    forall d :: KeyParts(key(d)).0 + "_" + KeyParts(key(d)).1 == key(d)
  }

  lemma VolumeKeyRejoins()
    ensures Rejoins(VolumeKey)
  {
    forall d ensures KeyParts(VolumeKey(d)).0 + "_" + KeyParts(VolumeKey(d)).1 == VolumeKey(d) {
      GroupKeyParts(Field(d, "SKU"), Field(d, "LOJA"));
    }
  }

  lemma AnomalyFacts(rets: seq<Doc>, key: Doc -> string, f: Finding)
    requires Rejoins(key) && f in Anomalies(rets, key)
    ensures var keys := Keys(rets, key);
            f.VolumeAnomaly? &&
            f.sku + "_" + f.store in keys &&
            f.count == |Members(rets, key, f.sku + "_" + f.store)| &&
            f.mean == |rets| as real / |keys| as real &&
            f.count as real > 3.0 * f.mean &&
            (f.risk == High <==> f.count as real > 5.0 * f.mean) &&
            f.count * |keys| > 3 * |rets| &&
            (f.risk == High <==> f.count * |keys| > 5 * |rets|)
  {
    var k := FindingGroup(rets, key, f);
    AboveMultipleOfMean(f.count, |rets|, |Keys(rets, key)|, 3);
    AboveMultipleOfMean(f.count, |rets|, |Keys(rets, key)|, 5);
    var i :| 0 <= i < |rets| && key(rets[i]) == k;
    assert KeyParts(key(rets[i])).0 + "_" + KeyParts(key(rets[i])).1 == key(rets[i]);
  }

  lemma AnomalyFlagged(rets: seq<Doc>, key: Doc -> string, k: string)
    requires Rejoins(key) && k in Keys(rets, key)
    ensures var keys := Keys(rets, key);
            (exists f :: f in Anomalies(rets, key) && f.VolumeAnomaly? && f.sku + "_" + f.store == k) <==>
            |Members(rets, key, k)| * |keys| > 3 * |rets|
  {
    var keys := Keys(rets, key);
    var count := |Members(rets, key, k)|;
    AboveMultipleOfMean(count, |rets|, |keys|, 3);
    var i :| 0 <= i < |rets| && key(rets[i]) == k;
    assert KeyParts(key(rets[i])).0 + "_" + KeyParts(key(rets[i])).1 == key(rets[i]);
    if count * |keys| > 3 * |rets| {
      var f := GroupFinding(rets, key, |keys|, k)[0];
      FlatMapMember(keys, GroupStep(rets, key, |keys|), f);
      assert f.sku + "_" + f.store == k;
    }
    if exists f :: f in Anomalies(rets, key) && f.VolumeAnomaly? && f.sku + "_" + f.store == k {
      var f :| f in Anomalies(rets, key) && f.VolumeAnomaly? && f.sku + "_" + f.store == k;
      AnomalyFacts(rets, key, f);
    }
  }

  /** Every finding of the detector is a volume anomaly. */
  lemma VolumeKinds(db: Database)
    ensures forall f :: f in VolumeFindings(db) ==> f.VolumeAnomaly?
  {
    forall f | f in VolumeFindings(db) ensures f.VolumeAnomaly? {
      VolumeFindingFacts(db, f);
    }
  }

  /** Every finding names a group, counts its members, carries the mean group
      size, lies above three times that mean and is `ALTO` exactly when it
      lies above five times it. */
  lemma VolumeFindingFacts(db: Database, f: Finding)
    requires f in VolumeFindings(db)
    ensures var rets := Collection(db, Returns);
            var keys := Keys(rets, VolumeKey);
            f.VolumeAnomaly? &&
            f.sku + "_" + f.store in keys &&
            f.count == |Members(rets, VolumeKey, f.sku + "_" + f.store)| &&
            f.mean == |rets| as real / |keys| as real &&
            f.count as real > 3.0 * f.mean &&
            (f.risk == High <==> f.count as real > 5.0 * f.mean)
  {
    VolumeKeyRejoins();
    AnomalyFacts(Collection(db, Returns), VolumeKey, f);
  }

  /** A group is reported exactly when its size times the number of groups
      exceeds three times the number of returns. */
  lemma VolumeFlagged(db: Database, k: string)
    requires k in Keys(Collection(db, Returns), VolumeKey)
    ensures var rets := Collection(db, Returns);
            (exists f :: f in VolumeFindings(db) && f.VolumeAnomaly? && f.sku + "_" + f.store == k) <==>
            |Members(rets, VolumeKey, k)| * |Keys(rets, VolumeKey)| > 3 * |rets|
  {
    VolumeKeyRejoins();
    AnomalyFlagged(Collection(db, Returns), VolumeKey, k);
  }

  /** A reported group is `ALTO` exactly when its size times the number of
      groups exceeds five times the number of returns. */
  lemma VolumeHighRisk(db: Database, f: Finding)
    requires f in VolumeFindings(db)
    ensures var rets := Collection(db, Returns);
            f.VolumeAnomaly? && (f.risk == High <==> f.count * |Keys(rets, VolumeKey)| > 5 * |rets|)
  {
    VolumeKeyRejoins();
    AnomalyFacts(Collection(db, Returns), VolumeKey, f);
  }

  lemma {:induction false} MultiplyMonotone(a: nat, b: nat, c: nat)
    requires b <= c
    ensures a * b <= a * c
    decreases a
  {
    if a > 0 {
      MultiplyMonotone(a - 1, b, c);
      assert a * b == (a - 1) * b + b;
      assert a * c == (a - 1) * c + c;
    }
  }

  /** With three groups or fewer none exceeds three times the mean. */
  lemma AnomaliesNeedFourGroups(rets: seq<Doc>, key: Doc -> string)
    requires |Keys(rets, key)| <= 3
    ensures Anomalies(rets, key) == []
  {
    var keys := Keys(rets, key);
    forall k | k in keys ensures GroupFinding(rets, key, |keys|, k) == [] {
      var count := |Members(rets, key, k)|;
      AboveMultipleOfMean(count, |rets|, |keys|, 3);
      MultiplyMonotone(count, |keys|, 3);
      assert count * 3 <= |rets| * 3;
    }
    if Anomalies(rets, key) != [] {
      var k := FindingGroup(rets, key, Anomalies(rets, key)[0]);
    }
  }

  /** No group can exceed three times the mean unless there are at least
      four groups. */
  lemma FewGroupsNoFindings(db: Database)
    requires |Keys(Collection(db, Returns), VolumeKey)| <= 3
    ensures VolumeFindings(db) == []
  {
    AnomaliesNeedFourGroups(Collection(db, Returns), VolumeKey);
  }

  /** The group sizes add up to the number of returns. */
  lemma VolumeCountsSum(db: Database)
    ensures var rets := Collection(db, Returns);
            SumSizes(rets, VolumeKey, Keys(rets, VolumeKey)) == |rets|
  {
    GroupSizesSum(Collection(db, Returns), VolumeKey);
  }
}
