/** `detectar_movimentacoes_suspeitas_curto_intervalo`: every return, stock
    adjustment and cancellation becomes a movement; the movements with a SKU
    and a store are grouped by `sku_loja`; each group of two or more is
    sorted by date and every two neighbours at most 24 hours apart are
    reported. Sorting a group that holds a null date raises, and the
    detector then reports nothing. */
module FraudInterval {
  import opened Text
  import opened Records
  import opened Grouping
  import opened Sorting
  import opened FraudValues
  import opened FraudFindings

  /** The movement of a return. */
  function ReturnMovement(d: Doc): Movement {
    Movement("DEVOLUCAO", Field(d, "SKU"), Field(d, "LOJA"), Field(d, "IDUSUARIO"),
             Field(d, "DATA_DEVOLUCAO"), Field(d, "TIPOMOVIMENTACAO"),
             ConvertValue(Get(d, "DIFERENCA_VALOR", Str("0"))), d)
  }

  /** The movement of a stock adjustment. */
  function AdjustmentMovement(d: Doc): Movement {
    Movement("AJUSTE", Field(d, "SKU"), Field(d, "LOJA"), Field(d, "IDUSUARIO"),
             Field(d, "DATA_AJUSTE"), Field(d, "TIPO_AJUSTE"),
             ConvertValue(Get(d, "DIFERENCA_VALOR", Str("0"))), d)
  }

  /** The movement of a cancellation; its kind is always `CANCELAMENTO`. */
  function CancellationMovement(d: Doc): Movement {
    Movement("CANCELAMENTO", Field(d, "SKU"), Field(d, "LOJA"), Field(d, "IDUSUARIO"),
             Field(d, "DATA_CANCELAMENTO"), Str("CANCELAMENTO"),
             ConvertValue(Get(d, "VALOR_CANCELAMENTO", Str("0"))), d)
  }

  function MapDocs(docs: seq<Doc>, f: Doc -> Movement): (r: seq<Movement>)
    ensures |r| == |docs| && forall i :: 0 <= i < |docs| ==> r[i] == f(docs[i])
  {
    seq(|docs|, i requires 0 <= i < |docs| => f(docs[i]))
  }

  /** `todas_movimentacoes`: the returns, then the adjustments, then the
      cancellations, each in reading order. A missing collection adds
      nothing. */
  function AllMovements(db: Database): seq<Movement> {
    MapDocs(Collection(db, Returns), ReturnMovement) +
    MapDocs(Collection(db, Adjustments), AdjustmentMovement) +
    MapDocs(Collection(db, Cancellations), CancellationMovement)
  }

  /** `mov['sku'] and mov['loja']` */
  predicate Grouped(m: Movement) {
    Truthy(m.sku) && Truthy(m.store)
  }

  /** `f"{mov['sku']}_{mov['loja']}"` */
  function MoveKey(m: Movement): string {
    GroupKey(m.sku, m.store)
  }

  /** The movements that are grouped, in order. */
  function Candidates(db: Database): seq<Movement> {
    Filter(AllMovements(db), Grouped)
  }

  /** The sort key `x['data']`, a text whenever the sort does not raise. */
  function DateText(m: Movement): string {
    if m.date.Str? then m.date.s else ""
  }

  /** Some movement of `g` has a null date. */
  predicate HasNullDate(g: seq<Movement>)
    ensures HasNullDate(g) <==> exists i :: 0 <= i < |g| && g[i].date.Null?
    decreases |g|
  {
    |g| > 0 && (g[|g| - 1].date.Null? || HasNullDate(g[..|g| - 1]))
  }

  /** Sorting a list of two or more movements compares every one of them, and
      comparing a null date raises. */
  predicate SortRaises(g: seq<Movement>) {
    |g| >= 2 && HasNullDate(g)
  }

  /** The finding, if any, for the neighbours `m1`, `m2` of group `k`. */
  function PairFinding(k: string, m1: Movement, m2: Movement): seq<Finding> {
    if DatesClose(m1.date, m2.date, Settings.intervalHours)
    then [ShortInterval(KeyParts(k).0, KeyParts(k).1, m1.user, m1, m2)]
    else []
  }

  /** The findings for every two neighbours of `s`, in order. */
  function Pairs(k: string, s: seq<Movement>): seq<Finding> {
    Neighbours(s, PairStep(k))
  }

  function PairStep(k: string): (Movement, Movement) -> seq<Finding> {
    (m1, m2) => PairFinding(k, m1, m2)
  }

  /** The findings of group `k`: none below two members, otherwise those of
      its neighbours once sorted by date. */
  function GroupFindings(k: string, g: seq<Movement>): seq<Finding> {
    if |g| < 2 then [] else Pairs(k, SortBy(g, DateText))
  }

  function GroupStep(cands: seq<Movement>, key: Movement -> string): string -> seq<Finding> {
    k => GroupFindings(k, Members(cands, key, k))
  }

  predicate AnySortRaises(cands: seq<Movement>, key: Movement -> string) {
    exists k :: k in Keys(cands, key) && SortRaises(Members(cands, key, k))
  }

  /** The findings over the groups of `cands` under `key`, in insertion
      order, or none when one of the sorts raises. */
  function ShortIntervals(cands: seq<Movement>, key: Movement -> string): seq<Finding> {
    if AnySortRaises(cands, key) then [] else FlatMap(Keys(cands, key), GroupStep(cands, key))
  }

  /** The findings of the detector. */
  function IntervalFindings(db: Database): seq<Finding> {
    ShortIntervals(Candidates(db), MoveKey)
  }

  // ---------------------------------------------------------------------
  // The detector
  // ---------------------------------------------------------------------

  /** One of the loops that fill `todas_movimentacoes`. */
  method AppendMovements(ms: seq<Movement>, docs: seq<Doc>, f: Doc -> Movement)
    returns (ms': seq<Movement>)
    ensures ms' == ms + MapDocs(docs, f)
  {
    ms' := ms;
    var i := 0;
    while i < |docs|
      invariant 0 <= i <= |docs|
      invariant ms' == ms + MapDocs(docs[..i], f)
    {
      assert MapDocs(docs[..i + 1], f) == MapDocs(docs[..i], f) + [f(docs[i])];
      ms' := ms' + [f(docs[i])];
      i := i + 1;
    }
    assert docs[..i] == docs;
  }

  /** The three loops over returns, adjustments and cancellations. */
  method CollectMovements(db: Database) returns (ms: seq<Movement>)
    ensures ms == AllMovements(db)
  {
    ghost var rets := MapDocs(Collection(db, Returns), ReturnMovement);
    ghost var adjs := MapDocs(Collection(db, Adjustments), AdjustmentMovement);
    ghost var cancels := MapDocs(Collection(db, Cancellations), CancellationMovement);
    ms := AppendMovements([], Collection(db, Returns), ReturnMovement);
    assert ms == rets;
    ms := AppendMovements(ms, Collection(db, Adjustments), AdjustmentMovement);
    assert ms == rets + adjs;
    ms := AppendMovements(ms, Collection(db, Cancellations), CancellationMovement);
    assert ms == rets + adjs + cancels;
  }

  /** `movimentacoes.sort(key=lambda x: x['data'])`, on a list whose dates are
      all texts. */
  method SortByDate(g: seq<Movement>) returns (sorted: seq<Movement>)
    ensures sorted == SortBy(g, DateText)
  {
    var a := new Movement[|g|](i requires 0 <= i < |g| => g[i]);
    assert a[..] == g;
    SortInPlace(a, DateText);
    sorted := a[..];
  }

  /** The loop over `range(len(movimentacoes) - 1)`. */
  method FlagPairs(k: string, s: seq<Movement>) returns (findings: seq<Finding>)
    ensures findings == Pairs(k, s)
  {
    findings := [];
    if |s| < 2 {
      return;
    }
    var i := 0;
    while i < |s| - 1
      invariant 0 <= i <= |s| - 1
      invariant findings == Pairs(k, s[..i + 1])
    {
      var m1 := s[i];
      var m2 := s[i + 1];
      ghost var before := findings;
      if DatesClose(m1.date, m2.date, Settings.intervalHours) {
        var (sku, store) := KeyParts(k);
        findings := findings + [ShortInterval(sku, store, m1.user, m1, m2)];
      } else {
        assert findings == before + [];
      }
      NeighboursPrefix(s, i, PairStep(k));
      i := i + 1;
    }
    assert s[..i + 1] == s;
  }

  lemma {:induction false} SomeSortRaises(cands: seq<Movement>, key: Movement -> string, k: string)
    requires k in Keys(cands, key) && SortRaises(Members(cands, key, k))
    ensures ShortIntervals(cands, key) == []
  {
  }

  /** No group among `ks` raises when sorted. */
  ghost predicate NoneRaise(cands: seq<Movement>, key: Movement -> string, ks: seq<string>)
    decreases |ks|
  {
    |ks| == 0 || (NoneRaise(cands, key, ks[..|ks| - 1]) && !SortRaises(Members(cands, key, ks[|ks| - 1])))
  }

  lemma NoneRaisePrefix(cands: seq<Movement>, key: Movement -> string, ks: seq<string>, j: nat)
    requires j < |ks|
    ensures NoneRaise(cands, key, ks[..j + 1]) <==>
            NoneRaise(cands, key, ks[..j]) && !SortRaises(Members(cands, key, ks[j]))
  {
    assert ks[..j + 1][..j] == ks[..j];
  }

  lemma {:induction false} NoSortRaises(cands: seq<Movement>, key: Movement -> string, ks: seq<string>)
    requires NoneRaise(cands, key, ks)
    ensures forall k :: k in ks ==> !SortRaises(Members(cands, key, k))
    decreases |ks|
  {
    if |ks| > 0 {
      NoSortRaises(cands, key, ks[..|ks| - 1]);
      assert ks == ks[..|ks| - 1] + [ks[|ks| - 1]];
    }
  }

  /** When no group raises, the findings are those of every group. */
  lemma NoneRaiseAll(cands: seq<Movement>, key: Movement -> string)
    requires NoneRaise(cands, key, Keys(cands, key))
    ensures ShortIntervals(cands, key) == FlatMap(Keys(cands, key), GroupStep(cands, key))
  {
    NoSortRaises(cands, key, Keys(cands, key));
  }

  /** The body of the loop over the groups: `None` when sorting the group
      raises, otherwise its findings. */
  method FlagGroup(k: string, g: seq<Movement>) returns (r: Option<seq<Finding>>)
    ensures r.None? <==> SortRaises(g)
    ensures r.Some? ==> r.value == GroupFindings(k, g)
  {
    if |g| < 2 {
      return Some([]);
    }
    if HasNullDate(g) {
      return None;
    }
    var sorted := SortByDate(g);
    var own := FlagPairs(k, sorted);
    return Some(own);
  }

  /** The loop over `movimentacoes_por_sku.items()`; `cands`, the grouped
      movements, is ghost. */
  method FlagIntervals(ghost cands: seq<Movement>, key: Movement -> string,
                       keys: seq<string>, groups: map<string, seq<Movement>>)
    returns (findings: seq<Finding>)
    requires keys == Keys(cands, key)
    requires forall k :: k in keys ==> k in groups && groups[k] == Members(cands, key, k)
    ensures findings == ShortIntervals(cands, key)
  {
    findings := [];
    var j := 0;
    while j < |keys|
      invariant 0 <= j <= |keys|
      invariant NoneRaise(cands, key, keys[..j])
      invariant findings == FlatMap(keys[..j], GroupStep(cands, key))
    {
      var k := keys[j];
      var own := FlagGroup(k, groups[k]);
      if own.None? {
        SomeSortRaises(cands, key, k);
        return [];
      }
      assert findings + own.value == FlatMap(keys[..j + 1], GroupStep(cands, key)) by {
        assert own.value == GroupStep(cands, key)(k);
        FlatMapPrefix(keys, j, GroupStep(cands, key));
      }
      assert NoneRaise(cands, key, keys[..j + 1]) by {
        NoneRaisePrefix(cands, key, keys, j);
      }
      findings := findings + own.value;
      j := j + 1;
    }
    assert keys[..j] == keys;
    NoneRaiseAll(cands, key);
  }

  /** `detectar_movimentacoes_suspeitas_curto_intervalo` */
  method DetectShortIntervals(db: Database) returns (findings: seq<Finding>)
    ensures findings == IntervalFindings(db)
  {
    var ms := CollectMovements(db);
    var keys, groups := GroupWhere(ms, Grouped, MoveKey);
    findings := FlagIntervals(Candidates(db), MoveKey, keys, groups);
  }

  // ---------------------------------------------------------------------
  // Properties
  // ---------------------------------------------------------------------

  /** The finding of two neighbours carries the group's SKU and store and
      the first one's user, and exists only when they are close. */
  lemma PairFindingFacts(k: string, m1: Movement, m2: Movement, f: Finding)
    requires f in PairFinding(k, m1, m2)
    ensures f == ShortInterval(KeyParts(k).0, KeyParts(k).1, m1.user, m1, m2)
    ensures DatesClose(m1.date, m2.date, Settings.intervalHours)
  {
  }

  /** Every pair finding comes from two neighbours. */
  lemma PairsMember(k: string, s: seq<Movement>, f: Finding) returns (i: nat)
    requires f in Pairs(k, s)
    ensures i + 1 < |s| && f in PairFinding(k, s[i], s[i + 1])
  {
    i := NeighboursMember(s, PairStep(k), f);
  }

  /** Every two neighbours contribute their finding. */
  lemma PairsContain(k: string, s: seq<Movement>, i: nat)
    requires i + 1 < |s|
    ensures forall f :: f in PairFinding(k, s[i], s[i + 1]) ==> f in Pairs(k, s)
  {
    NeighboursContain(s, PairStep(k), i);
  }

  /** At most one finding per two neighbours. */
  lemma PairsBound(k: string, s: seq<Movement>)
    requires |s| > 0
    ensures |Pairs(k, s)| + 1 <= |s|
  {
    forall a, b ensures |PairStep(k)(a, b)| <= 1 {
    }
    NeighboursBound(s, PairStep(k));
  }

  /** The per-group facts behind every finding, for any grouping `key`. */
  lemma ShortIntervalFacts(cands: seq<Movement>, key: Movement -> string, f: Finding)
    returns (k: string, i: nat)
    requires f in ShortIntervals(cands, key)
    ensures var g := Members(cands, key, k);
            var s := SortBy(g, DateText);
            k in Keys(cands, key) && |g| >= 2 && !HasNullDate(g) && i + 1 < |s| &&
            f == ShortInterval(KeyParts(k).0, KeyParts(k).1, s[i].user, s[i], s[i + 1]) &&
            DatesClose(s[i].date, s[i + 1].date, Settings.intervalHours)
  {
    var keys := Keys(cands, key);
    FlatMapMember(keys, GroupStep(cands, key), f);
    k :| k in keys && f in GroupStep(cands, key)(k);
    var g := Members(cands, key, k);
    assert !SortRaises(g);
    var s := SortBy(g, DateText);
    i := PairsMember(k, s, f);
    PairFindingFacts(k, s[i], s[i + 1], f);
  }

  /** Sorting keeps the movements of the group, and in date order. */
  lemma SortedNeighbours(g: seq<Movement>, i: nat)
    requires !HasNullDate(g) && i + 1 < |SortBy(g, DateText)|
    ensures var s := SortBy(g, DateText);
            s[i] in g && s[i + 1] in g && s[i].date.Str? && s[i + 1].date.Str? &&
            LexLe(s[i].date.s, s[i + 1].date.s)
  {
    var s := SortBy(g, DateText);
    SortBySorted(g, DateText);
    assert s[i] in g && s[i + 1] in g by {
      SortByPermutes(g, DateText);
      assert s[i] in multiset(s) && s[i + 1] in multiset(s);
    }
  }

  /** Every finding of the detector is a pair of close movements. */
  lemma IntervalKinds(db: Database)
    ensures forall f :: f in IntervalFindings(db) ==> f.ShortInterval?
  {
    forall f | f in IntervalFindings(db) ensures f.ShortInterval? {
      var k, i := ShortIntervalFacts(Candidates(db), MoveKey, f);
    }
  }

  /** Every finding names two movements of one group `k` with a SKU and a
      store, neighbours once the group is sorted by date, the first no later
      than the second and at most 24 hours apart; the finding carries the
      first one's user, and its SKU and store join back to `k`. No date of
      the group is null. */
  lemma IntervalFindingFacts(db: Database, f: Finding) returns (k: string, i: nat)
    requires f in IntervalFindings(db)
    ensures var cands := Candidates(db);
            var g := Members(cands, MoveKey, k);
            var s := SortBy(g, DateText);
            k in Keys(cands, MoveKey) && |g| >= 2 && !HasNullDate(g) && i + 1 < |s| &&
            f == ShortInterval(KeyParts(k).0, KeyParts(k).1, s[i].user, s[i], s[i + 1])
    ensures f.ShortInterval? && f.sku + "_" + f.store == k && f.user == f.first.user
    ensures f.first in AllMovements(db) && Grouped(f.first) && MoveKey(f.first) == k
    ensures f.second in AllMovements(db) && Grouped(f.second) && MoveKey(f.second) == k
    ensures f.first.date.Str? && f.second.date.Str? && LexLe(f.first.date.s, f.second.date.s)
    ensures DatesClose(f.first.date, f.second.date, Settings.intervalHours)
  {
    var cands := Candidates(db);
    k, i := ShortIntervalFacts(cands, MoveKey, f);
    var g := Members(cands, MoveKey, k);
    SortedNeighbours(g, i);
    MembersMember(cands, MoveKey, k, f.first);
    MembersMember(cands, MoveKey, k, f.second);
    FilterMember(AllMovements(db), Grouped, f.first);
    FilterMember(AllMovements(db), Grouped, f.second);
    GroupKeyParts(f.first.sku, f.first.store);
  }

  /** Two close neighbours of a group are reported. */
  lemma CloseNeighboursFlagged(cands: seq<Movement>, key: Movement -> string, k: string, i: nat)
    requires !AnySortRaises(cands, key) && k in Keys(cands, key)
    requires i + 1 < |SortBy(Members(cands, key, k), DateText)|
    requires var s := SortBy(Members(cands, key, k), DateText);
             DatesClose(s[i].date, s[i + 1].date, Settings.intervalHours)
    ensures var s := SortBy(Members(cands, key, k), DateText);
            ShortInterval(KeyParts(k).0, KeyParts(k).1, s[i].user, s[i], s[i + 1]) in ShortIntervals(cands, key)
  {
    var g := Members(cands, key, k);
    var s := SortBy(g, DateText);
    var f := ShortInterval(KeyParts(k).0, KeyParts(k).1, s[i].user, s[i], s[i + 1]);
    assert f in Pairs(k, s) by {
      PairsContain(k, s, i);
      assert f in PairFinding(k, s[i], s[i + 1]);
    }
    assert f in GroupStep(cands, key)(k);
    assert f in FlatMap(Keys(cands, key), GroupStep(cands, key)) by {
      FlatMapMember(Keys(cands, key), GroupStep(cands, key), f);
    }
  }

  /** A pair of neighbours is reported exactly when their dates are at
      most 24 hours apart. */
  lemma ShortIntervalFlagged(cands: seq<Movement>, key: Movement -> string, k: string, i: nat)
    requires !AnySortRaises(cands, key) && k in Keys(cands, key)
    requires i + 1 < |SortBy(Members(cands, key, k), DateText)|
    ensures var s := SortBy(Members(cands, key, k), DateText);
            ShortInterval(KeyParts(k).0, KeyParts(k).1, s[i].user, s[i], s[i + 1]) in ShortIntervals(cands, key) <==>
            DatesClose(s[i].date, s[i + 1].date, Settings.intervalHours)
  {
    var s := SortBy(Members(cands, key, k), DateText);
    var f := ShortInterval(KeyParts(k).0, KeyParts(k).1, s[i].user, s[i], s[i + 1]);
    if DatesClose(s[i].date, s[i + 1].date, Settings.intervalHours) {
      CloseNeighboursFlagged(cands, key, k, i);
    }
    if f in ShortIntervals(cands, key) {
      var k', i' := ShortIntervalFacts(cands, key, f);
    }
  }

  /** Two neighbours of a sorted group are reported exactly when their dates
      are at most 24 hours apart, provided no sort raises. */
  lemma IntervalFlagged(db: Database, k: string, i: nat)
    requires !AnySortRaises(Candidates(db), MoveKey)
    requires k in Keys(Candidates(db), MoveKey)
    requires i + 1 < |SortBy(Members(Candidates(db), MoveKey, k), DateText)|
    ensures var s := SortBy(Members(Candidates(db), MoveKey, k), DateText);
            ShortInterval(KeyParts(k).0, KeyParts(k).1, s[i].user, s[i], s[i + 1]) in IntervalFindings(db) <==>
            DatesClose(s[i].date, s[i + 1].date, Settings.intervalHours)
  {
    ShortIntervalFlagged(Candidates(db), MoveKey, k, i);
  }

  /** A null date in a group of two or more movements silences the whole
      detector. */
  lemma NullDateSilences(db: Database, m: Movement)
    requires m in Candidates(db) && m.date.Null?
    requires |Members(Candidates(db), MoveKey, MoveKey(m))| >= 2
    ensures IntervalFindings(db) == []
  {
    var cands := Candidates(db);
    var k := MoveKey(m);
    MembersMember(cands, MoveKey, k, m);
    MembersNonEmpty(cands, MoveKey, k);
    var g := Members(cands, MoveKey, k);
    var j :| 0 <= j < |g| && g[j] == m;
    assert SortRaises(g);
    SomeSortRaises(cands, MoveKey, k);
  }

  lemma NoNullShortIntervals(cands: seq<Movement>, key: Movement -> string)
    requires forall m :: m in cands ==> m.date.Str?
    ensures !AnySortRaises(cands, key)
  {
    forall k | k in Keys(cands, key) ensures !HasNullDate(Members(cands, key, k)) {
      var g := Members(cands, key, k);
      forall j | 0 <= j < |g| ensures g[j].date.Str? {
        MembersMember(cands, key, k, g[j]);
      }
    }
  }

  /** Without null dates among the grouped movements no sort raises. */
  lemma NoNullDates(db: Database)
    requires forall m :: m in Candidates(db) ==> m.date.Str?
    ensures IntervalFindings(db) == FlatMap(Keys(Candidates(db), MoveKey), GroupStep(Candidates(db), MoveKey))
  {
    NoNullShortIntervals(Candidates(db), MoveKey);
  }

  /** A group of `n` movements yields at most `n - 1` findings. */
  lemma GroupStepBound(cands: seq<Movement>, key: Movement -> string, k: string)
    requires k in Keys(cands, key)
    ensures |GroupStep(cands, key)(k)| + 1 <= |Members(cands, key, k)|
  {
    var g := Members(cands, key, k);
    MembersNonEmpty(cands, key, k);
    if |g| >= 2 {
      PairsBound(k, SortBy(g, DateText));
    }
  }

  /** The findings and the groups together are at most the grouped
      movements, for any grouping `key`. */
  lemma ShortIntervalCount(cands: seq<Movement>, key: Movement -> string)
    ensures |ShortIntervals(cands, key)| + |Keys(cands, key)| <= |cands|
  {
    var keys := Keys(cands, key);
    forall k | k in keys ensures |GroupStep(cands, key)(k)| + 1 <= |Members(cands, key, k)| {
      GroupStepBound(cands, key, k);
    }
    FlatMapSizes(cands, key, keys, GroupStep(cands, key));
    GroupSizesSum(cands, key);
  }

  /** Each group of `n` movements yields at most `n - 1` findings, so the
      findings and the groups together are at most the grouped movements. */
  lemma IntervalCount(db: Database)
    ensures |IntervalFindings(db)| + |Keys(Candidates(db), MoveKey)| <= |Candidates(db)|
  {
    ShortIntervalCount(Candidates(db), MoveKey);
  }
}
