/** Python's `dict`: a mapping that remembers the order in which its keys
    were first inserted. Assigning to a present key keeps its place;
    deleting a key removes it from the order. */
module Dicts {

  datatype Dict<V> = Dict(order: seq<string>, entries: map<string, V>)

  predicate Distinct(ks: seq<string>) {
    forall i, j :: 0 <= i < j < |ks| ==> ks[i] != ks[j]
  }

  /** The order lists each key of the mapping exactly once. */
  ghost predicate WellFormed<V>(d: Dict<V>) {
    Distinct(d.order) && (forall k :: k in d.entries <==> k in d.order)
  }

  function Empty<V>(): (d: Dict<V>)
    ensures WellFormed(d) && |d.order| == 0
  {
    Dict([], map[])
  }

  /** `d[k] = v` */
  function Put<V>(d: Dict<V>, k: string, v: V): (r: Dict<V>)
    requires WellFormed(d)
    ensures WellFormed(r)
    ensures r.entries == d.entries[k := v]
    ensures k in d.entries ==> r.order == d.order
    ensures k !in d.entries ==> r.order == d.order + [k]
  {
    if k in d.entries then Dict(d.order, d.entries[k := v])
    else Dict(d.order + [k], d.entries[k := v])
  }

  /** The order without `k`. */
  function Without(ks: seq<string>, k: string): (r: seq<string>)
    ensures forall x :: x in r <==> x in ks && x != k
    ensures Distinct(ks) ==> Distinct(r)
    ensures k !in ks ==> r == ks
    ensures |r| <= |ks|
    decreases |ks|
  {
    if |ks| == 0 then []
    else if ks[0] == k then Without(ks[1..], k)
    else
      var rest := Without(ks[1..], k);
      assert Distinct(ks) ==> ks[0] !in ks[1..];
      [ks[0]] + rest
  }

  /** A key that occurs once is dropped by one element. */
  lemma {:induction false} WithoutPresent(ks: seq<string>, k: string)
    requires Distinct(ks) && k in ks
    ensures |Without(ks, k)| == |ks| - 1
    decreases |ks|
  {
    if ks[0] != k {
      assert k in ks[1..];
      WithoutPresent(ks[1..], k);
    } else {
      assert k !in ks[1..];
    }
  }

  /** `del d[k]` (or `d.pop(k)`) for a present key; nothing for an absent one. */
  function Remove<V>(d: Dict<V>, k: string): (r: Dict<V>)
    requires WellFormed(d)
    ensures WellFormed(r)
    ensures r.entries == d.entries - {k}
    ensures r.order == Without(d.order, k)
  {
    Dict(Without(d.order, k), d.entries - {k})
  }

  /** The dict that a loop `d[k] = v` over `pairs` builds from `{}`. */
  function FromPairs<V>(pairs: seq<(string, V)>): (d: Dict<V>)
    ensures WellFormed(d)
    decreases |pairs|
  {
    if |pairs| == 0 then Empty()
    else
      var last := pairs[|pairs| - 1];
      Put(FromPairs(pairs[..|pairs| - 1]), last.0, last.1)
  }

  /** One more pair is one more `Put`. */
  lemma FromPairsSnoc<V>(pairs: seq<(string, V)>, i: nat)
    requires i < |pairs|
    ensures FromPairs(pairs[..i + 1]) == Put(FromPairs(pairs[..i]), pairs[i].0, pairs[i].1)
  {
    assert pairs[..i + 1][..i] == pairs[..i];
    assert pairs[..i + 1][i] == pairs[i];
  }

  /** After the loop, a key is present exactly when some pair carried it,
      and it holds the value of the last such pair. */
  lemma {:induction false} FromPairsLookup<V>(pairs: seq<(string, V)>, i: nat)
    requires i < |pairs| && forall j :: i < j < |pairs| ==> pairs[j].0 != pairs[i].0
    ensures pairs[i].0 in FromPairs(pairs).entries
    ensures FromPairs(pairs).entries[pairs[i].0] == pairs[i].1
    decreases |pairs|
  {
    if i < |pairs| - 1 {
      FromPairsLookup(pairs[..|pairs| - 1], i);
    }
  }

  /** A key no pair carries is absent. */
  lemma {:induction false} FromPairsAbsent<V>(pairs: seq<(string, V)>, k: string)
    requires forall j :: 0 <= j < |pairs| ==> pairs[j].0 != k
    ensures k !in FromPairs(pairs).entries
    decreases |pairs|
  {
    if |pairs| > 0 {
      FromPairsAbsent(pairs[..|pairs| - 1], k);
    }
  }

  /** The keys of the pairs, in order. */
  function Keys<V>(pairs: seq<(string, V)>): (ks: seq<string>)
    ensures |ks| == |pairs| && forall i :: 0 <= i < |pairs| ==> ks[i] == pairs[i].0
    decreases |pairs|
  {
    if |pairs| == 0 then [] else Keys(pairs[..|pairs| - 1]) + [pairs[|pairs| - 1].0]
  }

  /** The keys come out in order of first insertion. */
  lemma {:induction false} FromPairsOrder<V>(pairs: seq<(string, V)>)
    ensures |FromPairs(pairs).order| <= |pairs|
    ensures Distinct(Keys(pairs)) ==> FromPairs(pairs).order == Keys(pairs)
    decreases |pairs|
  {
    if |pairs| > 0 {
      var n := |pairs| - 1;
      var init := pairs[..n];
      FromPairsOrder(init);
      var ks := Keys(pairs);
      assert ks == Keys(init) + [pairs[n].0];
      if Distinct(ks) {
        assert Distinct(Keys(init)) by {
          assert forall j :: 0 <= j < n ==> Keys(init)[j] == ks[j];
        }
        assert pairs[n].0 !in Keys(init) by {
          assert forall j :: 0 <= j < n ==> Keys(init)[j] == ks[j] && ks[j] != ks[n];
        }
      }
    }
  }
}
