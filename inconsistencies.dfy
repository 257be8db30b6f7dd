/** `_analisar_inconsistencias`: SKUs that one of the three stock
    collections holds and another existing one lacks. Every SKU of every
    existing collection is checked against each other existing collection;
    at most ten findings are shown, with the full count beside them. */
module Inconsistencies {
  import opened Text
  import opened Records
  import Dicts

  /** `colecoes` */
  const Checked: seq<string> := [Returns, Cancellations, Adjustments]

  /** One finding: `sku` is in `collection` and not in `other`. */
  datatype Entry = Entry(collection: string, sku: string, other: string)

  /** `'tipo'` */
  function Kind(e: Entry): string {
    e.collection + " sem " + e.other
  }

  /** `'descricao'` */
  function Description(e: Entry): string {
    "SKU " + e.sku + " existe em " + e.collection + " mas não em " + e.other
  }

  /** `'SKU' in doc and doc['SKU']` */
  predicate HasSku(doc: Doc) {
    "SKU" in doc && Truthy(doc["SKU"])
  }

  /** The set the first inner loop builds. */
  function Skus(docs: seq<Doc>): set<string> {
    set i | 0 <= i < |docs| && HasSku(docs[i]) :: docs[i]["SKU"].s
  }

  /** `count_documents({"SKU": sku})` on one collection's documents. */
  function CountSku(docs: seq<Doc>, sku: string): nat
    decreases |docs|
  {
    if |docs| == 0 then 0
    else CountSku(docs[..|docs| - 1], sku) + (if "SKU" in docs[|docs| - 1] && docs[|docs| - 1]["SKU"] == Str(sku) then 1 else 0)
  }

  /** `existe_na_outra` */
  predicate Holds(db: Database, name: string, sku: string) {
    CountSku(Collection(db, name), sku) > 0
  }

  /** The count is positive exactly when some document carries the SKU. */
  lemma {:induction false} CountSkuPositive(docs: seq<Doc>, sku: string)
    ensures CountSku(docs, sku) > 0 <==> exists i :: 0 <= i < |docs| && "SKU" in docs[i] && docs[i]["SKU"] == Str(sku)
    decreases |docs|
  {
    if |docs| > 0 {
      var n := |docs| - 1;
      CountSkuPositive(docs[..n], sku);
      if CountSku(docs[..n], sku) > 0 {
        var i :| 0 <= i < n && "SKU" in docs[..n][i] && docs[..n][i]["SKU"] == Str(sku);
        assert docs[i] == docs[..n][i];
      }
      if exists i :: 0 <= i < |docs| && "SKU" in docs[i] && docs[i]["SKU"] == Str(sku) {
        var i :| 0 <= i < |docs| && "SKU" in docs[i] && docs[i]["SKU"] == Str(sku);
        if i < n {
          assert docs[..n][i] == docs[i];
        }
      }
    }
  }

  /** What each reported entry means: both collections exist and differ,
      the SKU is a non-empty value of the first, and no document of the
      second has it. */
  predicate Inconsistent(db: Database, e: Entry) {
    && e.collection in Checked && HasCollection(db, e.collection)
    && e.sku in Skus(Collection(db, e.collection))
    && e.other in Checked && e.other != e.collection && HasCollection(db, e.other)
    && !Holds(db, e.other, e.sku)
  }

  /** Every inconsistency of the database. */
  function AllInconsistencies(db: Database): set<Entry> {
    set c, sku, o | c in Checked && o in Checked && sku in Skus(Collection(db, c)) && Inconsistent(db, Entry(c, sku, o)) :: Entry(c, sku, o)
  }

  lemma AllInconsistenciesMeaning(db: Database, e: Entry)
    ensures e in AllInconsistencies(db) <==> Inconsistent(db, e)
  {
    if Inconsistent(db, e) {
      assert e == Entry(e.collection, e.sku, e.other);
    }
  }

  predicate Distinct(s: seq<Entry>) {
    forall i, j :: 0 <= i < j < |s| ==> s[i] != s[j]
  }

  /** A sequence without repeats has as many elements as its set. */
  lemma {:induction false} DistinctCard(s: seq<Entry>)
    requires Distinct(s)
    ensures |set e | e in s| == |s|
    decreases |s|
  {
    if |s| > 0 {
      var n := |s| - 1;
      DistinctCard(s[..n]);
      assert (set e | e in s) == (set e | e in s[..n]) + {s[n]};
      assert s[n] !in s[..n];
    }
  }

  // ---------------------------------------------------------------------
  // The loops
  // ---------------------------------------------------------------------

  /** `outras_colecoes = [c for c in colecoes if c != colecao]` */
  function Others(c: string): (r: seq<string>)
    ensures forall o :: o in r <==> o in Checked && o != c
  {
    Without(Checked, c)
  }

  function Without(cs: seq<string>, c: string): (r: seq<string>)
    ensures forall o :: o in r <==> o in cs && o != c
    decreases |cs|
  {
    if |cs| == 0 then []
    else if cs[0] == c then Without(cs[1..], c)
    else [cs[0]] + Without(cs[1..], c)
  }

  lemma {:induction false} WithoutDistinct(cs: seq<string>, c: string)
    requires Dicts.Distinct(cs)
    ensures Dicts.Distinct(Without(cs, c))
    decreases |cs|
  {
    if |cs| > 0 {
      WithoutDistinct(cs[1..], c);
      var rest := Without(cs[1..], c);
      if cs[0] != c {
        assert cs[0] !in cs[1..];
        assert cs[0] !in rest;
        var r := [cs[0]] + rest;
        forall i, j | 0 <= i < j < |r|
          ensures r[i] != r[j]
        {
          assert r[j] == rest[j - 1] && rest[j - 1] in rest;
          if i > 0 {
            assert r[i] == rest[i - 1];
          }
        }
      }
    }
  }

  /** The loop over the other collections, for one SKU of `c`: the entries
      it adds are exactly the collections that lack the SKU. */
  method CheckSku(db: Database, c: string, sku: string, found0: seq<Entry>) returns (found: seq<Entry>)
    requires Distinct(found0)
    requires forall e :: e in found0 ==> e.collection != c || e.sku != sku
    ensures Distinct(found)
    ensures forall e :: e in found <==> e in found0 || (e.collection == c && e.sku == sku && e.other in Checked && e.other != c && HasCollection(db, e.other) && !Holds(db, e.other, sku))
  {
    var others := Others(c);
    WithoutDistinct(Checked, c);
    found := found0;
    for j := 0 to |others|
      invariant Distinct(found)
      invariant forall e :: e in found <==> e in found0 || (e.collection == c && e.sku == sku && e.other in others[..j] && HasCollection(db, e.other) && !Holds(db, e.other, sku))
    {
      var o := others[j];
      assert others[..j + 1] == others[..j] + [o];
      if HasCollection(db, o) {
        var existing := CountSku(Collection(db, o), sku) > 0;
        if !existing {
          assert forall i :: 0 <= i < j ==> others[..j][i] == others[i];
          assert o !in others[..j];
          assert Entry(c, sku, o) !in found;
          found := found + [Entry(c, sku, o)];
        }
      }
    }
    assert others[..|others|] == others;
  }

  /** The first inner loop: the set of the collection's non-empty SKUs. */
  method CollectSkus(docs: seq<Doc>) returns (skus: set<string>)
    ensures skus == Skus(docs)
  {
    skus := {};
    for i := 0 to |docs|
      invariant skus == Skus(docs[..i])
    {
      assert docs[..i + 1][..i] == docs[..i];
      if "SKU" in docs[i] && Truthy(docs[i]["SKU"]) {
        skus := skus + {docs[i]["SKU"].s};
      }
      assert Skus(docs[..i + 1]) == skus by {
        SkusSnoc(docs[..i + 1]);
      }
    }
    assert docs[..|docs|] == docs;
  }

  lemma SkusSnoc(docs: seq<Doc>)
    requires |docs| > 0
    ensures var n := |docs| - 1;
      Skus(docs) == Skus(docs[..n]) + (if HasSku(docs[n]) then {docs[n]["SKU"].s} else {})
  {
    var n := |docs| - 1;
    forall x | x in Skus(docs[..n])
      ensures x in Skus(docs)
    {
      var i :| 0 <= i < n && HasSku(docs[..n][i]) && docs[..n][i]["SKU"].s == x;
      assert docs[i] == docs[..n][i];
    }
    forall x | x in Skus(docs)
      ensures x in Skus(docs[..n]) || (HasSku(docs[n]) && x == docs[n]["SKU"].s)
    {
      var i :| 0 <= i < |docs| && HasSku(docs[i]) && docs[i]["SKU"].s == x;
      if i < n {
        assert docs[..n][i] == docs[i];
      }
    }
  }

  /** One existing collection: its SKUs, in whatever order the set gives
      them, each checked against the other collections. */
  method CheckCollection(db: Database, c: string, found0: seq<Entry>) returns (found: seq<Entry>)
    requires Distinct(found0)
    requires forall e :: e in found0 ==> e.collection != c
    ensures Distinct(found)
    ensures forall e :: e in found <==> e in found0 || (e.collection == c && e.sku in Skus(Collection(db, c)) && e.other in Checked && e.other != c && HasCollection(db, e.other) && !Holds(db, e.other, e.sku))
  {
    var skus := CollectSkus(Collection(db, c));
    var left := skus;
    found := found0;
    while left != {}
      invariant left <= skus
      invariant Distinct(found)
      invariant forall e :: e in found <==> e in found0 || (e.collection == c && e.sku in skus - left && e.other in Checked && e.other != c && HasCollection(db, e.other) && !Holds(db, e.other, e.sku))
      decreases left
    {
      var sku :| sku in left;
      found := CheckSku(db, c, sku, found);
      left := left - {sku};
    }
  }

  /** The outer loop over `colecoes`: every inconsistency, once each. */
  method FindAll(db: Database) returns (found: seq<Entry>)
    ensures Distinct(found)
    ensures forall e :: e in found <==> Inconsistent(db, e)
  {
    found := [];
    for k := 0 to |Checked|
      invariant Distinct(found)
      invariant forall e :: e in found <==> e.collection in Checked[..k] && Inconsistent(db, e)
    {
      var c := Checked[k];
      assert Checked[..k + 1] == Checked[..k] + [c];
      if HasCollection(db, c) {
        assert c !in Checked[..k];
        found := CheckCollection(db, c, found);
      }
    }
    assert Checked[..|Checked|] == Checked;
  }

  // ---------------------------------------------------------------------
  // The report
  // ---------------------------------------------------------------------

  /** The two answers: the all-clear, or the first ten findings beside the
      full count. The markup around them and the error answer are not
      modelled. */
  datatype Report = Consistent | Found(shown: seq<Entry>, total: nat)

  function Min(a: nat, b: nat): nat {
    if a <= b then a else b
  }

  /** `inconsistencias_limitadas = inconsistencias[:10]` and
      `len(inconsistencias)` */
  function Summarise(found: seq<Entry>): (r: Report)
    ensures r.Consistent? <==> |found| == 0
    ensures r.Found? ==> r.total == |found| && |r.shown| == Min(10, |found|) && r.shown == found[..|r.shown|]
  {
    if |found| == 0 then Consistent else Found(found[..Min(10, |found|)], |found|)
  }

  /** `_analisar_inconsistencias()` */
  method Analyse(db: Database) returns (r: Report)
    ensures r.Consistent? <==> AllInconsistencies(db) == {}
    ensures r.Found? ==> r.total == |AllInconsistencies(db)| && |r.shown| == Min(10, r.total)
    ensures r.Found? ==> Distinct(r.shown) && forall k :: 0 <= k < |r.shown| ==> Inconsistent(db, r.shown[k])
  {
    var found := FindAll(db);
    assert (set e | e in found) == AllInconsistencies(db) by {
      forall e
        ensures e in found <==> e in AllInconsistencies(db)
      {
        AllInconsistenciesMeaning(db, e);
      }
    }
    DistinctCard(found);
    r := Summarise(found);
    if r.Found? {
      forall k | 0 <= k < |r.shown|
        ensures Inconsistent(db, r.shown[k])
      {
        assert r.shown[k] == found[k];
      }
    }
  }
}
