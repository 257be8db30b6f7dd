/** The documents the statistics passes read, tagged with the collection
    they come from, and the counters those passes keep, as functions of the
    documents of one group. */
module FraudEvents {
  import opened Text
  import opened Records
  import opened Grouping
  import opened FraudFindings

  /** Which collection a document was read from. */
  datatype Origin = FromReturn | FromCancellation | FromAdjustment

  datatype Event = Event(origin: Origin, doc: Doc)

  function Tag(docs: seq<Doc>, o: Origin): (r: seq<Event>)
    ensures |r| == |docs|
    ensures forall i :: 0 <= i < |docs| ==> r[i] == Event(o, docs[i])
  {
    seq(|docs|, i requires 0 <= i < |docs| => Event(o, docs[i]))
  }

  function FieldOf(field: string): Event -> Value {
    (e: Event) => Field(e.doc, field)
  }

  /** The `if loja:` guard: the key field is non-empty. */
  function HasKey(field: string): Event -> bool {
    (e: Event) => Truthy(Field(e.doc, field))
  }

  /** The events whose `field` is non-empty. */
  function Present(es: seq<Event>, field: string): seq<Event> {
    Filter(es, HasKey(field))
  }

  /** `'TROCA' in dev.get('TIPOMOVIMENTACAO', '').upper()` on a return. */
  predicate IsExchange(e: Event) {
    var t := Field(e.doc, "TIPOMOVIMENTACAO");
    e.origin == FromReturn && t.Str? && Contains(Upper(t.s), "TROCA")
  }

  predicate IsCancellation(e: Event) {
    e.origin == FromCancellation
  }

  predicate IsAdjustment(e: Event) {
    e.origin == FromAdjustment
  }

  /** A return whose type is null: `.upper()` raises on it. */
  predicate Raises(e: Event) {
    e.origin == FromReturn && Field(e.doc, "TIPOMOVIMENTACAO").Null?
  }

  predicate AnyRaises(es: seq<Event>) {
    exists i :: 0 <= i < |es| && Raises(es[i])
  }

  /** The values of `field` over a group. */
  function ValuesOf(es: seq<Event>, field: string): set<Value> {
    set i | 0 <= i < |es| :: Field(es[i].doc, field)
  }

  /** The store counters for the events of one store. */
  function StoreCounts(es: seq<Event>): StoreStats {
    StoreStats(|es|, CountWhere(es, IsExchange), CountWhere(es, IsCancellation))
  }

  /** The customer or product counters for the events of one entity;
      `other` is the field collected besides `LOJA`. */
  function EntityCounts(es: seq<Event>, other: string): EntityStats {
    EntityStats(|es|, CountWhere(es, IsExchange), CountWhere(es, IsCancellation),
                CountWhere(es, IsAdjustment), ValuesOf(es, "LOJA"), ValuesOf(es, other))
  }

  /** The documents the store pass reads, in the order it reads them. */
  function StoreEvents(db: Database): seq<Event> {
    Tag(Collection(db, Returns), FromReturn) + Tag(Collection(db, Cancellations), FromCancellation)
  }

  /** The documents the customer and product passes read. */
  function EntityEvents(db: Database): seq<Event> {
    Tag(Collection(db, Returns), FromReturn) + Tag(Collection(db, Cancellations), FromCancellation) +
    Tag(Collection(db, Adjustments), FromAdjustment)
  }

  /** The dictionary's keys in insertion order. */
  function KeysBy(es: seq<Event>, field: string): seq<Value> {
    Keys(Present(es, field), FieldOf(field))
  }

  /** The group of one key. */
  function GroupOf(es: seq<Event>, field: string, v: Value): seq<Event> {
    Members(Present(es, field), FieldOf(field), v)
  }

  // ---------------------------------------------------------------------
  // The passes
  // ---------------------------------------------------------------------

  lemma AnyRaisesSnoc(es: seq<Event>, e: Event)
    ensures AnyRaises(es + [e]) <==> AnyRaises(es) || Raises(e)
  {
    var all := es + [e];
    if AnyRaises(es) {
      var i :| 0 <= i < |es| && Raises(es[i]);
      assert all[i] == es[i];
    }
    if AnyRaises(all) {
      var i :| 0 <= i < |all| && Raises(all[i]);
      if i < |es| {
        assert all[i] == es[i];
      }
    }
    assert all[|es|] == e;
  }

  lemma ValuesSnoc(es: seq<Event>, e: Event, field: string)
    ensures ValuesOf(es + [e], field) == ValuesOf(es, field) + {Field(e.doc, field)}
  {
    var all := es + [e];
    forall x | x in ValuesOf(all, field) ensures x in ValuesOf(es, field) + {Field(e.doc, field)} {
      var i :| 0 <= i < |all| && Field(all[i].doc, field) == x;
      if i < |es| {
        assert all[i] == es[i];
      }
    }
    forall x | x in ValuesOf(es, field) ensures x in ValuesOf(all, field) {
      var i :| 0 <= i < |es| && Field(es[i].doc, field) == x;
      assert all[i] == es[i];
    }
    assert all[|es|] == e;
  }

  /** A raising document stops the pass wherever it sits. */
  lemma RaisesPrefix(es: seq<Event>, j: nat, keep: Event -> bool)
    requires j <= |es| && AnyRaises(Filter(es[..j], keep))
    ensures AnyRaises(Filter(es, keep))
  {
    assert es == es[..j] + es[j..];
    FilterAppend(es[..j], es[j..], keep);
    var p := Filter(es[..j], keep);
    var k :| 0 <= k < |p| && Raises(p[k]);
    assert Filter(es, keep)[k] == p[k];
  }

  /** One more document of a store bumps its counters. */
  lemma StoreCountsSnoc(group: seq<Event>, e: Event)
    ensures var c := StoreCounts(group);
            StoreCounts(group + [e]) ==
              StoreStats(c.movements + 1, c.exchanges + (if IsExchange(e) then 1 else 0),
                         c.cancellations + (if IsCancellation(e) then 1 else 0))
  {
    CountWhereSnoc(group, e, IsExchange);
    CountWhereSnoc(group, e, IsCancellation);
  }

  /** One more document of a customer or product bumps its counters and adds
      its store and its other key to the sets. */
  lemma EntityCountsSnoc(group: seq<Event>, e: Event, other: string)
    ensures var c := EntityCounts(group, other);
            EntityCounts(group + [e], other) ==
              EntityStats(c.occurrences + 1, c.exchanges + (if IsExchange(e) then 1 else 0),
                          c.cancellations + (if IsCancellation(e) then 1 else 0),
                          c.adjustments + (if IsAdjustment(e) then 1 else 0),
                          c.stores + {Field(e.doc, "LOJA")}, c.others + {Field(e.doc, other)})
  {
    CountWhereSnoc(group, e, IsExchange);
    CountWhereSnoc(group, e, IsCancellation);
    CountWhereSnoc(group, e, IsAdjustment);
    ValuesSnoc(group, e, "LOJA");
    ValuesSnoc(group, e, other);
  }

  // ---------------------------------------------------------------------
  // Groups in terms of the collections
  // ---------------------------------------------------------------------

  function HasValue(field: string, v: Value): Doc -> bool {
    (d: Doc) => Field(d, field) == v
  }

  /** The documents of a collection whose `field` is `v`. */
  function WithValue(docs: seq<Doc>, field: string, v: Value): seq<Doc> {
    Filter(docs, HasValue(field, v))
  }

  lemma TagSnoc(docs: seq<Doc>, d: Doc, o: Origin)
    ensures Tag(docs + [d], o) == Tag(docs, o) + [Event(o, d)]
  {
  }

  lemma GroupAppend(a: seq<Event>, b: seq<Event>, field: string, v: Value)
    ensures GroupOf(a + b, field, v) == GroupOf(a, field, v) + GroupOf(b, field, v)
  {
    FilterAppend(a, b, HasKey(field));
    MembersAppend(Filter(a, HasKey(field)), Filter(b, HasKey(field)), FieldOf(field), v);
  }

  /** A single event forms the group of its own non-empty key value. */
  lemma GroupOfOne(e: Event, field: string, v: Value)
    requires Truthy(v)
    ensures GroupOf([e], field, v) == if Field(e.doc, field) == v then [e] else []
  {
    FilterSnoc([], e, HasKey(field));
    assert [] + [e] == [e];
    if HasKey(field)(e) {
      MembersSnoc([], e, FieldOf(field), v);
    }
  }

  /** The group of a non-empty `v` among the tagged documents of one
      collection is the tagged list of its documents whose `field` is `v`. */
  lemma {:induction false} GroupOfTag(docs: seq<Doc>, o: Origin, field: string, v: Value)
    requires Truthy(v)
    ensures GroupOf(Tag(docs, o), field, v) == Tag(WithValue(docs, field, v), o)
    decreases |docs|
  {
    if |docs| == 0 {
      assert Tag(docs, o) == [];
    } else {
      var d := docs[|docs| - 1];
      var init := docs[..|docs| - 1];
      var e := Event(o, d);
      var tail := if Field(d, field) == v then [e] else [];
      assert docs == init + [d];
      assert GroupOf(Tag(docs, o), field, v) == GroupOf(Tag(init, o), field, v) + tail by {
        TagSnoc(init, d, o);
        GroupAppend(Tag(init, o), [e], field, v);
        GroupOfOne(e, field, v);
      }
      assert Tag(WithValue(docs, field, v), o) == Tag(WithValue(init, field, v), o) + tail by {
        FilterSnoc(init, d, HasValue(field, v));
        TagSnoc(WithValue(init, field, v), d, o);
        assert Tag(WithValue(init, field, v), o) + [] == Tag(WithValue(init, field, v), o);
      }
      GroupOfTag(init, o, field, v);
    }
  }

  /** The group of a non-empty `v` among the documents of one collection has
      one event per document whose `field` is `v`, all from that collection. */
  lemma TagGroup(docs: seq<Doc>, o: Origin, field: string, v: Value)
    requires Truthy(v)
    ensures var g := GroupOf(Tag(docs, o), field, v);
            |g| == |WithValue(docs, field, v)| && forall i :: 0 <= i < |g| ==> g[i].origin == o
  {
    GroupOfTag(docs, o, field, v);
  }

  /** The counters over the tagged documents of one collection. */
  lemma TaggedCounts(docs: seq<Doc>, o: Origin)
    ensures CountWhere(Tag(docs, o), IsCancellation) == if o == FromCancellation then |docs| else 0
    ensures CountWhere(Tag(docs, o), IsAdjustment) == if o == FromAdjustment then |docs| else 0
    ensures o != FromReturn ==> CountWhere(Tag(docs, o), IsExchange) == 0
  {
    var t := Tag(docs, o);
    CountWhereUniform(t, IsCancellation, o == FromCancellation);
    CountWhereUniform(t, IsAdjustment, o == FromAdjustment);
    if o != FromReturn {
      CountWhereUniform(t, IsExchange, false);
    }
  }

  /** A store's counters, in terms of the two collections: every return and
      every cancellation of the store is one movement, the cancellations are
      exactly those of the store and the exchanges are among its returns. */
  lemma StoreCountsSplit(db: Database, v: Value)
    requires Truthy(v)
    ensures var c := StoreCounts(GroupOf(StoreEvents(db), "LOJA", v));
            var rets := WithValue(Collection(db, Returns), "LOJA", v);
            var cancels := WithValue(Collection(db, Cancellations), "LOJA", v);
            c.movements == |rets| + |cancels| &&
            c.cancellations == |cancels| &&
            c.exchanges <= |rets| &&
            c.exchanges + c.cancellations <= c.movements
  {
    var rets := WithValue(Collection(db, Returns), "LOJA", v);
    var cancels := WithValue(Collection(db, Cancellations), "LOJA", v);
    var gr := Tag(rets, FromReturn);
    var gc := Tag(cancels, FromCancellation);
    assert GroupOf(StoreEvents(db), "LOJA", v) == gr + gc by {
      GroupAppend(Tag(Collection(db, Returns), FromReturn), Tag(Collection(db, Cancellations), FromCancellation), "LOJA", v);
      GroupOfTag(Collection(db, Returns), FromReturn, "LOJA", v);
      GroupOfTag(Collection(db, Cancellations), FromCancellation, "LOJA", v);
    }
    TaggedCounts(rets, FromReturn);
    TaggedCounts(cancels, FromCancellation);
    CountWhereAppend(gr, gc, IsExchange);
    CountWhereAppend(gr, gc, IsCancellation);
  }

  /** A customer's or product's counters, in terms of the three collections. */
  lemma EntityCountsSplit(db: Database, field: string, other: string, v: Value)
    requires Truthy(v)
    ensures var c := EntityCounts(GroupOf(EntityEvents(db), field, v), other);
            var rets := WithValue(Collection(db, Returns), field, v);
            var cancels := WithValue(Collection(db, Cancellations), field, v);
            var adjs := WithValue(Collection(db, Adjustments), field, v);
            c.occurrences == |rets| + |cancels| + |adjs| &&
            c.cancellations == |cancels| &&
            c.adjustments == |adjs| &&
            c.exchanges <= |rets|
  {
    var rets := WithValue(Collection(db, Returns), field, v);
    var cancels := WithValue(Collection(db, Cancellations), field, v);
    var adjs := WithValue(Collection(db, Adjustments), field, v);
    var gr := Tag(rets, FromReturn);
    var gc := Tag(cancels, FromCancellation);
    var ga := Tag(adjs, FromAdjustment);
    assert GroupOf(EntityEvents(db), field, v) == gr + gc + ga by {
      var tr := Tag(Collection(db, Returns), FromReturn);
      var tc := Tag(Collection(db, Cancellations), FromCancellation);
      var ta := Tag(Collection(db, Adjustments), FromAdjustment);
      GroupAppend(tr + tc, ta, field, v);
      GroupAppend(tr, tc, field, v);
      GroupOfTag(Collection(db, Returns), FromReturn, field, v);
      GroupOfTag(Collection(db, Cancellations), FromCancellation, field, v);
      GroupOfTag(Collection(db, Adjustments), FromAdjustment, field, v);
    }
    TaggedCounts(rets, FromReturn);
    TaggedCounts(cancels, FromCancellation);
    TaggedCounts(adjs, FromAdjustment);
    CountWhereThree(gr, gc, ga, IsExchange);
    CountWhereThree(gr, gc, ga, IsCancellation);
    CountWhereThree(gr, gc, ga, IsAdjustment);
  }

  lemma CountWhereThree(a: seq<Event>, b: seq<Event>, c: seq<Event>, p: Event -> bool)
    ensures CountWhere(a + b + c, p) == CountWhere(a, p) + CountWhere(b, p) + CountWhere(c, p)
  {
    CountWhereAppend(a + b, c, p);
    CountWhereAppend(a, b, p);
  }
}
