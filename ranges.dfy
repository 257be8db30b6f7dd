/** The windows of `range(start, n, size)` a table is cut into: their
    bounds, their number and how they tile the rows. */
module Ranges {

  function Min(a: int, b: int): int {
    if a < b then a else b
  }

  /** The bounds of the windows of `range(start, n, size)`: each runs from
      its start to `min(start + size, n)`. */
  function Spans(n: nat, size: nat, start: nat): (r: seq<(nat, nat)>)
    requires size > 0
    decreases n - start
  {
    if start >= n then [] else [(start, Min(start + size, n))] + Spans(n, size, start + size)
  }

  /** Every span lies within `start` and `n` and holds at least one row. */
  lemma {:induction false} SpansInRange(n: nat, size: nat, start: nat)
    requires size > 0
    ensures forall k :: 0 <= k < |Spans(n, size, start)| ==>
              start <= Spans(n, size, start)[k].0 < Spans(n, size, start)[k].1 <= n
    decreases n - start
  {
    if start < n {
      var sp := Spans(n, size, start);
      var rest := Spans(n, size, start + size);
      SpansInRange(n, size, start + size);
      assert sp == [(start, Min(start + size, n))] + rest;
      assert forall k :: 1 <= k < |sp| ==> sp[k] == rest[k - 1];
    }
  }

  /** Span `k` runs from its start to `min(start + size, n)`; the next one
      starts `size` later, and after the last nothing is left. */
  lemma {:induction false} SpanNext(n: nat, size: nat, start: nat, k: nat)
    requires size > 0 && k < |Spans(n, size, start)|
    ensures var sp := Spans(n, size, start);
      sp[k].1 == Min(sp[k].0 + size, n) &&
      (k + 1 < |sp| ==> sp[k + 1].0 == sp[k].0 + size) &&
      (k + 1 == |sp| ==> sp[k].0 + size >= n)
    ensures start < n ==> Spans(n, size, start)[0].0 == start
    decreases k
  {
    var sp := Spans(n, size, start);
    var rest := Spans(n, size, start + size);
    assert sp == [(start, Min(start + size, n))] + rest;
    if k > 0 {
      SpanNext(n, size, start + size, k - 1);
      assert sp[k] == rest[k - 1];
      if k + 1 < |sp| {
        assert sp[k + 1] == rest[k];
      }
    } else if start + size < n {
      assert rest[0].0 == start + size;
    }
  }

  /** Span `k` from `start` runs from `start + k * size` to
      `min(start + k * size + size, n)`. */
  lemma {:induction false} SpanBounds(n: nat, size: nat, start: nat, k: nat)
    requires size > 0 && k < |Spans(n, size, start)|
    ensures var sp := Spans(n, size, start)[k];
      sp.0 == start + k * size && sp.1 == Min(start + k * size + size, n) && sp.0 < sp.1 <= n
    decreases k
  {
    if k > 0 {
      SpanBounds(n, size, start + size, k - 1);
      assert Spans(n, size, start)[k] == Spans(n, size, start + size)[k - 1];
      assert k * size == (k - 1) * size + size;
    }
  }

  /** `len(range(0, n, size))`, the least count of windows that covers `n` rows. */
  function CeilDiv(n: nat, size: nat): (c: nat)
    requires size > 0
    ensures c * size >= n
    ensures c > 0 ==> (c - 1) * size < n
  {
    (n + size - 1) / size
  }

  /** The spans from `start` are the fewest that cover the rows left. */
  lemma {:induction false} SpanCount(n: nat, size: nat, start: nat)
    requires size > 0 && start <= n
    ensures var c := |Spans(n, size, start)|;
      c * size >= n - start && (c > 0 ==> (c - 1) * size < n - start)
    decreases n - start
  {
    if start < n {
      var c := |Spans(n, size, start + size)|;
      assert |Spans(n, size, start)| == c + 1;
      if start + size <= n {
        SpanCount(n, size, start + size);
      } else {
        assert Spans(n, size, start + size) == [];
      }
      assert (c + 1) * size == c * size + size;
    }
  }

  /** Two counts that both are the fewest to cover `m` rows agree. */
  lemma LeastCover(c: nat, d: nat, size: nat, m: nat)
    requires size > 0
    requires c * size >= m && (c > 0 ==> (c - 1) * size < m)
    requires d * size >= m && (d > 0 ==> (d - 1) * size < m)
    ensures c == d
  {
    if c < d {
      MulMono(c, d - 1, size);
    } else if d < c {
      MulMono(d, c - 1, size);
    }
  }

  lemma MulMono(a: nat, b: nat, c: nat)
    requires a <= b
    ensures a * c <= b * c
  {
    assert b * c == a * c + (b - a) * c;
  }

  /** The last span ends at the last row. */
  lemma {:induction false} LastSpanEnds(n: nat, size: nat, start: nat)
    requires size > 0 && start < n
    ensures var sp := Spans(n, size, start); |sp| > 0 && sp[|sp| - 1].1 == n
    decreases n - start
  {
    if start + size < n {
      LastSpanEnds(n, size, start + size);
      var sp := Spans(n, size, start);
      assert sp[|sp| - 1] == Spans(n, size, start + size)[|sp| - 2];
    } else {
      assert Spans(n, size, start + size) == [];
    }
  }

  /** Spans that tile the rows `0` to `n`: the `k`-th starts at `k * size`,
      none is longer than `size`, each ends where the next starts and the
      last ends at `n`. */
  predicate Tiling(sp: seq<(nat, nat)>, n: nat, size: nat) {
    0 < |sp| && sp[|sp| - 1].1 == n &&
    (forall k :: 0 <= k < |sp| ==> sp[k].0 == k * size && sp[k].1 - sp[k].0 <= size) &&
    (forall k :: 0 <= k < |sp| - 1 ==> sp[k].1 == sp[k + 1].0)
  }

  /** The spans of `range(0, n, size)`: `ceil(n / size)` of them, the `k`-th
      starting at `k * size`, each ending where the next starts and the
      last at `n`, none longer than `size`. */
  lemma SpansPartition(n: nat, size: nat)
    requires 0 < size && 0 < n
    ensures |Spans(n, size, 0)| == CeilDiv(n, size) && Tiling(Spans(n, size, 0), n, size)
  {
    var sp := Spans(n, size, 0);
    SpanCount(n, size, 0);
    LeastCover(|sp|, CeilDiv(n, size), size, n);
    LastSpanEnds(n, size, 0);
    forall k | 0 <= k < |sp| ensures sp[k].0 == k * size && sp[k].1 - sp[k].0 <= size {
      SpanBounds(n, size, 0, k);
    }
    SpansInRange(n, size, 0);
    forall k | 0 <= k < |sp| - 1 ensures sp[k].1 == sp[k + 1].0 {
      SpanNext(n, size, 0, k);
    }
  }
}
