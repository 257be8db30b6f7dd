/** Grouping a sequence by a key the way a `defaultdict(list)` filled left to
    right does: keys in order of first appearance, each with its members in
    input order. */
module Grouping {

  /** The distinct keys of `xs`, in order of first appearance. */
  function Keys<T, K(==)>(xs: seq<T>, key: T -> K): (r: seq<K>)
    ensures forall i, j :: 0 <= i < j < |r| ==> r[i] != r[j]
    ensures forall k :: k in r ==> exists i :: 0 <= i < |xs| && key(xs[i]) == k
    ensures forall i :: 0 <= i < |xs| ==> key(xs[i]) in r
    decreases |xs|
  {
    if |xs| == 0 then []
    else
      var p := Keys(xs[..|xs| - 1], key);
      var k := key(xs[|xs| - 1]);
      assert forall i :: 0 <= i < |xs| - 1 ==> xs[..|xs| - 1][i] == xs[i];
      if k in p then p else p + [k]
  }

  /** The members of group `k`, in input order. */
  function Members<T, K(==)>(xs: seq<T>, key: T -> K, k: K): (r: seq<T>)
    ensures |r| <= |xs|
    ensures forall i :: 0 <= i < |r| ==> key(r[i]) == k
    decreases |xs|
  {
    if |xs| == 0 then []
    else
      var last := xs[|xs| - 1];
      Members(xs[..|xs| - 1], key, k) + (if key(last) == k then [last] else [])
  }

  /** The sum of the group sizes over `ks`. */
  function SumSizes<T, K(==)>(xs: seq<T>, key: T -> K, ks: seq<K>): nat {
    if |ks| == 0 then 0 else |Members(xs, key, ks[0])| + SumSizes(xs, key, ks[1..])
  }

  /** A key has members exactly when it is one of the keys. */
  lemma {:induction false} MembersNonEmpty<T, K>(xs: seq<T>, key: T -> K, k: K)
    ensures |Members(xs, key, k)| > 0 <==> k in Keys(xs, key)
    decreases |xs|
  {
    if |xs| > 0 {
      MembersNonEmpty(xs[..|xs| - 1], key, k);
    }
  }

  lemma {:induction false} SumSizesStep<T, K>(xs: seq<T>, key: T -> K, ks: seq<K>)
    requires |xs| > 0
    requires forall i, j :: 0 <= i < j < |ks| ==> ks[i] != ks[j]
    ensures SumSizes(xs, key, ks) ==
            SumSizes(xs[..|xs| - 1], key, ks) + (if key(xs[|xs| - 1]) in ks then 1 else 0)
    decreases |ks|
  {
    if |ks| > 0 {
      SumSizesStep(xs, key, ks[1..]);
      assert key(xs[|xs| - 1]) in ks <==> key(xs[|xs| - 1]) == ks[0] || key(xs[|xs| - 1]) in ks[1..];
      if key(xs[|xs| - 1]) == ks[0] {
        assert ks[0] !in ks[1..] by {
          forall j | 0 <= j < |ks[1..]| ensures ks[1..][j] != ks[0] {
            assert ks[1..][j] == ks[j + 1];
          }
        }
      }
    }
  }

  lemma {:induction false} SumSizesAppend<T, K>(xs: seq<T>, key: T -> K, ks: seq<K>, k: K)
    ensures SumSizes(xs, key, ks + [k]) == SumSizes(xs, key, ks) + |Members(xs, key, k)|
    decreases |ks|
  {
    if |ks| == 0 {
      assert ([] + [k])[1..] == [];
    } else {
      assert (ks + [k])[1..] == ks[1..] + [k];
      SumSizesAppend(xs, key, ks[1..], k);
    }
  }

  lemma {:induction false} SumSizesAbsent<T, K>(xs: seq<T>, key: T -> K, ks: seq<K>)
    requires forall k :: k in ks ==> k !in Keys(xs, key)
    ensures SumSizes(xs, key, ks) == 0
    decreases |ks|
  {
    if |ks| > 0 {
      MembersNonEmpty(xs, key, ks[0]);
      SumSizesAbsent(xs, key, ks[1..]);
    }
  }

  /** The group sizes add up to the length of the input: every element lands
      in exactly one group. */
  lemma {:induction false} GroupSizesSum<T, K>(xs: seq<T>, key: T -> K)
    ensures SumSizes(xs, key, Keys(xs, key)) == |xs|
    decreases |xs|
  {
    if |xs| > 0 {
      var p := xs[..|xs| - 1];
      var k := key(xs[|xs| - 1]);
      var ks := Keys(xs, key);
      GroupSizesSum(p, key);
      SumSizesStep(xs, key, ks);
      if k in Keys(p, key) {
        assert ks == Keys(p, key);
      } else {
        assert ks == Keys(p, key) + [k];
        SumSizesAppend(p, key, Keys(p, key), k);
        MembersNonEmpty(p, key, k);
        assert |Members(p, key, k)| == 0;
      }
    }
  }

  /** Appending one element extends exactly its own group. */
  lemma MembersSnoc<T, K>(xs: seq<T>, x: T, key: T -> K, k: K)
    ensures Members(xs + [x], key, k) == Members(xs, key, k) + (if key(x) == k then [x] else [])
    ensures key(x) == k ==> Members(xs + [x], key, k) == Members(xs, key, k) + [x]
    ensures key(x) != k ==> Members(xs + [x], key, k) == Members(xs, key, k)
  {
    assert (xs + [x])[..|xs|] == xs;
    assert Members(xs, key, k) + [] == Members(xs, key, k);
  }

  lemma KeysSnoc<T, K>(xs: seq<T>, x: T, key: T -> K)
    ensures Keys(xs + [x], key) == if key(x) in Keys(xs, key) then Keys(xs, key) else Keys(xs, key) + [key(x)]
  {
    assert (xs + [x])[..|xs|] == xs;
  }

  /** The concatenation of `f(k)` over `ks`, in order: the list a loop over
      `ks` builds by extending it with `f(k)` at every step. */
  function FlatMap<K, F>(ks: seq<K>, f: K -> seq<F>): seq<F>
    decreases |ks|
  {
    if |ks| == 0 then [] else FlatMap(ks[..|ks| - 1], f) + f(ks[|ks| - 1])
  }

  lemma FlatMapSnoc<K, F>(ks: seq<K>, k: K, f: K -> seq<F>)
    ensures FlatMap(ks + [k], f) == FlatMap(ks, f) + f(k)
  {
    assert (ks + [k])[..|ks|] == ks;
  }

  /** An element of the concatenation comes from one of the keys, and every
      element produced for a key is in it. */
  /** The loop step over `ks[j]`. */
  lemma FlatMapPrefix<K, F>(ks: seq<K>, j: nat, f: K -> seq<F>)
    requires j < |ks|
    ensures FlatMap(ks[..j + 1], f) == FlatMap(ks[..j], f) + f(ks[j])
  {
    assert ks[..j + 1][..j] == ks[..j];
  }

  lemma {:induction false} FlatMapMember<K, F>(ks: seq<K>, f: K -> seq<F>, x: F)
    ensures x in FlatMap(ks, f) <==> exists k :: k in ks && x in f(k)
    decreases |ks|
  {
    if |ks| > 0 {
      var p := ks[..|ks| - 1];
      var last := ks[|ks| - 1];
      FlatMapMember(p, f, x);
      assert ks == p + [last];
      forall k | k in ks ensures k in p || k == last {
      }
    }
  }

  /** The concatenation of `f(s[i], s[i + 1])` over every two neighbours of
      `s`, in order: what a loop over `range(len(s) - 1)` builds. */
  function Neighbours<T, F>(s: seq<T>, f: (T, T) -> seq<F>): seq<F>
    decreases |s|
  {
    if |s| < 2 then [] else Neighbours(s[..|s| - 1], f) + f(s[|s| - 2], s[|s| - 1])
  }

  /** The loop step over the neighbours `s[i]`, `s[i + 1]`. */
  lemma NeighboursPrefix<T, F>(s: seq<T>, i: nat, f: (T, T) -> seq<F>)
    requires i + 1 < |s|
    ensures Neighbours(s[..i + 2], f) == Neighbours(s[..i + 1], f) + f(s[i], s[i + 1])
  {
    assert s[..i + 2][..i + 1] == s[..i + 1];
  }

  /** Every element comes from two neighbours. */
  lemma {:induction false} NeighboursMember<T, F>(s: seq<T>, f: (T, T) -> seq<F>, x: F) returns (i: nat)
    requires x in Neighbours(s, f)
    ensures i + 1 < |s| && x in f(s[i], s[i + 1])
    decreases |s|
  {
    var p := s[..|s| - 1];
    if x in Neighbours(p, f) {
      i := NeighboursMember(p, f, x);
      assert p[i] == s[i] && p[i + 1] == s[i + 1];
    } else {
      i := |s| - 2;
    }
  }

  /** Every two neighbours contribute what `f` gives them. */
  lemma {:induction false} NeighboursContain<T, F>(s: seq<T>, f: (T, T) -> seq<F>, i: nat)
    requires i + 1 < |s|
    ensures forall x :: x in f(s[i], s[i + 1]) ==> x in Neighbours(s, f)
    decreases |s|
  {
    if i + 2 < |s| {
      var p := s[..|s| - 1];
      NeighboursContain(p, f, i);
      assert p[i] == s[i] && p[i + 1] == s[i + 1];
    }
  }

  /** At most one element per two neighbours. */
  lemma {:induction false} NeighboursBound<T, F>(s: seq<T>, f: (T, T) -> seq<F>)
    requires |s| > 0
    requires forall a, b :: |f(a, b)| <= 1
    ensures |Neighbours(s, f)| + 1 <= |s|
    decreases |s|
  {
    if |s| >= 2 {
      NeighboursBound(s[..|s| - 1], f);
    }
  }

  /** At most `n` elements per key give at most `n` times as many in all. */
  lemma {:induction false} FlatMapBound<K, F>(ks: seq<K>, f: K -> seq<F>, n: nat)
    requires forall k :: k in ks ==> |f(k)| <= n
    ensures |FlatMap(ks, f)| <= n * |ks|
    decreases |ks|
  {
    if |ks| > 0 {
      var p := ks[..|ks| - 1];
      assert forall k :: k in p ==> k in ks;
      FlatMapBound(p, f, n);
      assert |FlatMap(ks, f)| <= n * |p| + n;
    }
  }

  lemma {:induction false} FlatMapAppend<K, F>(a: seq<K>, b: seq<K>, f: K -> seq<F>)
    ensures FlatMap(a + b, f) == FlatMap(a, f) + FlatMap(b, f)
    decreases |b|
  {
    if |b| == 0 {
      assert a + b == a;
    } else {
      var q := b[..|b| - 1];
      assert a + b == (a + q) + [b[|b| - 1]];
      FlatMapSnoc(a + q, b[|b| - 1], f);
      FlatMapAppend(a, q, f);
      assert b == q + [b[|b| - 1]];
      FlatMapSnoc(q, b[|b| - 1], f);
    }
  }

  /** Two functions that agree on `ks` flatten it alike. */
  lemma {:induction false} FlatMapCongruent<K, F>(ks: seq<K>, f: K -> seq<F>, g: K -> seq<F>)
    requires forall k :: k in ks ==> f(k) == g(k)
    ensures FlatMap(ks, f) == FlatMap(ks, g)
    decreases |ks|
  {
    if |ks| > 0 {
      FlatMapCongruent(ks[..|ks| - 1], f, g);
      assert ks[|ks| - 1] in ks;
    }
  }

  /** The number of elements of `xs` that satisfy `p`. */
  function CountWhere<T>(xs: seq<T>, p: T -> bool): (n: nat)
    ensures n <= |xs|
    decreases |xs|
  {
    if |xs| == 0 then 0
    else CountWhere(xs[..|xs| - 1], p) + (if p(xs[|xs| - 1]) then 1 else 0)
  }

  lemma CountWhereSnoc<T>(xs: seq<T>, x: T, p: T -> bool)
    ensures CountWhere(xs + [x], p) == CountWhere(xs, p) + (if p(x) then 1 else 0)
  {
    assert (xs + [x])[..|xs|] == xs;
  }

  /** The elements of `xs` that satisfy `p`, in order. */
  function Filter<T>(xs: seq<T>, p: T -> bool): (r: seq<T>)
    ensures |r| <= |xs|
    ensures forall i :: 0 <= i < |r| ==> p(r[i])
    decreases |xs|
  {
    if |xs| == 0 then []
    else Filter(xs[..|xs| - 1], p) + (if p(xs[|xs| - 1]) then [xs[|xs| - 1]] else [])
  }

  lemma FilterSnoc<T>(xs: seq<T>, x: T, p: T -> bool)
    ensures Filter(xs + [x], p) == Filter(xs, p) + (if p(x) then [x] else [])
    ensures p(x) ==> Filter(xs + [x], p) == Filter(xs, p) + [x]
    ensures !p(x) ==> Filter(xs + [x], p) == Filter(xs, p)
  {
    assert (xs + [x])[..|xs|] == xs;
    assert Filter(xs, p) + [] == Filter(xs, p);
  }

  lemma {:induction false} FilterAppend<T>(a: seq<T>, b: seq<T>, p: T -> bool)
    ensures Filter(a + b, p) == Filter(a, p) + Filter(b, p)
    decreases |b|
  {
    if |b| == 0 {
      assert a + b == a;
    } else {
      var x := b[|b| - 1];
      var c := b[..|b| - 1];
      assert b == c + [x];
      assert a + b == (a + c) + [x];
      FilterSnoc(a + c, x, p);
      FilterSnoc(c, x, p);
      FilterAppend(a, c, p);
    }
  }

  lemma {:induction false} MembersAppend<T, K>(a: seq<T>, b: seq<T>, key: T -> K, k: K)
    ensures Members(a + b, key, k) == Members(a, key, k) + Members(b, key, k)
    decreases |b|
  {
    if |b| == 0 {
      assert a + b == a;
      assert Members(a, key, k) + [] == Members(a, key, k);
    } else {
      var x := b[|b| - 1];
      var c := b[..|b| - 1];
      assert b == c + [x];
      assert a + b == (a + c) + [x];
      MembersSnoc(a + c, x, key, k);
      MembersSnoc(c, x, key, k);
      MembersAppend(a, c, key, k);
    }
  }

  lemma {:induction false} CountWhereAppend<T>(a: seq<T>, b: seq<T>, p: T -> bool)
    ensures CountWhere(a + b, p) == CountWhere(a, p) + CountWhere(b, p)
    decreases |b|
  {
    if |b| == 0 {
      assert a + b == a;
    } else {
      var x := b[|b| - 1];
      var c := b[..|b| - 1];
      assert b == c + [x];
      assert a + b == (a + c) + [x];
      CountWhereSnoc(a + c, x, p);
      CountWhereSnoc(c, x, p);
      CountWhereAppend(a, c, p);
    }
  }

  /** No element satisfies `p`: the count is zero; every element does: the
      count is the length. */
  /** When only the key `k0` can contribute elements satisfying `p`, and it
      contributes at most `b` of them, a concatenation over distinct keys
      holds at most `b` such elements, and none when `k0` is not a key. */
  lemma {:induction false} FlatMapCountOne<K, F>(ks: seq<K>, f: K -> seq<F>, p: F -> bool, k0: K, b: nat)
    requires forall i, j :: 0 <= i < j < |ks| ==> ks[i] != ks[j]
    requires forall k :: k in ks && k != k0 ==> CountWhere(f(k), p) == 0
    requires CountWhere(f(k0), p) <= b
    ensures CountWhere(FlatMap(ks, f), p) <= if k0 in ks then b else 0
    decreases |ks|
  {
    if |ks| > 0 {
      var n := |ks| - 1;
      var q := ks[..n];
      assert forall k :: k in q ==> k in ks;
      FlatMapCountOne(q, f, p, k0, b);
      CountWhereAppend(FlatMap(q, f), f(ks[n]), p);
      if ks[n] == k0 {
        forall i | 0 <= i < n
          ensures q[i] != k0
        {
          assert q[i] == ks[i];
        }
      }
    }
  }

  lemma {:induction false} CountWhereUniform<T>(xs: seq<T>, p: T -> bool, b: bool)
    requires forall i :: 0 <= i < |xs| ==> p(xs[i]) == b
    ensures CountWhere(xs, p) == if b then |xs| else 0
    decreases |xs|
  {
    if |xs| > 0 {
      CountWhereUniform(xs[..|xs| - 1], p, b);
    }
  }

  /** Groups `xs` with a dictionary filled in one pass, as a `defaultdict`
      is: `keys` is the dictionary's iteration order and `groups` its
      contents. */
  method GroupBy<T, K(==)>(xs: seq<T>, key: T -> K) returns (keys: seq<K>, groups: map<K, seq<T>>)
    ensures keys == Keys(xs, key)
    ensures forall k :: k in groups <==> k in keys
    ensures forall k :: k in groups ==> groups[k] == Members(xs, key, k)
  {
    keys := [];
    groups := map[];
    var i := 0;
    while i < |xs|
      invariant 0 <= i <= |xs|
      invariant keys == Keys(xs[..i], key)
      invariant forall k :: k in groups <==> k in keys
      invariant forall k :: k in groups ==> groups[k] == Members(xs[..i], key, k)
    {
      var x := xs[i];
      assert xs[..i + 1] == xs[..i] + [x];
      keys, groups := AddMember(xs[..i], x, key, keys, groups);
      i := i + 1;
    }
    assert xs[..i] == xs;
  }

  /** An element is kept exactly when it is in `xs` and satisfies `p`. */
  lemma {:induction false} FilterMember<T>(xs: seq<T>, p: T -> bool, x: T)
    ensures x in Filter(xs, p) <==> x in xs && p(x)
    decreases |xs|
  {
    if |xs| > 0 {
      var q := xs[..|xs| - 1];
      assert xs == q + [xs[|xs| - 1]];
      FilterSnoc(q, xs[|xs| - 1], p);
      FilterMember(q, p, x);
    }
  }

  /** A filter that every element passes keeps the sequence whole; in
      particular filtering twice is filtering once. */
  lemma {:induction false} FilterKeepsAll<T>(xs: seq<T>, p: T -> bool)
    requires forall i :: 0 <= i < |xs| ==> p(xs[i])
    ensures Filter(xs, p) == xs
    decreases |xs|
  {
    if |xs| > 0 {
      FilterKeepsAll(xs[..|xs| - 1], p);
      assert xs == xs[..|xs| - 1] + [xs[|xs| - 1]];
    }
  }

  /** An element is in group `k` exactly when it is in `xs` with key `k`. */
  lemma {:induction false} MembersMember<T, K>(xs: seq<T>, key: T -> K, k: K, x: T)
    ensures x in Members(xs, key, k) <==> x in xs && key(x) == k
    decreases |xs|
  {
    if |xs| > 0 {
      var q := xs[..|xs| - 1];
      assert xs == q + [xs[|xs| - 1]];
      MembersSnoc(q, xs[|xs| - 1], key, k);
      MembersMember(q, key, k, x);
    }
  }

  /** When every key's contribution is shorter than its group, the whole
      concatenation is shorter than the groups together by one per key. */
  lemma {:induction false} FlatMapSizes<T, K, F>(xs: seq<T>, key: T -> K, ks: seq<K>, f: K -> seq<F>)
    requires forall k :: k in ks ==> |f(k)| + 1 <= |Members(xs, key, k)|
    ensures |FlatMap(ks, f)| + |ks| <= SumSizes(xs, key, ks)
    decreases |ks|
  {
    if |ks| > 0 {
      var p := ks[..|ks| - 1];
      var k := ks[|ks| - 1];
      assert ks == p + [k];
      FlatMapSizes(xs, key, p, f);
      SumSizesAppend(xs, key, p, k);
    }
  }

  /** The body of a grouping loop for an element that is kept: its group is
      created when new and the element is appended to it. */
  method AddMember<T, K(==)>(ghost kept: seq<T>, x: T, key: T -> K, keys: seq<K>, groups: map<K, seq<T>>)
    returns (keys': seq<K>, groups': map<K, seq<T>>)
    requires keys == Keys(kept, key)
    requires forall k :: k in groups <==> k in keys
    requires forall k :: k in groups ==> groups[k] == Members(kept, key, k)
    ensures keys' == Keys(kept + [x], key)
    ensures forall k :: k in groups' <==> k in keys'
    ensures forall k :: k in groups' ==> groups'[k] == Members(kept + [x], key, k)
  {
    var k := key(x);
    KeysSnoc(kept, x, key);
    forall k' ensures Members(kept + [x], key, k') == Members(kept, key, k') + (if key(x) == k' then [x] else []) {
      MembersSnoc(kept, x, key, k');
    }
    if k in groups {
      keys' := keys;
      groups' := groups[k := groups[k] + [x]];
    } else {
      MembersNonEmpty(kept, key, k);
      keys' := keys + [k];
      groups' := groups[k := [x]];
    }
  }

  /** Groups the elements of `xs` that pass `keep`, in one pass, as a loop
      that skips the others while filling a `defaultdict(list)` does. */
  method GroupWhere<T, K(==)>(xs: seq<T>, keep: T -> bool, key: T -> K)
    returns (keys: seq<K>, groups: map<K, seq<T>>)
    ensures keys == Keys(Filter(xs, keep), key)
    ensures forall k :: k in groups <==> k in keys
    ensures forall k :: k in groups ==> groups[k] == Members(Filter(xs, keep), key, k)
  {
    keys := [];
    groups := map[];
    ghost var kept: seq<T> := [];
    var i := 0;
    while i < |xs|
      invariant 0 <= i <= |xs|
      invariant kept == Filter(xs[..i], keep)
      invariant keys == Keys(kept, key)
      invariant forall k :: k in groups <==> k in keys
      invariant forall k :: k in groups ==> groups[k] == Members(kept, key, k)
    {
      var x := xs[i];
      assert xs[..i + 1] == xs[..i] + [x];
      FilterSnoc(xs[..i], x, keep);
      ghost var next := Filter(xs[..i + 1], keep);
      if keep(x) {
        keys, groups := AddMember(kept, x, key, keys, groups);
        kept := kept + [x];
        assert kept == next;
      } else {
        assert kept == next;
      }
      i := i + 1;
    }
    assert xs[..i] == xs;
  }
}
