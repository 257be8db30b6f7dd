/** Python's `list.sort(key=...)` with string keys: a stable sort in code
    point order. The sort is specified by `SortBy`, which sorts, permutes
    and keeps equal keys in their input order, and is the only sequence that
    does all three (`SortByUnique`); `SortInPlace` sorts an array to it. */
module Sorting {
  import opened Grouping

  /** `a <= b` on Python strings: code point by code point, a proper prefix
      first. */
  predicate LexLe(a: string, b: string)
    decreases |a|
  {
    |a| == 0 || (|b| > 0 && (a[0] < b[0] || (a[0] == b[0] && LexLe(a[1..], b[1..]))))
  }

  lemma {:induction false} LexLeReflexive(a: string)
    ensures LexLe(a, a)
    decreases |a|
  {
    if |a| > 0 {
      LexLeReflexive(a[1..]);
    }
  }

  lemma {:induction false} LexLeTotal(a: string, b: string)
    ensures LexLe(a, b) || LexLe(b, a)
    decreases |a|
  {
    if |a| > 0 && |b| > 0 && a[0] == b[0] {
      LexLeTotal(a[1..], b[1..]);
    }
  }

  lemma {:induction false} LexLeAntisymmetric(a: string, b: string)
    requires LexLe(a, b) && LexLe(b, a)
    ensures a == b
    decreases |a|
  {
    if |a| > 0 {
      LexLeAntisymmetric(a[1..], b[1..]);
      assert a == [a[0]] + a[1..];
      assert b == [b[0]] + b[1..];
    }
  }

  lemma {:induction false} LexLeTransitive(a: string, b: string, c: string)
    requires LexLe(a, b) && LexLe(b, c)
    ensures LexLe(a, c)
    decreases |a|
  {
    if |a| > 0 && a[0] == b[0] && b[0] == c[0] {
      LexLeTransitive(a[1..], b[1..], c[1..]);
    }
  }

  /** Every element's key is at most every later element's key. */
  ghost predicate Sorted<T>(s: seq<T>, key: T -> string) {
    forall i, j :: 0 <= i < j < |s| ==> LexLe(key(s[i]), key(s[j]))
  }

  /** `x` placed after every trailing element whose key is above its own:
      the step of a stable insertion sort. */
  function InsertLast<T>(s: seq<T>, x: T, key: T -> string): (r: seq<T>)
    ensures |r| == |s| + 1
    decreases |s|
  {
    if |s| == 0 || LexLe(key(s[|s| - 1]), key(x)) then s + [x]
    else
      assert s == s[..|s| - 1] + [s[|s| - 1]];
      InsertLast(s[..|s| - 1], x, key) + [s[|s| - 1]]
  }

  /** The result of sorting `xs` by `key`; a permutation of `xs`
      (`SortByPermutes`). */
  function SortBy<T>(xs: seq<T>, key: T -> string): (r: seq<T>)
    ensures |r| == |xs|
    decreases |xs|
  {
    if |xs| == 0 then []
    else
      assert xs == xs[..|xs| - 1] + [xs[|xs| - 1]];
      InsertLast(SortBy(xs[..|xs| - 1], key), xs[|xs| - 1], key)
  }

  /** `InsertLast` adds `x` and keeps everything else. */
  lemma {:induction false} InsertLastPermutes<T>(s: seq<T>, x: T, key: T -> string)
    ensures multiset(InsertLast(s, x, key)) == multiset(s) + multiset{x}
    decreases |s|
  {
    if |s| > 0 && !LexLe(key(s[|s| - 1]), key(x)) {
      var p := s[..|s| - 1];
      assert s == p + [s[|s| - 1]];
      InsertLastPermutes(p, x, key);
    }
  }

  /** `SortBy` permutes its input. */
  lemma {:induction false} SortByPermutes<T>(xs: seq<T>, key: T -> string)
    ensures multiset(SortBy(xs, key)) == multiset(xs)
    decreases |xs|
  {
    if |xs| > 0 {
      var p := xs[..|xs| - 1];
      assert xs == p + [xs[|xs| - 1]];
      SortByPermutes(p, key);
      InsertLastPermutes(SortBy(p, key), xs[|xs| - 1], key);
    }
  }

  /** The elements with key `k`. */
  function KeyIs<T>(key: T -> string, k: string): T -> bool {
    x => key(x) == k
  }

  // ---------------------------------------------------------------------
  // Sortedness
  // ---------------------------------------------------------------------

  lemma SortedPrefix<T>(s: seq<T>, key: T -> string, n: nat)
    requires Sorted(s, key) && n <= |s|
    ensures Sorted(s[..n], key)
  {
    forall i, j | 0 <= i < j < n ensures LexLe(key(s[..n][i]), key(s[..n][j])) {
      assert s[..n][i] == s[i] && s[..n][j] == s[j];
    }
  }

  /** In a sorted sequence no key is above the last one. */
  lemma LastIsGreatest<T>(s: seq<T>, key: T -> string, y: T)
    requires Sorted(s, key) && y in s
    ensures LexLe(key(y), key(s[|s| - 1]))
  {
    var m :| 0 <= m < |s| && s[m] == y;
    if m == |s| - 1 {
      LexLeReflexive(key(y));
    }
  }

  lemma {:induction false} InsertLastSorted<T>(s: seq<T>, x: T, key: T -> string)
    requires Sorted(s, key)
    ensures Sorted(InsertLast(s, x, key), key)
    decreases |s|
  {
    if |s| == 0 || LexLe(key(s[|s| - 1]), key(x)) {
      var r := s + [x];
      forall i, j | 0 <= i < j < |r| ensures LexLe(key(r[i]), key(r[j])) {
        if j == |s| && i < |s| - 1 {
          LexLeTransitive(key(s[i]), key(s[|s| - 1]), key(x));
        }
      }
    } else {
      var p := s[..|s| - 1];
      var last := s[|s| - 1];
      SortedPrefix(s, key, |s| - 1);
      InsertLastSorted(p, x, key);
      var q := InsertLast(p, x, key);
      LexLeTotal(key(last), key(x));
      var r := q + [last];
      forall i, j | 0 <= i < j < |r| ensures LexLe(key(r[i]), key(r[j])) {
        if j == |q| {
          var y := q[i];
          InsertLastPermutes(p, x, key);
          assert y in multiset(q);
          if y != x {
            assert y in p;
            var m :| 0 <= m < |p| && p[m] == y;
            assert s[m] == y;
          }
        }
      }
    }
  }

  /** `SortBy` sorts. */
  lemma {:induction false} SortBySorted<T>(xs: seq<T>, key: T -> string)
    ensures Sorted(SortBy(xs, key), key)
    decreases |xs|
  {
    if |xs| > 0 {
      SortBySorted(xs[..|xs| - 1], key);
      InsertLastSorted(SortBy(xs[..|xs| - 1], key), xs[|xs| - 1], key);
    }
  }

  // ---------------------------------------------------------------------
  // Stability
  // ---------------------------------------------------------------------

  /** The elements of `a` and `b` passing `f`, when at most one of them
      does, in either order. */
  lemma FilterSwap<T>(a: seq<T>, x: T, y: T, f: T -> bool)
    requires !(f(x) && f(y))
    ensures Filter(a + [x] + [y], f) == Filter(a + [y] + [x], f)
  {
    FilterSnoc(a + [x], y, f);
    FilterSnoc(a, x, f);
    FilterSnoc(a + [y], x, f);
    FilterSnoc(a, y, f);
  }

  /** Moving `x` before a larger trailing `last` leaves every per-key filter
      as it was. */
  lemma InsertLastFilterPast<T>(p: seq<T>, last: T, x: T, key: T -> string, k: string)
    requires !LexLe(key(last), key(x))
    requires Filter(InsertLast(p, x, key), KeyIs(key, k)) == Filter(p + [x], KeyIs(key, k))
    ensures Filter(InsertLast(p + [last], x, key), KeyIs(key, k)) == Filter(p + [last] + [x], KeyIs(key, k))
  {
    var f := KeyIs(key, k);
    var s := p + [last];
    assert s[..|s| - 1] == p && s[|s| - 1] == last;
    assert InsertLast(s, x, key) == InsertLast(p, x, key) + [last];
    LexLeReflexive(key(x));
    FilterSnoc(InsertLast(p, x, key), last, f);
    FilterSnoc(p + [x], last, f);
    FilterSwap(p, x, last, f);
  }

  /** Inserting `x` leaves the per-key filters those of `s` followed by `x`. */
  lemma {:induction false} InsertLastFilter<T>(s: seq<T>, x: T, key: T -> string, k: string)
    ensures Filter(InsertLast(s, x, key), KeyIs(key, k)) == Filter(s + [x], KeyIs(key, k))
    decreases |s|
  {
    if |s| > 0 && !LexLe(key(s[|s| - 1]), key(x)) {
      var p := s[..|s| - 1];
      assert s == p + [s[|s| - 1]];
      InsertLastFilter(p, x, key, k);
      InsertLastFilterPast(p, s[|s| - 1], x, key, k);
    }
  }

  /** `SortBy` is stable: the elements with any one key keep their input
      order. */
  lemma {:induction false} SortByStable<T>(xs: seq<T>, key: T -> string, k: string)
    ensures Filter(SortBy(xs, key), KeyIs(key, k)) == Filter(xs, KeyIs(key, k))
    decreases |xs|
  {
    if |xs| > 0 {
      var p := xs[..|xs| - 1];
      var x := xs[|xs| - 1];
      assert xs == p + [x];
      SortByStable(p, key, k);
      InsertLastFilter(SortBy(p, key), x, key, k);
      FilterSnoc(SortBy(p, key), x, KeyIs(key, k));
      FilterSnoc(p, x, KeyIs(key, k));
    }
  }

  // ---------------------------------------------------------------------
  // Uniqueness
  // ---------------------------------------------------------------------

  /** Sequences with the same elements key by key share every element. */
  lemma ShareElements<T>(s: seq<T>, t: seq<T>, key: T -> string, i: nat)
    requires i < |s|
    requires forall k :: Filter(s, KeyIs(key, k)) == Filter(t, KeyIs(key, k))
    ensures s[i] in t
  {
    var k := key(s[i]);
    FilterMember(s, KeyIs(key, k), s[i]);
    FilterMember(t, KeyIs(key, k), s[i]);
  }

  /** Two sorted sequences that hold, key by key, the same elements in the
      same order are equal. */
  lemma {:induction false} SortedStableUnique<T>(s: seq<T>, t: seq<T>, key: T -> string)
    requires Sorted(s, key) && Sorted(t, key)
    requires forall k :: Filter(s, KeyIs(key, k)) == Filter(t, KeyIs(key, k))
    ensures s == t
    decreases |s|
  {
    if |s| > 0 {
      ShareElements(s, t, key, |s| - 1);
    }
    if |t| > 0 {
      ShareElements(t, s, key, |t| - 1);
    }
    if |s| > 0 && |t| > 0 {
      var s', a := s[..|s| - 1], s[|s| - 1];
      var t', b := t[..|t| - 1], t[|t| - 1];
      assert s == s' + [a] && t == t' + [b];
      LastIsGreatest(t, key, a);
      LastIsGreatest(s, key, b);
      LexLeAntisymmetric(key(a), key(b));
      forall k ensures Filter(s', KeyIs(key, k)) == Filter(t', KeyIs(key, k)) {
        FilterSnoc(s', a, KeyIs(key, k));
        FilterSnoc(t', b, KeyIs(key, k));
        if k == key(a) {
          var fs, ft := Filter(s', KeyIs(key, k)), Filter(t', KeyIs(key, k));
          assert fs + [a] == ft + [b];
          assert fs == (fs + [a])[..|fs|];
          assert ft == (ft + [b])[..|ft|];
        }
      }
      var fa := Filter(s', KeyIs(key, key(a)));
      FilterSnoc(s', a, KeyIs(key, key(a)));
      FilterSnoc(t', b, KeyIs(key, key(a)));
      assert (fa + [a])[|fa|] == a;
      SortedPrefix(s, key, |s| - 1);
      SortedPrefix(t, key, |t| - 1);
      SortedStableUnique(s', t', key);
    }
  }

  /** Any stable sort of `xs` by `key` gives `SortBy(xs, key)`: a sequence
      that is sorted and holds, key by key, the elements of `xs` in their
      input order is that one. */
  lemma SortByUnique<T>(xs: seq<T>, t: seq<T>, key: T -> string)
    requires Sorted(t, key)
    requires forall k :: Filter(t, KeyIs(key, k)) == Filter(xs, KeyIs(key, k))
    ensures t == SortBy(xs, key)
  {
    SortBySorted(xs, key);
    forall k ensures Filter(SortBy(xs, key), KeyIs(key, k)) == Filter(t, KeyIs(key, k)) {
      SortByStable(xs, key, k);
    }
    SortedStableUnique(SortBy(xs, key), t, key);
  }

  // ---------------------------------------------------------------------
  // In place
  // ---------------------------------------------------------------------

  lemma SnocChain<T>(a: seq<T>, b: seq<T>, c: seq<T>, d: seq<T>, e: seq<T>, last: T)
    requires a == b + [last] && b == c + d && d + [last] == e
    ensures a == c + e
  {
  }

  /** Inserting `x` after a suffix of keys all above its own leaves
      that suffix after it. */
  lemma {:induction false} InsertLastPast<T>(s: seq<T>, x: T, key: T -> string, j: nat)
    requires j <= |s|
    requires forall m :: j <= m < |s| ==> !LexLe(key(s[m]), key(x))
    ensures InsertLast(s, x, key) == InsertLast(s[..j], x, key) + s[j..]
    decreases |s| - j
  {
    if j == |s| {
      assert s[..j] == s && s[j..] == [];
    } else {
      var p, last := s[..|s| - 1], s[|s| - 1];
      assert InsertLast(s, x, key) == InsertLast(p, x, key) + [last] by {
        assert !LexLe(key(last), key(x));
      }
      assert InsertLast(p, x, key) == InsertLast(s[..j], x, key) + p[j..] by {
        InsertLastPast(p, x, key, j);
        assert p[..j] == s[..j];
      }
      assert p[j..] + [last] == s[j..];
      SnocChain(InsertLast(s, x, key), InsertLast(p, x, key), InsertLast(s[..j], x, key), p[j..], s[j..], last);
    }
  }

  lemma InsertLastStop<T>(s: seq<T>, x: T, key: T -> string, j: nat)
    requires j <= |s| && (j == 0 || LexLe(key(s[j - 1]), key(x)))
    ensures InsertLast(s[..j], x, key) == s[..j] + [x]
  {
    if j > 0 {
      assert s[..j][j - 1] == s[j - 1];
    }
  }

  /** Shifts the trailing elements of `a[..i]` whose keys are above
      `key(x)` one place up, leaving a gap at `j`. */
  method ShiftPast<T>(a: array<T>, i: nat, x: T, key: T -> string) returns (j: nat)
    requires i < a.Length
    modifies a
    ensures j <= i
    ensures forall m :: 0 <= m < j ==> a[m] == old(a[m])
    ensures forall m :: j < m <= i ==> a[m] == old(a[m - 1])
    ensures forall m :: i < m < a.Length ==> a[m] == old(a[m])
    ensures j == 0 || LexLe(key(old(a[j - 1])), key(x))
    ensures InsertLast(old(a[..i]), x, key) == InsertLast(old(a[..i])[..j], x, key) + old(a[..i])[j..]
  {
    ghost var s := a[..i];
    j := i;
    while j > 0 && !LexLe(key(a[j - 1]), key(x))
      invariant j <= i
      invariant forall m :: 0 <= m < j ==> a[m] == old(a[m])
      invariant forall m :: j < m <= i ==> a[m] == old(a[m - 1])
      invariant forall m :: i < m < a.Length ==> a[m] == old(a[m])
      invariant forall m :: j <= m < i ==> !LexLe(key(s[m]), key(x))
    {
      a[j] := a[j - 1];
      j := j - 1;
    }
    InsertLastPast(s, x, key, j);
  }

  /** Moves `a[i]` back past the larger keys of `a[..i]`. */
  method InsertAt<T>(a: array<T>, i: nat, key: T -> string)
    requires i < a.Length
    modifies a
    ensures a[..i + 1] == InsertLast(old(a[..i]), old(a[i]), key)
    ensures forall m :: i < m < a.Length ==> a[m] == old(a[m])
  {
    ghost var s := a[..i];
    var x := a[i];
    var j := ShiftPast(a, i, x, key);
    InsertLastStop(s, x, key, j);
    a[j] := x;
    ghost var r := s[..j] + [x] + s[j..];
    forall m | 0 <= m <= i ensures a[m] == r[m] {
      if m > j {
        assert r[m] == s[m - 1];
      }
    }
    assert a[..i + 1] == r;
  }

  /** Sorts `a` in place, stably, by `key`. */
  method SortInPlace<T>(a: array<T>, key: T -> string)
    modifies a
    ensures a[..] == SortBy(old(a[..]), key)
  {
    ghost var orig := a[..];
    var i := 0;
    while i < a.Length
      invariant 0 <= i <= a.Length
      invariant a[..i] == SortBy(orig[..i], key)
      invariant forall m :: i <= m < a.Length ==> a[m] == orig[m]
    {
      assert a[i] == orig[i];
      InsertAt(a, i, key);
      assert orig[..i + 1][..i] == orig[..i];
      i := i + 1;
    }
    assert orig[..i] == orig;
    assert a[..] == a[..i];
  }
}
