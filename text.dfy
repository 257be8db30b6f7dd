/** Python `str` operations used throughout the repository, on Dafny strings
    (sequences of Unicode scalar values). Case mapping and character classes
    are exact for ASCII and Latin-1 and leave every other character alone. */
module Text {

  datatype Option<T> = None | Some(value: T)

  // ---------------------------------------------------------------------
  // Character classes
  // ---------------------------------------------------------------------

  /** `str.isspace()`, which is also the set the regex class `\s` matches. */
  predicate IsSpace(c: char) {
    var n := c as int;
    n == 32 || 9 <= n <= 13 || 28 <= n <= 31 || n == 0x85 || n == 0xA0 ||
    n == 0x1680 || 0x2000 <= n <= 0x200A || n == 0x2028 || n == 0x2029 ||
    n == 0x202F || n == 0x205F || n == 0x3000
  }

  predicate IsDigit(c: char) { '0' <= c <= '9' }

  predicate IsAsciiLetter(c: char) { 'a' <= c <= 'z' || 'A' <= c <= 'Z' }

  predicate IsAsciiAlnum(c: char) { IsAsciiLetter(c) || IsDigit(c) }

  /** The regex class `\w`: letters, digits, numerics and `_` (Latin-1 range). */
  predicate IsWordChar(c: char) {
    var n := c as int;
    IsAsciiAlnum(c) || c == '_' || n == 0xAA || n == 0xB2 || n == 0xB3 ||
    n == 0xB5 || n == 0xB9 || n == 0xBA || 0xBC <= n <= 0xBE ||
    (0xC0 <= n <= 0xFF && n != 0xD7 && n != 0xF7)
  }

  // ---------------------------------------------------------------------
  // Case mapping
  // ---------------------------------------------------------------------

  function LowerChar(c: char): char {
    var n := c as int;
    if 'A' <= c <= 'Z' || (0xC0 <= n <= 0xDE && n != 0xD7) then (n + 32) as char else c
  }

  /** `str.lower()` */
  function Lower(s: string): (r: string)
    ensures |r| == |s|
    ensures forall i :: 0 <= i < |s| ==> r[i] == LowerChar(s[i])
  {
    seq(|s|, i requires 0 <= i < |s| => LowerChar(s[i]))
  }

  function UpperChar(c: char): string {
    var n := c as int;
    if 'a' <= c <= 'z' || (0xE0 <= n <= 0xFE && n != 0xF7) then [(n - 32) as char]
    else if n == 0xFF then [0x178 as char]
    else if n == 0xB5 then [0x39C as char]
    else if n == 0xDF then "SS"
    else [c]
  }

  /** `str.upper()`; `ß` becomes `SS`, so the length may grow. */
  function Upper(s: string): string
    decreases |s|
  {
    if s == [] then [] else UpperChar(s[0]) + Upper(s[1..])
  }

  // ---------------------------------------------------------------------
  // Prefixes, substrings, search
  // ---------------------------------------------------------------------

  predicate StartsWith(s: string, p: string) {
    |p| <= |s| && s[..|p|] == p
  }

  predicate EndsWith(s: string, p: string) {
    |p| <= |s| && s[|s| - |p|..] == p
  }

  /** Python's `sub in s`. */
  predicate Contains(s: string, sub: string)
    decreases |s|
  {
    StartsWith(s, sub) || (|s| > 0 && Contains(s[1..], sub))
  }

  predicate OccursAt(s: string, sub: string, i: int) {
    0 <= i && i + |sub| <= |s| && s[i..i + |sub|] == sub
  }

  lemma {:induction false} OccursAtContains(s: string, sub: string, i: int)
    requires OccursAt(s, sub, i)
    ensures Contains(s, sub)
    decreases i
  {
    if i > 0 {
      assert s[1..][i - 1..i - 1 + |sub|] == s[i..i + |sub|];
      OccursAtContains(s[1..], sub, i - 1);
    } else {
      assert s[..|sub|] == s[i..i + |sub|];
    }
  }

  lemma {:induction false} ContainsWitness(s: string, sub: string)
    requires Contains(s, sub)
    ensures exists i :: OccursAt(s, sub, i)
    decreases |s|
  {
    if StartsWith(s, sub) {
      assert OccursAt(s, sub, 0);
    } else {
      ContainsWitness(s[1..], sub);
      var j :| OccursAt(s[1..], sub, j);
      assert s[1..][j..j + |sub|] == s[j + 1..j + 1 + |sub|];
      assert OccursAt(s, sub, j + 1);
    }
  }

  lemma ContainsIff(s: string, sub: string)
    ensures Contains(s, sub) <==> exists i :: OccursAt(s, sub, i)
  {
    if Contains(s, sub) {
      ContainsWitness(s, sub);
    }
    forall i | OccursAt(s, sub, i) ensures Contains(s, sub) {
      OccursAtContains(s, sub, i);
    }
  }

  /** A text contains a pattern only if it holds each of its characters. */
  lemma ContainsNeedsChar(s: string, sub: string, c: char)
    requires c in sub
    ensures Contains(s, sub) ==> c in s
  {
    if Contains(s, sub) {
      ContainsWitness(s, sub);
      var i :| OccursAt(s, sub, i);
      var j :| 0 <= j < |sub| && sub[j] == c;
      assert s[i..i + |sub|][j] == s[i + j];
    }
  }

  lemma ContainsAt(s: string, sub: string, i: int)
    requires OccursAt(s, sub, i)
    ensures Contains(s, sub)
  {
    ContainsIff(s, sub);
  }

  /** A one-character needle is contained exactly when the character occurs. */
  lemma ContainsChar(s: string, c: char)
    ensures Contains(s, [c]) <==> c in s
  {
    ContainsIff(s, [c]);
    if c in s {
      var i :| 0 <= i < |s| && s[i] == c;
      assert s[i..i + 1] == [c];
      assert OccursAt(s, [c], i);
    }
    if Contains(s, [c]) {
      var i :| OccursAt(s, [c], i);
      assert s[i..i + 1][0] == s[i];
    }
  }

  /** Any occurrence of `sub` across a concatenation point is an occurrence in the whole. */
  lemma ContainsInConcat(a: string, b: string, sub: string)
    requires Contains(a, sub) || Contains(b, sub)
    ensures Contains(a + b, sub)
  {
    ContainsIff(a, sub);
    ContainsIff(b, sub);
    if Contains(a, sub) {
      var i :| OccursAt(a, sub, i);
      assert (a + b)[i..i + |sub|] == a[i..i + |sub|];
      ContainsAt(a + b, sub, i);
    } else {
      var i :| OccursAt(b, sub, i);
      assert (a + b)[|a| + i..|a| + i + |sub|] == b[i..i + |sub|];
      ContainsAt(a + b, sub, |a| + i);
    }
  }

  /** `str.find(sub)`: the first index where `sub` occurs. */
  function Find(s: string, sub: string): (r: Option<nat>)
    ensures r.Some? ==> OccursAt(s, sub, r.value) &&
                        forall j :: 0 <= j < r.value ==> !OccursAt(s, sub, j)
    ensures r.None? ==> forall j :: !OccursAt(s, sub, j)
    decreases |s|
  {
    if StartsWith(s, sub) then
      assert OccursAt(s, sub, 0) by {
        OccursStart(s, sub);
      }
      Some(0)
    else if |s| == 0 then None
    else
      match Find(s[1..], sub)
      case None =>
        assert forall j :: !OccursAt(s, sub, j) by {
          forall j ensures !OccursAt(s, sub, j) {
            OccursStart(s, sub);
            if j > 0 {
              OccursShift(s, sub, j);
            }
          }
        }
        None
      case Some(k) =>
        assert OccursAt(s, sub, k + 1) by {
          OccursShift(s, sub, k + 1);
        }
        assert forall j :: 0 <= j < k + 1 ==> !OccursAt(s, sub, j) by {
          forall j | 0 <= j < k + 1 ensures !OccursAt(s, sub, j) {
            OccursStart(s, sub);
            if j > 0 {
              OccursShift(s, sub, j);
            }
          }
        }
        Some(k + 1)
  }

  /** An occurrence at 0 is a prefix. */
  lemma OccursStart(s: string, sub: string)
    ensures OccursAt(s, sub, 0) == StartsWith(s, sub)
  {
    if |sub| <= |s| {
      assert s[0..|sub|] == s[..|sub|];
    }
  }

  /** Occurrences after the first character are those of the rest, one
      place earlier. */
  lemma OccursShift(s: string, sub: string, j: int)
    requires |s| > 0 && j > 0
    ensures OccursAt(s, sub, j) == OccursAt(s[1..], sub, j - 1)
  {
    if j + |sub| <= |s| {
      assert s[1..][j - 1..j - 1 + |sub|] == s[j..j + |sub|];
    }
  }

  lemma FindContains(s: string, sub: string)
    ensures Find(s, sub).Some? <==> Contains(s, sub)
  {
    ContainsIff(s, sub);
  }

  /** `s.split(sep, 1)`: the text before the first occurrence of `sep` and
      the text after it, or `[s]` when `sep` does not occur. */
  function SplitOnce(s: string, sep: string): (r: seq<string>)
    requires |sep| > 0
    ensures |r| == 1 <==> !Contains(s, sep)
    ensures |r| == 1 ==> r[0] == s
    ensures |r| == 2 ==> r[0] + sep + r[1] == s && !Contains(r[0], sep)
    ensures 1 <= |r| <= 2
  {
    FindContains(s, sep);
    match Find(s, sep)
    case None => [s]
    case Some(i) =>
      var before := s[..i];
      assert before + sep + s[i + |sep|..] == s by {
        assert s == s[..i] + s[i..i + |sep|] + s[i + |sep|..];
      }
      assert !Contains(before, sep) by {
        BeforeFirstLacks(s, sep, i);
      }
      [before, s[i + |sep|..]]
  }

  /** The text before the first occurrence does not hold it. */
  lemma BeforeFirstLacks(s: string, sub: string, i: nat)
    requires |sub| > 0 && i <= |s|
    requires forall j :: 0 <= j < i ==> !OccursAt(s, sub, j)
    ensures !Contains(s[..i], sub)
  {
    ContainsIff(s[..i], sub);
    forall j ensures !OccursAt(s[..i], sub, j) {
      if 0 <= j && j + |sub| <= i {
        OccursInPrefix(s, sub, i, j);
      }
    }
  }

  lemma OccursInPrefix(s: string, sub: string, i: nat, j: nat)
    requires j + |sub| <= i <= |s|
    ensures OccursAt(s[..i], sub, j) == OccursAt(s, sub, j)
  {
    assert s[..i][j..j + |sub|] == s[j..j + |sub|];
  }

  /** Splitting `a + [c] + b` once at `c` gives back `a` and `b` when `a`
      does not hold `c`. */
  lemma SplitOnceJoined(a: string, c: char, b: string)
    requires c !in a
    ensures SplitOnce(a + [c] + b, [c]) == [a, b]
  {
    var s := a + [c] + b;
    assert OccursAt(s, [c], |a|) by {
      assert s[|a|..|a| + 1] == [c];
    }
    FindContains(s, [c]);
    ContainsAt(s, [c], |a|);
    forall j | 0 <= j < |a| ensures !OccursAt(s, [c], j) {
      assert s[j..j + 1][0] == a[j];
    }
  }

  /** The pieces of a single split hold no character the text lacks. */
  lemma SplitOnceLacks(s: string, sep: char, c: char)
    requires c !in s
    ensures forall k :: 0 <= k < |SplitOnce(s, [sep])| ==> c !in SplitOnce(s, [sep])[k]
  {
    var r := SplitOnce(s, [sep]);
    if |r| == 2 {
      forall i | 0 <= i < |r[0]| ensures r[0][i] != c {
        assert r[0][i] == s[i];
      }
      forall i | 0 <= i < |r[1]| ensures r[1][i] != c {
        assert r[1][i] == s[|r[0]| + 1 + i];
      }
    }
  }

  // ---------------------------------------------------------------------
  // Stripping
  // ---------------------------------------------------------------------

  function TrimLeft(s: string, drop: char -> bool): (r: string)
    ensures |r| <= |s| && r == s[|s| - |r|..]
    ensures r == [] || !drop(r[0])
    ensures forall i :: 0 <= i < |s| - |r| ==> drop(s[i])
    decreases |s|
  {
    if |s| > 0 && drop(s[0]) then TrimLeft(s[1..], drop) else s
  }

  function TrimRight(s: string, drop: char -> bool): (r: string)
    ensures |r| <= |s| && r == s[..|r|]
    ensures r == [] || !drop(r[|r| - 1])
    ensures forall i :: |r| <= i < |s| ==> drop(s[i])
    decreases |s|
  {
    if |s| > 0 && drop(s[|s| - 1]) then TrimRight(s[..|s| - 1], drop) else s
  }

  /** `str.strip()` */
  function Strip(s: string): (r: string)
    ensures r == [] || (!IsSpace(r[0]) && !IsSpace(r[|r| - 1]))
  {
    TrimRight(TrimLeft(s, IsSpace), IsSpace)
  }

  /** `str.strip(c)` for a single character. */
  function StripChar(s: string, c: char): (r: string)
    ensures r == [] || (r[0] != c && r[|r| - 1] != c)
  {
    TrimRight(TrimLeft(s, x => x == c), x => x == c)
  }

  // ---------------------------------------------------------------------
  // Replace, split, join, count
  // ---------------------------------------------------------------------

  /** `s.replace(pat, rep)`: every non-overlapping occurrence, left to right. */
  function Replace(s: string, pat: string, rep: string): string
    requires |pat| > 0
    decreases |s|
  {
    if |s| == 0 then []
    else if StartsWith(s, pat) then rep + Replace(s[|pat|..], pat, rep)
    else [s[0]] + Replace(s[1..], pat, rep)
  }

  /** Every character of a replacement result comes from the input or from `rep`. */
  lemma {:induction false} ReplaceChars(s: string, pat: string, rep: string, c: char)
    requires |pat| > 0
    requires c in Replace(s, pat, rep)
    ensures c in s || c in rep
    decreases |s|
  {
    if |s| == 0 {
    } else if StartsWith(s, pat) {
      if c !in rep {
        ReplaceChars(s[|pat|..], pat, rep, c);
      }
    } else {
      if c != s[0] {
        ReplaceChars(s[1..], pat, rep, c);
      }
    }
  }

  /** Replacing never brings in a character that neither the input nor the
      replacement holds. */
  lemma ReplaceKeepsAbsent(s: string, pat: string, rep: string, c: char)
    requires |pat| > 0 && c !in s && c !in rep
    ensures c !in Replace(s, pat, rep)
  {
    if c in Replace(s, pat, rep) {
      ReplaceChars(s, pat, rep, c);
    }
  }

  /** Replacing a single character by text that does not hold it removes it. */
  lemma {:induction false} ReplaceRemovesChar(s: string, c: char, rep: string)
    requires c !in rep
    ensures c !in Replace(s, [c], rep)
    decreases |s|
  {
    if |s| > 0 {
      ReplaceRemovesChar(s[1..], c, rep);
      if !StartsWith(s, [c]) {
        assert s[..1] == [s[0]];
      }
    }
  }

  lemma {:induction false} ReplaceAbsent(s: string, pat: string, rep: string)
    requires |pat| > 0
    requires !Contains(s, pat)
    ensures Replace(s, pat, rep) == s
    decreases |s|
  {
    if |s| > 0 {
      ReplaceAbsent(s[1..], pat, rep);
    }
  }

  /** Replacing text that does not involve `c` keeps the number of `c`. */
  lemma {:induction false} ReplaceKeepsCount(s: string, pat: string, rep: string, c: char)
    requires |pat| > 0 && c !in pat && c !in rep
    ensures CountChar(Replace(s, pat, rep), c) == CountChar(s, c)
    decreases |s|
  {
    if |s| == 0 {
    } else if StartsWith(s, pat) {
      ReplaceKeepsCount(s[|pat|..], pat, rep, c);
      CountCharConcat(rep, Replace(s[|pat|..], pat, rep), c);
      CountCharSplitAt(s, |pat|, c);
      CountCharZero(rep, c);
      CountCharZero(pat, c);
    } else {
      ReplaceKeepsCount(s[1..], pat, rep, c);
      CountCharConcat([s[0]], Replace(s[1..], pat, rep), c);
    }
  }

  /** Replacing every `a` by `b` adds the count of `a` to the count of `b`. */
  lemma {:induction false} ReplaceCharCount(s: string, a: char, b: char)
    requires a != b
    ensures CountChar(Replace(s, [a], [b]), b) == CountChar(s, b) + CountChar(s, a)
    decreases |s|
  {
    if |s| > 0 {
      ReplaceCharCount(s[1..], a, b);
      if StartsWith(s, [a]) {
        assert s[0] == a && s[1..] == s[|[a]|..];
        CountCharConcat([b], Replace(s[1..], [a], [b]), b);
      } else {
        assert s[..1] == [s[0]];
        CountCharConcat([s[0]], Replace(s[1..], [a], [b]), b);
      }
    }
  }

  /** `s.split(sep)` with an explicit, non-empty separator. */
  function Split(s: string, sep: string): (r: seq<string>)
    requires |sep| > 0
    ensures |r| >= 1
    decreases |s|
  {
    match Find(s, sep)
    case None => [s]
    case Some(i) => [s[..i]] + Split(s[i + |sep|..], sep)
  }

  /** A text without the separator character is a single piece. */
  lemma SplitNoSep(s: string, c: char)
    requires c !in s
    ensures Split(s, [c]) == [s]
  {
    FindContains(s, [c]);
    ContainsChar(s, c);
  }

  /** The first piece of `(a + c + b).split(c)` is `a` when `a` holds no `c`. */
  lemma SplitFirstPiece(a: string, c: char, b: string)
    requires c !in a
    ensures Split(a + [c] + b, [c]) == [a] + Split(b, [c])
  {
    var s := a + [c] + b;
    assert OccursAt(s, [c], |a|) by {
      assert s[|a|..|a| + 1] == [c];
    }
    assert Find(s, [c]) == Some(|a|) by {
      forall j | 0 <= j < |a| ensures !OccursAt(s, [c], j) {
        assert s[j..j + 1][0] == a[j];
      }
    }
    assert s[..|a|] == a && s[|a| + 1..] == b;
  }

  /** No piece of `s.split(c)` holds `c`. */
  lemma {:induction false} SplitPiecesLack(s: string, c: char, k: nat)
    requires k < |Split(s, [c])|
    ensures c !in Split(s, [c])[k]
    decreases |s|
  {
    match Find(s, [c])
    case None =>
      if c in s {
        var i :| 0 <= i < |s| && s[i] == c;
        assert s[i..i + 1] == [c];
        assert OccursAt(s, [c], i);
      }
    case Some(i) =>
      if k == 0 {
        if c in s[..i] {
          var j :| 0 <= j < i && s[..i][j] == c;
          assert s[j..j + 1] == [c];
          assert OccursAt(s, [c], j);
        }
      } else {
        SplitPiecesLack(s[i + 1..], c, k - 1);
      }
  }

  /** Every character of a piece of `s.split(sep)` comes from `s`. */
  lemma {:induction false} SplitPieceChars(s: string, sep: string, k: nat, ch: char)
    requires |sep| > 0 && k < |Split(s, sep)|
    requires ch in Split(s, sep)[k]
    ensures ch in s
    decreases |s|
  {
    match Find(s, sep)
    case None =>
    case Some(i) =>
      if k == 0 {
        InSlice(s, 0, i, ch);
      } else {
        SplitPieceChars(s[i + |sep|..], sep, k - 1, ch);
        InSlice(s, i + |sep|, |s|, ch);
      }
  }

  /** A character of a slice is a character of the text. */
  lemma InSlice(s: string, a: nat, b: nat, c: char)
    requires a <= b <= |s| && c in s[a..b]
    ensures c in s
  {
    var j :| 0 <= j < b - a && s[a..b][j] == c;
    assert s[a + j] == c;
  }

  /** The last piece of `(a + c + b).split(c)` is `b` when `b` holds no `c`. */
  lemma {:induction false} SplitLastAfter(a: string, c: char, b: string)
    requires c !in b
    ensures Split(a + [c] + b, [c])[|Split(a + [c] + b, [c])| - 1] == b
    decreases |a|
  {
    var s := a + [c] + b;
    assert OccursAt(s, [c], |a|) by {
      assert s[|a|..|a| + 1] == [c];
    }
    var i := Find(s, [c]).value;
    if i == |a| {
      assert s[i + 1..] == b;
      SplitNoSep(b, c);
    } else {
      assert s[i + 1..] == a[i + 1..] + [c] + b;
      SplitLastAfter(a[i + 1..], c, b);
    }
  }

  /** `", ".join(parts)` with any separator. */
  function Join(parts: seq<string>, sep: string): string {
    if |parts| == 0 then ""
    else if |parts| == 1 then parts[0]
    else parts[0] + sep + Join(parts[1..], sep)
  }

  /** `s.count(c)` for a one-character argument. */
  function CountChar(s: string, c: char): (n: nat)
    ensures n <= |s|
    ensures n > 0 <==> c in s
  {
    if |s| == 0 then 0 else (if s[0] == c then 1 else 0) + CountChar(s[1..], c)
  }

  lemma {:induction false} CountCharSplit(s: string, i: nat, c: char)
    requires i < |s| && s[i] == c
    ensures CountChar(s, c) == CountChar(s[..i], c) + 1 + CountChar(s[i + 1..], c)
    decreases i
  {
    if i > 0 {
      CountCharSplit(s[1..], i - 1, c);
      assert s[1..][..i - 1] == s[1..i];
      assert s[1..][i..] == s[i + 1..];
      assert s[..i] == [s[0]] + s[1..i];
      assert CountChar(s[..i], c) == (if s[0] == c then 1 else 0) + CountChar(s[..i][1..], c);
      assert s[..i][1..] == s[1..i];
    } else {
      assert s[..0] == [];
      assert s[1..] == s[i + 1..];
    }
  }

  lemma {:induction false} CountCharSplitAt(s: string, k: nat, c: char)
    requires k <= |s|
    ensures CountChar(s, c) == CountChar(s[..k], c) + CountChar(s[k..], c)
    decreases k
  {
    if k > 0 {
      CountCharSplitAt(s[1..], k - 1, c);
      assert s[1..][..k - 1] == s[1..k];
      assert s[1..][k - 1..] == s[k..];
      assert s[..k][1..] == s[1..k];
    } else {
      assert s[..0] == [];
    }
  }

  lemma CountCharZero(s: string, c: char)
    requires c !in s
    ensures CountChar(s, c) == 0
  {
  }

  lemma {:induction false} CountCharConcat(a: string, b: string, c: char)
    ensures CountChar(a + b, c) == CountChar(a, c) + CountChar(b, c)
    decreases |a|
  {
    if |a| > 0 {
      assert (a + b)[1..] == a[1..] + b;
      CountCharConcat(a[1..], b, c);
    } else {
      assert a + b == b;
    }
  }

  function Repeat(c: char, n: nat): (r: string)
    ensures |r| == n && forall i :: 0 <= i < n ==> r[i] == c
  {
    if n == 0 then [] else [c] + Repeat(c, n - 1)
  }

  /** `s.zfill(width)` for a string without a sign. */
  function ZFill(s: string, width: nat): (r: string)
    ensures |r| == if |s| >= width then |s| else width
    ensures EndsWith(r, s)
  {
    if |s| >= width then s else Repeat('0', width - |s|) + s
  }

  // ---------------------------------------------------------------------
  // Decimal numerals
  // ---------------------------------------------------------------------

  predicate AllDigits(s: string) {
    forall i :: 0 <= i < |s| ==> IsDigit(s[i])
  }

  function DigitValue(s: string): nat
    requires AllDigits(s)
  {
    if |s| == 0 then 0
    else 10 * DigitValue(s[..|s| - 1]) + (s[|s| - 1] as int - '0' as int)
  }

  function DigitChar(d: nat): (c: char)
    requires d < 10
    ensures IsDigit(c)
  {
    ('0' as int + d) as char
  }

  /** `str(n)` for a natural number. */
  function NatToString(n: nat): (r: string)
    ensures |r| > 0 && AllDigits(r)
  {
    if n < 10 then [DigitChar(n)] else NatToString(n / 10) + [DigitChar(n % 10)]
  }

  lemma {:induction false} NatToStringValue(n: nat)
    ensures DigitValue(NatToString(n)) == n
  {
    var r := NatToString(n);
    if n >= 10 {
      NatToStringValue(n / 10);
      assert r[..|r| - 1] == NatToString(n / 10);
    }
  }

  function Pow10(n: nat): (p: nat)
    ensures p >= 1
  {
    if n == 0 then 1 else 10 * Pow10(n - 1)
  }

  /** A number below `10^k` has at most `k` decimal digits. */
  lemma {:induction false} NatToStringLength(n: nat, k: nat)
    requires 1 <= k && n < Pow10(k)
    ensures |NatToString(n)| <= k
  {
    if n >= 10 {
      assert k >= 2;
      NatToStringLength(n / 10, k - 1);
    }
  }

  /** The two characters of `str(n).zfill(2)` for `n < 100`. */
  lemma TwoDigitText(n: nat)
    requires n < 100
    ensures ZFill(NatToString(n), 2) == [DigitChar(n / 10), DigitChar(n % 10)]
  {
    if n >= 10 {
      assert NatToString(n) == NatToString(n / 10) + [DigitChar(n % 10)];
    }
  }

  lemma {:induction false} ZerosValue(k: nat)
    ensures AllDigits(Repeat('0', k)) && DigitValue(Repeat('0', k)) == 0
  {
    if k > 0 {
      var r := Repeat('0', k);
      assert r[..k - 1] == Repeat('0', k - 1);
      ZerosValue(k - 1);
    }
  }

  /** Leading zeros do not change the value of a numeral. */
  lemma {:induction false} PaddedValue(k: nat, s: string)
    requires AllDigits(s)
    ensures AllDigits(Repeat('0', k) + s) && DigitValue(Repeat('0', k) + s) == DigitValue(s)
    decreases |s|
  {
    var t := Repeat('0', k) + s;
    if |s| == 0 {
      assert t == Repeat('0', k);
      ZerosValue(k);
    } else {
      assert t[..|t| - 1] == Repeat('0', k) + s[..|s| - 1];
      PaddedValue(k, s[..|s| - 1]);
    }
  }

  lemma ZFillValue(s: string, width: nat)
    requires AllDigits(s)
    ensures AllDigits(ZFill(s, width)) && DigitValue(ZFill(s, width)) == DigitValue(s)
  {
    if |s| < width {
      PaddedValue(width - |s|, s);
    }
  }

  /** `str(i)` for an integer. */
  function IntToString(i: int): string {
    if i < 0 then "-" + NatToString(-i) else NatToString(i)
  }
}
