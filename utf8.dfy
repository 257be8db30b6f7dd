/** UTF-8 as section 4 of RFC 3629 defines it, which is what Python's
    strict `bytes.decode('utf-8')` accepts: which byte strings are well
    formed, the text they decode to, and how text encodes back. Also the
    Latin-1 decoding, which maps every byte to the character of the same
    number. */
module Utf8 {
  import opened Text

  type Byte = b: int | 0 <= b < 256

  predicate IsTail(b: Byte) {
    0x80 <= b <= 0xBF
  }

  /** The range the second byte must lie in after the lead byte `b0`: the
      rows `E0 A0-BF`, `ED 80-9F`, `F0 90-BF` and `F4 80-8F` of the grammar
      exclude overlong forms, surrogates and values above U+10FFFF. */
  predicate SecondOk(b0: Byte, b1: Byte) {
    if b0 == 0xE0 then 0xA0 <= b1 <= 0xBF
    else if b0 == 0xED then 0x80 <= b1 <= 0x9F
    else if b0 == 0xF0 then 0x90 <= b1 <= 0xBF
    else if b0 == 0xF4 then 0x80 <= b1 <= 0x8F
    else IsTail(b1)
  }

  /** The number of bytes of the well-formed character that `b` starts
      with (`UTF8-1` to `UTF8-4`), or 0 when `b` does not start with one. */
  function LeadLength(b: seq<Byte>): (n: nat)
    ensures n <= 4 && n <= |b|
    ensures n > 0 ==> |b| > 0
  {
    if |b| == 0 then 0
    else if b[0] <= 0x7F then 1
    else if 0xC2 <= b[0] <= 0xDF then (if |b| >= 2 && IsTail(b[1]) then 2 else 0)
    else if 0xE0 <= b[0] <= 0xEF then (if |b| >= 3 && SecondOk(b[0], b[1]) && IsTail(b[2]) then 3 else 0)
    else if 0xF0 <= b[0] <= 0xF4 then
      (if |b| >= 4 && SecondOk(b[0], b[1]) && IsTail(b[2]) && IsTail(b[3]) then 4 else 0)
    else 0
  }

  /** `UTF8-octets`: a sequence of well-formed characters. */
  predicate Valid(b: seq<Byte>)
    decreases |b|
  {
    |b| == 0 || (LeadLength(b) > 0 && Valid(b[LeadLength(b)..]))
  }

  /** A Unicode scalar value: what a Dafny `char` holds. */
  predicate IsScalar(n: int) {
    0 <= n < 0xD800 || 0xE000 <= n < 0x110000
  }

  /** The code point of the character that `b` starts with. */
  function Scalar(b: seq<Byte>): int
    requires LeadLength(b) > 0
  {
    var n := LeadLength(b);
    var b0: int := b[0];
    if n == 1 then b0
    else
      var b1: int := b[1];
      if n == 2 then (b0 - 0xC0) * 64 + (b1 - 0x80)
      else
        var b2: int := b[2];
        if n == 3 then (b0 - 0xE0) * 4096 + (b1 - 0x80) * 64 + (b2 - 0x80)
        else
          var b3: int := b[3];
          (b0 - 0xF0) * 262144 + (b1 - 0x80) * 4096 + (b2 - 0x80) * 64 + (b3 - 0x80)
  }

  /** Every well-formed character encodes a scalar value, in the shortest
      form: one byte below U+0080, two below U+0800, three below U+10000. */
  lemma ScalarRange(b: seq<Byte>)
    requires LeadLength(b) > 0
    ensures IsScalar(Scalar(b))
    ensures LeadLength(b) == 1 <==> Scalar(b) < 0x80
    ensures LeadLength(b) == 2 <==> 0x80 <= Scalar(b) < 0x800
    ensures LeadLength(b) == 3 <==> 0x800 <= Scalar(b) < 0x10000
    ensures LeadLength(b) == 4 <==> 0x10000 <= Scalar(b)
  {
  }

  function DecodeChar(b: seq<Byte>): char
    requires LeadLength(b) > 0
  {
    ScalarRange(b);
    Scalar(b) as char
  }

  /** `bytes.decode('utf-8')`: the text, or `None` where Python raises
      `UnicodeDecodeError`. */
  function Decode(b: seq<Byte>): (r: Option<string>)
    ensures r.Some? <==> Valid(b)
    decreases |b|
  {
    if |b| == 0 then Some([])
    else if LeadLength(b) == 0 then None
    else
      match Decode(b[LeadLength(b)..])
      case None => None
      case Some(t) => Some([DecodeChar(b)] + t)
  }

  /** `c.encode('utf-8')` */
  function EncodeChar(c: char): (r: seq<Byte>)
    ensures 1 <= |r| <= 4
  {
    var n := c as int;
    if n < 0x80 then [n]
    else if n < 0x800 then [0xC0 + n / 64, 0x80 + n % 64]
    else if n < 0x10000 then [0xE0 + n / 4096, 0x80 + (n / 64) % 64, 0x80 + n % 64]
    else [0xF0 + n / 262144, 0x80 + (n / 4096) % 64, 0x80 + (n / 64) % 64, 0x80 + n % 64]
  }

  /** `s.encode('utf-8')` */
  function Encode(s: string): seq<Byte>
    decreases |s|
  {
    if |s| == 0 then [] else EncodeChar(s[0]) + Encode(s[1..])
  }

  /** The encoding of a character is read back as that one character,
      whatever follows it. */
  lemma EncodeCharDecodes(c: char, rest: seq<Byte>)
    ensures LeadLength(EncodeChar(c) + rest) == |EncodeChar(c)|
    ensures DecodeChar(EncodeChar(c) + rest) == c
  {
    var n := c as int;
    var b := EncodeChar(c) + rest;
    if n < 0x80 {
    } else if n < 0x800 {
      TwoBytes(n, b);
    } else if n < 0x10000 {
      ThreeBytes(n, b);
    } else {
      FourBytes(n, b);
    }
  }

  lemma TwoBytes(n: int, b: seq<Byte>)
    requires 0x80 <= n < 0x800 && |b| >= 2 && b[0] == 0xC0 + n / 64 && b[1] == 0x80 + n % 64
    ensures LeadLength(b) == 2 && Scalar(b) == n
  {
  }

  lemma ThreeBytes(n: int, b: seq<Byte>)
    requires 0x800 <= n < 0x10000 && IsScalar(n) && |b| >= 3
    requires b[0] == 0xE0 + n / 4096 && b[1] == 0x80 + (n / 64) % 64 && b[2] == 0x80 + n % 64
    ensures LeadLength(b) == 3 && Scalar(b) == n
  {
    assert n / 4096 == 0 ==> (n / 64) % 64 >= 0x20;
    assert n / 4096 == 13 ==> (n / 64) % 64 < 0x20;
    assert n == (n / 4096) * 4096 + ((n / 64) % 64) * 64 + n % 64;
  }

  lemma FourBytes(n: int, b: seq<Byte>)
    requires 0x10000 <= n < 0x110000 && |b| >= 4
    requires b[0] == 0xF0 + n / 262144 && b[1] == 0x80 + (n / 4096) % 64
    requires b[2] == 0x80 + (n / 64) % 64 && b[3] == 0x80 + n % 64
    ensures LeadLength(b) == 4 && Scalar(b) == n
  {
    assert n / 262144 == 0 ==> (n / 4096) % 64 >= 0x10;
    assert n / 262144 == 4 ==> (n / 4096) % 64 < 0x10;
    assert n == (n / 262144) * 262144 + ((n / 4096) % 64) * 4096 + ((n / 64) % 64) * 64 + n % 64;
  }

  /** A well-formed character is re-encoded byte for byte. */
  lemma DecodeCharEncodes(b: seq<Byte>)
    requires LeadLength(b) > 0
    ensures EncodeChar(DecodeChar(b)) == b[..LeadLength(b)]
  {
    ScalarRange(b);
    var n := LeadLength(b);
    if n == 2 {
      SplitTwo(b[0], b[1]);
    } else if n == 3 {
      SplitThree(b[0], b[1], b[2]);
    } else if n == 4 {
      SplitFour(b[0], b[1], b[2], b[3]);
    }
  }

  lemma SplitTwo(b0: int, b1: int)
    requires 0 <= b0 - 0xC0 && 0 <= b1 - 0x80 < 64
    ensures ((b0 - 0xC0) * 64 + (b1 - 0x80)) / 64 == b0 - 0xC0
    ensures ((b0 - 0xC0) * 64 + (b1 - 0x80)) % 64 == b1 - 0x80
  {
  }

  lemma SplitThree(b0: int, b1: int, b2: int)
    requires 0 <= b0 - 0xE0 && 0 <= b1 - 0x80 < 64 && 0 <= b2 - 0x80 < 64
    ensures var v := (b0 - 0xE0) * 4096 + (b1 - 0x80) * 64 + (b2 - 0x80);
      v / 4096 == b0 - 0xE0 && (v / 64) % 64 == b1 - 0x80 && v % 64 == b2 - 0x80
  {
    var v := (b0 - 0xE0) * 4096 + (b1 - 0x80) * 64 + (b2 - 0x80);
    assert v == ((b0 - 0xE0) * 64 + (b1 - 0x80)) * 64 + (b2 - 0x80);
    assert v / 64 == (b0 - 0xE0) * 64 + (b1 - 0x80);
  }

  lemma SplitFour(b0: int, b1: int, b2: int, b3: int)
    requires 0 <= b0 - 0xF0 && 0 <= b1 - 0x80 < 64 && 0 <= b2 - 0x80 < 64 && 0 <= b3 - 0x80 < 64
    ensures var v := (b0 - 0xF0) * 262144 + (b1 - 0x80) * 4096 + (b2 - 0x80) * 64 + (b3 - 0x80);
      v / 262144 == b0 - 0xF0 && (v / 4096) % 64 == b1 - 0x80 && (v / 64) % 64 == b2 - 0x80 && v % 64 == b3 - 0x80
  {
    var hi := (b0 - 0xF0) * 64 + (b1 - 0x80);
    var mid := hi * 64 + (b2 - 0x80);
    var v := (b0 - 0xF0) * 262144 + (b1 - 0x80) * 4096 + (b2 - 0x80) * 64 + (b3 - 0x80);
    assert v == mid * 64 + (b3 - 0x80);
    assert v / 64 == mid;
    assert mid / 64 == hi;
    assert v / 4096 == hi;
    assert hi / 64 == b0 - 0xF0;
  }

  /** Encoding then decoding gives the text back. */
  lemma {:induction false} EncodeThenDecode(s: string)
    ensures Decode(Encode(s)) == Some(s)
    decreases |s|
  {
    if |s| > 0 {
      var e := EncodeChar(s[0]);
      var rest := Encode(s[1..]);
      assert Encode(s) == e + rest;
      assert Decode(e + rest) == Some([s[0]] + s[1..]) by {
        EncodeCharDecodes(s[0], rest);
        assert (e + rest)[|e|..] == rest;
        EncodeThenDecode(s[1..]);
        DecodeCons(e + rest, s[1..]);
      }
      assert s == [s[0]] + s[1..];
    }
  }

  /** One decoding step: the first character, then the rest. */
  lemma DecodeCons(b: seq<Byte>, t: string)
    requires LeadLength(b) > 0 && Decode(b[LeadLength(b)..]) == Some(t)
    ensures Decode(b) == Some([DecodeChar(b)] + t)
  {
  }

  /** One encoding step: the first character, then the rest. */
  lemma EncodeCons(c: char, t: string)
    ensures Encode([c] + t) == EncodeChar(c) + Encode(t)
  {
    assert ([c] + t)[1..] == t;
  }

  /** Every character takes at least one byte. */
  lemma {:induction false} EncodeAtLeast(s: string)
    ensures |Encode(s)| >= |s|
    decreases |s|
  {
    if |s| > 0 {
      EncodeAtLeast(s[1..]);
    }
  }

  /** Every encoded text is well formed. */
  lemma EncodeValid(s: string)
    ensures Valid(Encode(s))
  {
    EncodeThenDecode(s);
  }

  /** Decoding well-formed bytes and encoding the text gives the bytes
      back. */
  lemma {:induction false} DecodeThenEncode(b: seq<Byte>)
    requires Valid(b)
    ensures Encode(Decode(b).value) == b
    decreases |b|
  {
    if |b| > 0 {
      var n := LeadLength(b);
      var t := Decode(b[n..]).value;
      DecodeCons(b, t);
      DecodeThenEncode(b[n..]);
      EncodeFirst(b, t);
    }
  }

  /** The step of `DecodeThenEncode`: a well-formed character re-encoded in
      front of the re-encoded rest. */
  lemma EncodeFirst(b: seq<Byte>, t: string)
    requires LeadLength(b) > 0 && Encode(t) == b[LeadLength(b)..]
    ensures Encode([DecodeChar(b)] + t) == b
  {
    var n := LeadLength(b);
    EncodeCons(DecodeChar(b), t);
    DecodeCharEncodes(b);
    assert b == b[..n] + b[n..];
  }

  /** UTF-8 parses from the left in character steps, so after a well-formed
      prefix the rest is well formed exactly when the remainder is. */
  lemma {:induction false} ValidAfterPrefix(a: seq<Byte>, x: seq<Byte>)
    requires Valid(a)
    ensures Valid(a + x) <==> Valid(x)
    decreases |a|
  {
    if |a| == 0 {
      assert a + x == x;
    } else {
      var n := LeadLength(a);
      assert (a + x)[..n] == a[..n];
      SameLead(a, a + x);
      assert (a + x)[n..] == a[n..] + x;
      ValidAfterPrefix(a[n..], x);
    }
  }

  /** The lead length depends only on the bytes it covers. */
  lemma SameLead(a: seq<Byte>, b: seq<Byte>)
    requires LeadLength(a) > 0 && |b| >= LeadLength(a) && b[..LeadLength(a)] == a[..LeadLength(a)]
    ensures LeadLength(b) == LeadLength(a)
  {
    var n := LeadLength(a);
    assert forall i :: 0 <= i < n ==> b[i] == b[..n][i] == a[..n][i] == a[i];
  }

  /** A well-formed text followed by a lone lead byte of a multi-byte
      character is not well formed. */
  lemma CutCharacter(a: seq<Byte>, lead: Byte)
    requires Valid(a) && 0xC2 <= lead <= 0xF4
    ensures !Valid(a + [lead])
  {
    ValidAfterPrefix(a, [lead]);
    assert LeadLength([lead]) == 0;
  }

  /** `bytes.decode('latin1')`: byte `n` is character U+00nn. */
  function Latin1(b: seq<Byte>): (r: string)
    ensures |r| == |b| && forall i :: 0 <= i < |b| ==> r[i] as int == b[i]
  {
    seq(|b|, i requires 0 <= i < |b| => b[i] as char)
  }

  /** `s.encode('latin1')` for text whose characters fit a byte. */
  function Latin1Bytes(s: string): (b: seq<Byte>)
    requires forall i :: 0 <= i < |s| ==> s[i] as int < 256
    ensures |b| == |s|
  {
    seq(|s|, i requires 0 <= i < |s| => s[i] as int)
  }

  /** Latin-1 decoding loses nothing. */
  lemma Latin1RoundTrip(b: seq<Byte>)
    ensures Latin1Bytes(Latin1(b)) == b
  {
  }
}
