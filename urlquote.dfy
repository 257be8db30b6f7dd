/** `urllib.parse.unquote(text)` with its defaults (`encoding='utf-8'`,
    `errors='replace'`), which `parse_qs` applies to every name and value:
    each run of ASCII characters has its `%XX` escapes turned into bytes and
    is decoded as UTF-8, a malformed sequence becoming U+FFFD; characters
    outside ASCII are kept as they are. */
module UrlQuote {
  import opened Text
  import Utf8

  type Byte = Utf8.Byte

  const Replacement: char := '�'

  // ---------------------------------------------------------------------
  // bytes.decode('utf-8', 'replace')
  // ---------------------------------------------------------------------

  /** How many bytes one U+FFFD stands for where no well-formed character
      starts: the longest prefix that could still begin one (the "maximal
      subpart" of the Unicode standard, section 3.9), at least one byte. */
  function InvalidLength(b: seq<Byte>): (k: nat)
    requires |b| > 0 && Utf8.LeadLength(b) == 0
    ensures 1 <= k <= |b| && k <= 3
  {
    var b0 := b[0];
    if 0xE0 <= b0 <= 0xEF then (if |b| >= 2 && Utf8.SecondOk(b0, b[1]) then 2 else 1)
    else if 0xF0 <= b0 <= 0xF4 then
      (if |b| >= 2 && Utf8.SecondOk(b0, b[1]) then (if |b| >= 3 && Utf8.IsTail(b[2]) then 3 else 2) else 1)
    else 1
  }

  /** `b.decode('utf-8', 'replace')` */
  function DecodeReplace(b: seq<Byte>): (r: string)
    ensures |b| > 0 ==> |r| > 0
    ensures |r| <= |b|
    decreases |b|
  {
    if |b| == 0 then []
    else if Utf8.LeadLength(b) > 0 then [Utf8.DecodeChar(b)] + DecodeReplace(b[Utf8.LeadLength(b)..])
    else [Replacement] + DecodeReplace(b[InvalidLength(b)..])
  }

  /** On well-formed bytes the replacing decoder is the strict one. */
  lemma {:induction false} DecodeReplaceValid(b: seq<Byte>)
    requires Utf8.Valid(b)
    ensures DecodeReplace(b) == Utf8.Decode(b).value
    decreases |b|
  {
    if |b| > 0 {
      DecodeReplaceValid(b[Utf8.LeadLength(b)..]);
    }
  }

  /** A byte that no well-formed character starts with, or that ends the
      input in the middle of one, is replaced. */
  lemma MalformedReplaced(b: seq<Byte>)
    requires |b| > 0 && Utf8.LeadLength(b) == 0
    ensures DecodeReplace(b)[0] == Replacement
  {
  }

  // ---------------------------------------------------------------------
  // unquote_to_bytes over one ASCII run
  // ---------------------------------------------------------------------

  predicate IsHexDigit(c: char) {
    '0' <= c <= '9' || 'a' <= c <= 'f' || 'A' <= c <= 'F'
  }

  function HexValue(c: char): (v: nat)
    requires IsHexDigit(c)
    ensures v < 16
  {
    if '0' <= c <= '9' then c as int - '0' as int
    else if 'a' <= c <= 'f' then c as int - 'a' as int + 10
    else c as int - 'A' as int + 10
  }

  /** The upper-case hex digit of `v`, as `quote` writes it. */
  function HexChar(v: nat): (c: char)
    requires v < 16
    ensures IsHexDigit(c) && HexValue(c) == v
  {
    if v < 10 then ('0' as int + v) as char else ('A' as int + v - 10) as char
  }

  predicate IsAscii(s: string) {
    forall i :: 0 <= i < |s| ==> s[i] as int < 0x80
  }

  /** The bytes of an ASCII run: `%` and two hex digits give one byte, any
      other character (a `%` without two hex digits too) its own code. */
  function EscapedBytes(run: string): (b: seq<Byte>)
    requires IsAscii(run)
    ensures |run| > 0 ==> |b| > 0
    decreases |run|
  {
    if |run| == 0 then []
    else if run[0] == '%' && |run| >= 3 && IsHexDigit(run[1]) && IsHexDigit(run[2]) then
      [HexValue(run[1]) * 16 + HexValue(run[2])] + EscapedBytes(run[3..])
    else [run[0] as int] + EscapedBytes(run[1..])
  }

  // ---------------------------------------------------------------------
  // unquote
  // ---------------------------------------------------------------------

  /** The length of the ASCII run `s` starts with. */
  function AsciiRun(s: string): (k: nat)
    ensures k <= |s| && IsAscii(s[..k]) && (k < |s| ==> s[k] as int >= 0x80)
    decreases |s|
  {
    if |s| == 0 || s[0] as int >= 0x80 then 0
    else
      var k := AsciiRun(s[1..]);
      assert s[..k + 1] == [s[0]] + s[1..][..k];
      k + 1
  }

  /** The work of `unquote` once the text holds a `%`: `_asciire.split`
      cuts it into ASCII runs, which are decoded, and the characters
      between them, which are kept. */
  function UnquoteRuns(s: string): (r: string)
    ensures |s| > 0 ==> |r| > 0
    decreases |s|
  {
    if |s| == 0 then []
    else if s[0] as int >= 0x80 then [s[0]] + UnquoteRuns(s[1..])
    else
      var k := AsciiRun(s);
      DecodeReplace(EscapedBytes(s[..k])) + UnquoteRuns(s[k..])
  }

  /** `unquote(s)` */
  function Unquote(s: string): (r: string)
    ensures |s| > 0 ==> |r| > 0
  {
    if '%' !in s then s else UnquoteRuns(s)
  }

  /** The `'%' not in string` shortcut changes nothing: without an escape
      every run decodes to itself. */
  lemma {:induction false} ShortcutAgrees(s: string)
    requires '%' !in s
    ensures UnquoteRuns(s) == s
    decreases |s|
  {
    if |s| > 0 && s[0] as int < 0x80 {
      var k := AsciiRun(s);
      assert k > 0;
      assert UnquoteRuns(s) == DecodeReplace(EscapedBytes(s[..k])) + UnquoteRuns(s[k..]);
      assert DecodeReplace(EscapedBytes(s[..k])) == s[..k] by {
        NotInSlice(s, '%', 0, k);
        PlainRun(s[..k]);
      }
      assert UnquoteRuns(s[k..]) == s[k..] by {
        NotInSlice(s, '%', k, |s|);
        ShortcutAgrees(s[k..]);
      }
      assert s == s[..k] + s[k..];
    } else if |s| > 0 {
      assert UnquoteRuns(s) == [s[0]] + UnquoteRuns(s[1..]);
      assert UnquoteRuns(s[1..]) == s[1..] by {
        NotInSlice(s, '%', 1, |s|);
        ShortcutAgrees(s[1..]);
      }
      assert s == [s[0]] + s[1..];
    }
  }

  lemma NotInSlice(s: string, c: char, a: nat, b: nat)
    requires a <= b <= |s| && c !in s
    ensures c !in s[a..b]
  {
    forall i | 0 <= i < b - a
      ensures s[a..b][i] != c
    {
      assert s[a..b][i] == s[a + i];
    }
  }

  /** An ASCII run without `%` decodes to itself. */
  lemma {:induction false} PlainRun(run: string)
    requires IsAscii(run) && '%' !in run
    ensures DecodeReplace(EscapedBytes(run)) == run
    decreases |run|
  {
    if |run| > 0 {
      var b := EscapedBytes(run);
      assert IsAscii(run[1..]);
      PlainRun(run[1..]);
      assert b == [run[0] as int] + EscapedBytes(run[1..]);
      assert Utf8.LeadLength(b) == 1;
      assert b[1..] == EscapedBytes(run[1..]);
      assert run == [run[0]] + run[1..];
    }
  }

  // ---------------------------------------------------------------------
  // The inverse: every byte written as an escape
  // ---------------------------------------------------------------------

  /** Each byte as `%XX`. */
  function Escapes(b: seq<Byte>): (s: string)
    ensures |s| == 3 * |b| && IsAscii(s)
    ensures '&' !in s && '#' !in s && '+' !in s && '=' !in s && '?' !in s
    decreases |b|
  {
    if |b| == 0 then []
    else
      var e := ['%', HexChar(b[0] / 16), HexChar(b[0] % 16)];
      var rest := Escapes(b[1..]);
      assert forall i :: 0 <= i < |e + rest| ==> (e + rest)[i] == if i < 3 then e[i] else rest[i - 3];
      e + rest
  }

  /** The text written with every byte of its UTF-8 encoding escaped. */
  function Quote(s: string): (q: string)
    ensures IsAscii(q) && '&' !in q && '#' !in q && '+' !in q && '=' !in q && '?' !in q
    ensures |s| > 0 ==> |q| > 0
  {
    EncodeLength(s);
    Escapes(Utf8.Encode(s))
  }

  lemma EncodeLength(s: string)
    ensures |s| > 0 ==> |Utf8.Encode(s)| > 0
  {
  }

  /** Escaping a non-empty text makes it longer: every character takes at
      least one byte and every byte three characters. */
  lemma QuoteLonger(s: string)
    requires |s| > 0
    ensures |Quote(s)| > |s|
  {
    Utf8.EncodeAtLeast(s);
  }

  /** The escapes read back as the bytes. */
  lemma {:induction false} EscapesRead(b: seq<Byte>)
    ensures EscapedBytes(Escapes(b)) == b
    decreases |b|
  {
    if |b| > 0 {
      var s := Escapes(b);
      EscapesRead(b[1..]);
      assert s[3..] == Escapes(b[1..]);
      assert HexValue(s[1]) * 16 + HexValue(s[2]) == b[0];
    }
  }

  /** An ASCII text is a single run. */
  lemma AsciiWhole(s: string)
    requires IsAscii(s)
    ensures UnquoteRuns(s) == if |s| == 0 then [] else DecodeReplace(EscapedBytes(s))
  {
    if |s| > 0 {
      var k := AsciiRun(s);
      assert k == |s|;
      assert s[..k] == s && s[k..] == [];
    }
  }

  /** `unquote` undoes the full escaping of any text. */
  lemma UnquoteQuote(s: string)
    ensures Unquote(Quote(s)) == s
  {
    var q := Quote(s);
    if |s| > 0 {
      assert q[0] == '%';
      AsciiWhole(q);
      EscapesRead(Utf8.Encode(s));
      Utf8.EncodeValid(s);
      DecodeReplaceValid(Utf8.Encode(s));
      Utf8.EncodeThenDecode(s);
    }
  }
}
