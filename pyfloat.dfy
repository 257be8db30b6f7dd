/** Python's `float(text)` on strings: which texts it accepts and the value it
    produces, as an exact rational (binary64 rounding, overflow to infinity and
    underflow to zero are not modelled). Only ASCII digits are recognised. */
module PyFloat {
  import opened Text

  datatype FloatVal = Finite(r: real) | Infinite(negative: bool) | NaN

  /** A run of digits in which single underscores may separate digits
      (`1_000`), as in Python's numeric literals. */
  predicate IsDigitPart(s: string) {
    |s| > 0 && IsDigit(s[0]) && forall i :: 0 <= i < |s| ==> JoinedDigit(s, i)
  }

  /** Position `i` holds a digit, or an underscore followed by a digit. */
  predicate JoinedDigit(s: string, i: nat)
    requires i < |s|
  {
    IsDigit(s[i]) || (s[i] == '_' && i + 1 < |s| && IsDigit(s[i + 1]))
  }

  lemma DigitPartChars(s: string)
    requires IsDigitPart(s)
    ensures forall i :: 0 <= i < |s| ==> IsDigit(s[i]) || s[i] == '_'
  {
    forall i | 0 <= i < |s| ensures IsDigit(s[i]) || s[i] == '_' {
      assert JoinedDigit(s, i);
    }
  }

  function DropUnderscores(s: string): (r: string)
    ensures |r| <= |s|
    ensures (forall i :: 0 <= i < |s| ==> IsDigit(s[i]) || s[i] == '_') ==> AllDigits(r)
  {
    if |s| == 0 then [] else (if s[0] == '_' then [] else [s[0]]) + DropUnderscores(s[1..])
  }

  function DigitPartValue(s: string): nat
    requires IsDigitPart(s)
  {
    DigitPartChars(s);
    DigitValue(DropUnderscores(s))
  }

  function DigitPartLength(s: string): nat
    requires IsDigitPart(s)
  {
    |DropUnderscores(s)|
  }

  /** `m * 10^e` as an exact rational. */
  function Scale(m: nat, e: int): real {
    if e >= 0 then (m * Pow10(e)) as real else m as real / Pow10(-e) as real
  }

  /** The exponent after `e`/`E`: an optional sign and a digit part. */
  function ParseExponent(s: string): Option<int> {
    if |s| > 0 && (s[0] == '+' || s[0] == '-') then
      if IsDigitPart(s[1..]) then
        var v: int := DigitPartValue(s[1..]);
        Some(if s[0] == '-' then -v else v)
      else None
    else if IsDigitPart(s) then Some(DigitPartValue(s))
    else None
  }

  /** `digits`, `digits.`, `.digits` or `digits.digits`, as (integer mantissa,
      number of fraction digits). */
  function ParseMantissa(s: string): Option<(nat, nat)> {
    match Find(s, ".")
    case None => if IsDigitPart(s) then Some((DigitPartValue(s), 0)) else None
    case Some(i) =>
      var ip := s[..i];
      var fp := s[i + 1..];
      if (ip == [] && fp == []) || (ip != [] && !IsDigitPart(ip)) || (fp != [] && !IsDigitPart(fp)) then None
      else
        var iv := if ip == [] then 0 else DigitPartValue(ip);
        var flen := if fp == [] then 0 else DigitPartLength(fp);
        var fv := if fp == [] then 0 else DigitPartValue(fp);
        Some((iv * Pow10(flen) + fv, flen))
  }

  function FirstExponentMark(s: string): Option<nat> {
    match Find(s, "e")
    case None => Find(s, "E")
    case Some(i) =>
      match Find(s, "E")
      case None => Some(i)
      case Some(j) => Some(if i < j then i else j)
  }

  /** An unsigned decimal literal with an optional exponent. */
  function ParseUnsignedDecimal(s: string): Option<real> {
    match FirstExponentMark(s)
    case None =>
      (match ParseMantissa(s)
       case None => None
       case Some(mf) => Some(Scale(mf.0, -(mf.1 as int))))
    case Some(k) =>
      (match (ParseMantissa(s[..k]), ParseExponent(s[k + 1..]))
       case (Some(mf), Some(e)) => Some(Scale(mf.0, e - mf.1))
       case _ => None)
  }

  /** `float(text)`: `None` stands for the `ValueError` Python raises. */
  function ParseFloat(text: string): Option<FloatVal> {
    var t := Strip(text);
    var negative := |t| > 0 && t[0] == '-';
    var body := if |t| > 0 && (t[0] == '+' || t[0] == '-') then t[1..] else t;
    var word := Lower(body);
    if word == "inf" || word == "infinity" then Some(Infinite(negative))
    else if word == "nan" then Some(NaN)
    else
      match ParseUnsignedDecimal(body)
      case None => None
      case Some(v) => Some(Finite(if negative then -v else v))
  }

  // ---------------------------------------------------------------------
  // Properties
  // ---------------------------------------------------------------------

  lemma {:induction false} DigitPartHasNoDot(s: string)
    requires IsDigitPart(s)
    ensures '.' !in s
  {
    DigitPartChars(s);
  }

  /** A mantissa holds at most one decimal point. */
  lemma MantissaDots(s: string)
    requires ParseMantissa(s).Some?
    ensures CountChar(s, '.') <= 1
  {
    match Find(s, ".")
    case None =>
      DigitPartHasNoDot(s);
    case Some(i) =>
      assert s[i..i + 1] == ".";
      CountCharSplit(s, i, '.');
      var ip := s[..i];
      var fp := s[i + 1..];
      if ip != [] { DigitPartHasNoDot(ip); }
      if fp != [] { DigitPartHasNoDot(fp); }
  }

  lemma ExponentNoDot(s: string)
    requires ParseExponent(s).Some?
    ensures '.' !in s
  {
    if |s| > 0 && (s[0] == '+' || s[0] == '-') {
      DigitPartHasNoDot(s[1..]);
      assert s == [s[0]] + s[1..];
    } else {
      DigitPartHasNoDot(s);
    }
  }

  /** The exponent mark, when there is one, is a letter `e` or `E`. */
  lemma ExponentMarkAt(s: string)
    requires FirstExponentMark(s).Some?
    ensures FirstExponentMark(s).value < |s|
    ensures s[FirstExponentMark(s).value] in "eE"
  {
    var k := FirstExponentMark(s).value;
    var e := Find(s, "e");
    var E := Find(s, "E");
    if e.Some? {
      assert s[e.value..e.value + 1] == "e";
      assert s[e.value] == 'e';
    }
    if E.Some? {
      assert s[E.value..E.value + 1] == "E";
      assert s[E.value] == 'E';
    }
  }

  lemma UnsignedDecimalDots(s: string)
    requires ParseUnsignedDecimal(s).Some?
    ensures CountChar(s, '.') <= 1
  {
    match FirstExponentMark(s)
    case None => MantissaDots(s);
    case Some(k) =>
      ExponentMarkAt(s);
      MantissaDots(s[..k]);
      ExponentNoDot(s[k + 1..]);
      CountCharSplitAt(s, k, '.');
      CountCharZero(s[k..], '.');
  }

  /** Removing characters other than `c` from the front keeps the count of `c`. */
  lemma CountCharDropFront(s: string, k: nat, c: char)
    requires k <= |s|
    requires forall i :: 0 <= i < k ==> s[i] != c
    ensures CountChar(s[k..], c) == CountChar(s, c)
  {
    CountCharSplitAt(s, k, c);
    CountCharZero(s[..k], c);
  }

  lemma CountCharDropBack(s: string, k: nat, c: char)
    requires k <= |s|
    requires forall i :: k <= i < |s| ==> s[i] != c
    ensures CountChar(s[..k], c) == CountChar(s, c)
  {
    CountCharSplitAt(s, k, c);
    CountCharZero(s[k..], c);
  }

  /** Stripping whitespace keeps every decimal point. */
  lemma StripKeepsDots(text: string)
    ensures CountChar(Strip(text), '.') == CountChar(text, '.')
  {
    var l := TrimLeft(text, IsSpace);
    var t := TrimRight(l, IsSpace);
    assert Strip(text) == t;
    CountCharDropFront(text, |text| - |l|, '.');
    CountCharDropBack(l, |t|, '.');
  }

  /** A text holding a decimal point is none of the special words. */
  lemma DottedNotWord(body: string)
    requires '.' in body
    ensures Lower(body) != "inf" && Lower(body) != "infinity" && Lower(body) != "nan"
  {
    var i :| 0 <= i < |body| && body[i] == '.';
    assert Lower(body)[i] == '.';
  }

  /** The sign-stripped body of a text with two decimal points is neither a
      special word nor a decimal literal. */
  lemma DottedBodyRejected(body: string)
    requires CountChar(body, '.') >= 2
    ensures Lower(body) != "inf" && Lower(body) != "infinity" && Lower(body) != "nan"
    ensures ParseUnsignedDecimal(body).None?
  {
    DottedNotWord(body);
    if ParseUnsignedDecimal(body).Some? {
      UnsignedDecimalDots(body);
    }
  }

  /** Python rejects any text that holds two decimal points. */
  lemma TwoDotsRejected(text: string)
    requires CountChar(text, '.') >= 2
    ensures ParseFloat(text) == None
  {
    var t := Strip(text);
    StripKeepsDots(text);
    if |t| > 0 && (t[0] == '+' || t[0] == '-') {
      CountCharDropFront(t, 1, '.');
      DottedBodyRejected(t[1..]);
    } else {
      DottedBodyRejected(t);
    }
  }

  lemma {:induction false} DropUnderscoresDigits(s: string)
    requires AllDigits(s)
    ensures DropUnderscores(s) == s
    decreases |s|
  {
    if |s| > 0 {
      DropUnderscoresDigits(s[1..]);
    }
  }

  /** A character class that excludes the first and last character leaves the
      text unstripped. */
  lemma StripNoSpace(s: string)
    requires forall i :: 0 <= i < |s| ==> !IsSpace(s[i])
    ensures Strip(s) == s
  {
    var l := TrimLeft(s, IsSpace);
    assert l == s;
    var r := TrimRight(l, IsSpace);
    assert r == l;
  }

  lemma FindCharFound(s: string, c: char)
    ensures Find(s, [c]).Some? ==> c in s
  {
    if Find(s, [c]).Some? {
      var i := Find(s, [c]).value;
      assert s[i..i + 1] == [c];
      assert s[i] == c;
    }
  }

  lemma DigitsHaveNoMarks(s: string)
    requires AllDigits(s)
    ensures Find(s, ".").None? && FirstExponentMark(s).None?
  {
    FindCharFound(s, '.');
    FindCharFound(s, 'e');
    FindCharFound(s, 'E');
  }

  lemma DigitsAreDigitPart(s: string)
    requires |s| > 0 && AllDigits(s)
    ensures IsDigitPart(s) && DigitPartValue(s) == DigitValue(s)
  {
    forall i | 0 <= i < |s| ensures JoinedDigit(s, i) { }
    DropUnderscoresDigits(s);
  }

  /** A plain run of digits is an unsigned decimal literal with its value. */
  lemma DigitsAreDecimal(s: string)
    requires |s| > 0 && AllDigits(s)
    ensures ParseUnsignedDecimal(s) == Some(DigitValue(s) as real)
  {
    DigitsAreDigitPart(s);
    DigitsHaveNoMarks(s);
    assert ParseMantissa(s) == Some((DigitValue(s), 0));
  }

  /** A plain run of digits parses to its value. */
  lemma DigitsRoundTrip(s: string)
    requires |s| > 0 && AllDigits(s)
    ensures ParseFloat(s) == Some(Finite(DigitValue(s) as real))
  {
    StripNoSpace(s);
    assert Strip(s) == s;
    assert !(s[0] == '+' || s[0] == '-');
    var w := Lower(s);
    assert w[0] == s[0];
    assert w != "inf" && w != "infinity" && w != "nan" by {
      assert "inf"[0] == 'i' && "infinity"[0] == 'i' && "nan"[0] == 'n';
    }
    DigitsAreDecimal(s);
  }

  /** Python parses the decimal rendering of every natural number back to
      that number. */
  lemma DecimalRoundTrip(n: nat)
    ensures ParseFloat(NatToString(n)) == Some(Finite(n as real))
  {
    NatToStringValue(n);
    DigitsRoundTrip(NatToString(n));
  }

  lemma TenNoExponent()
    ensures FirstExponentMark("10.00").None?
  {
    FindCharFound("10.00", 'e');
    FindCharFound("10.00", 'E');
  }

  lemma TenDot()
    ensures Find("10.00", ".") == Some(2)
  {
    var t := "10.00";
    assert t[2..3] == ".";
    assert OccursAt(t, ".", 2);
    assert t[0..1] == ['1'] && t[1..2] == ['0'];
    assert !OccursAt(t, ".", 0) && !OccursAt(t, ".", 1);
  }

  /** The two digit parts of `10.00`. */
  lemma TenPieces()
    ensures IsDigitPart("10") && DigitPartValue("10") == 10
    ensures IsDigitPart("00") && DigitPartValue("00") == 0 && DigitPartLength("00") == 2
  {
    DigitsAreDigitPart("10");
    DigitsAreDigitPart("00");
    DropUnderscoresDigits("00");
    assert DigitValue("10") == 10;
  }

  lemma TenParts()
    ensures ParseMantissa("10.00") == Some((1000, 2))
  {
    var t := "10.00";
    TenDot();
    TenPieces();
    assert t[..2] == "10" && t[3..] == "00";
  }

  lemma TenMantissa()
    ensures ParseUnsignedDecimal("10.00") == Some(10.0)
  {
    TenNoExponent();
    TenParts();
    assert Scale(1000, -2) == 10.0 by {
      assert Pow10(2) == 100;
    }
  }

  lemma TenWord()
    ensures Lower("10.00") != "inf" && Lower("10.00") != "infinity" && Lower("10.00") != "nan"
  {
    assert Lower("10.00")[0] == '1';
  }

  /** A text that needs no stripping, begins with a digit and spells no
      special word is read as an unsigned decimal. */
  lemma PlainDecimal(text: string)
    requires Strip(text) == text && |text| > 0 && '0' <= text[0] <= '9'
    requires Lower(text) != "inf" && Lower(text) != "infinity" && Lower(text) != "nan"
    ensures ParseFloat(text) == match ParseUnsignedDecimal(text)
      case None => None
      case Some(v) => Some(Finite(v))
  {
  }

  /** `float("10.00") == 10.0` */
  lemma TenExample()
    ensures ParseFloat("10.00") == Some(Finite(10.0))
  {
    StripNoSpace("10.00");
    TenWord();
    assert "10.00"[0] == '1';
    PlainDecimal("10.00");
    TenMantissa();
  }
}
