/** The two tolerant normalisers of the fraud detector: money texts to
    numbers (`_converter_valor`) and the closeness test on two date fields
    (`_datas_proximas`). Neither can raise: every failure becomes `0.0` or
    `False`. */
module FraudValues {
  import opened Text
  import opened PyFloat
  import opened Records
  import opened Calendar

  /** The text `_converter_valor` hands to `float()`: `,` becomes `.`, then
      `R$` and spaces are removed. */
  function CleanMoney(s: string): string {
    Replace(Replace(Replace(s, ",", "."), "R$", ""), " ", "")
  }

  /** `_converter_valor(v)`: a falsy value gives 0.0 and so does any text
      `float()` rejects. */
  function ConvertValue(v: Value): FloatVal {
    if !Truthy(v) then Finite(0.0)
    else
      match ParseFloat(CleanMoney(v.s))
      case None => Finite(0.0)
      case Some(f) => f
  }

  /** A falsy value (null or empty text) converts to 0.0. */
  lemma ConvertFalsy(v: Value)
    requires !Truthy(v)
    ensures ConvertValue(v) == Finite(0.0)
  {
  }

  /** Cleaning turns every `,` into a `.`, so the cleaned text holds as many
      points as the input holds points and commas together. */
  lemma CleanMoneyDots(s: string)
    ensures CountChar(CleanMoney(s), '.') == CountChar(s, '.') + CountChar(s, ',')
  {
    ReplaceCharCount(s, ',', '.');
    var a := Replace(s, ",", ".");
    ReplaceKeepsCount(a, "R$", "", '.');
    ReplaceKeepsCount(Replace(a, "R$", ""), " ", "", '.');
  }

  /** A thousands separator with a decimal comma (`1.234,56`) reaches
      `float()` as two points and therefore converts to 0.0; so does any
      text with two separators of either kind. */
  lemma TwoSeparatorsGiveZero(s: string)
    requires CountChar(s, '.') + CountChar(s, ',') >= 2
    ensures ConvertValue(Str(s)) == Finite(0.0)
  {
    CleanMoneyDots(s);
    TwoDotsRejected(CleanMoney(s));
  }

  /** Example: the Brazilian amount `1.234,56` has one dot. */
  lemma ExampleDots()
    ensures CountChar("1.234,56", '.') == 1
  {
  }

  /** Example: and one comma. */
  lemma ExampleCommas()
    ensures CountChar("1.234,56", ',') == 1
  {
  }

  /** Example: with both separators the amount reads as 0, not 1234.56. */
  lemma ThousandsSeparatorExample()
    ensures ConvertValue(Str("1.234,56")) == Finite(0.0)
  {
    ExampleDots();
    ExampleCommas();
    TwoSeparatorsGiveZero("1.234,56");
  }

  /** A plain decimal numeral converts to its own value. */
  lemma ConvertNumeral(n: nat)
    ensures ConvertValue(Str(NatToString(n))) == Finite(n as real)
  {
    var s := NatToString(n);
    ContainsNeedsChar(s, ",", ',');
    ContainsNeedsChar(s, "R$", '$');
    ContainsNeedsChar(s, " ", ' ');
    ReplaceAbsent(s, ",", ".");
    ReplaceAbsent(s, "R$", "");
    ReplaceAbsent(s, " ", "");
    DecimalRoundTrip(n);
  }

  /** Example: the decimal comma of `R$ 10,00` becomes a point. */
  lemma CommaExample()
    ensures Replace("R$ 10,00", ",", ".") == "R$ 10.00"
  {
    assert Replace("0", ",", ".") == "0";
    assert Replace("00", ",", ".") == "00";
    assert Replace(",00", ",", ".") == ".00";
    assert Replace("0,00", ",", ".") == "0.00";
    assert Replace("10,00", ",", ".") == "10.00";
    assert Replace(" 10,00", ",", ".") == " 10.00";
    assert Replace("$ 10,00", ",", ".") == "$ 10.00";
  }

  /** Example: the currency symbol is dropped. */
  lemma SymbolExample()
    ensures Replace("R$ 10.00", "R$", "") == " 10.00"
  {
    ContainsNeedsChar(" 10.00", "R$", '$');
    ReplaceAbsent(" 10.00", "R$", "");
    assert StartsWith("R$ 10.00", "R$");
    assert "R$ 10.00"[2..] == " 10.00";
  }

  /** Example: the space is dropped. */
  lemma SpaceExample()
    ensures Replace(" 10.00", " ", "") == "10.00"
  {
    ContainsNeedsChar("10.00", " ", ' ');
    ReplaceAbsent("10.00", " ", "");
    assert StartsWith(" 10.00", " ");
    assert " 10.00"[1..] == "10.00";
  }

  /** Example: `R$ 10,00` cleans to `10.00`. */
  lemma CleanCurrencyExample()
    ensures CleanMoney("R$ 10,00") == "10.00"
  {
    CommaExample();
    SymbolExample();
    SpaceExample();
  }

  /** Example: the currency amount `"R$ 10,00"` is read as 10. */
  lemma CurrencyExample()
    ensures ConvertValue(Str("R$ 10,00")) == Finite(10.0)
  {
    CleanCurrencyExample();
    TenExample();
  }

  // ---------------------------------------------------------------------
  // _datas_proximas
  // ---------------------------------------------------------------------

  function Abs(x: int): nat {
    if x < 0 then -x else x
  }

  /** `_datas_proximas(a, b, horas)`: both values truthy, both parse, both
      naive or both aware (otherwise the subtraction raises), and at most
      `horas` hours apart. */
  predicate DatesClose(a: Value, b: Value, hours: nat) {
    Truthy(a) && Truthy(b) &&
    var pa := ParseDateText(a.s);
    var pb := ParseDateText(b.s);
    pa.Some? && pb.Some? && pa.value.offset.Some? == pb.value.offset.Some? &&
    Abs(Instant(pb.value) - Instant(pa.value)) <= hours * 3600 * MicrosPerSecond
  }

  lemma DatesCloseSymmetric(a: Value, b: Value, hours: nat)
    ensures DatesClose(a, b, hours) == DatesClose(b, a, hours)
  {
    if Truthy(a) && Truthy(b) {
      var pa := ParseDateText(a.s);
      var pb := ParseDateText(b.s);
      if pa.Some? && pb.Some? {
        assert Abs(Instant(pb.value) - Instant(pa.value)) == Abs(Instant(pa.value) - Instant(pb.value));
      }
    }
  }

  /** An empty or null field, or a text neither parser accepts, is never
      close to anything. */
  lemma DatesCloseNeedsParse(a: Value, b: Value, hours: nat)
    requires DatesClose(a, b, hours)
    ensures Truthy(a) && Truthy(b)
    ensures ParseDateText(a.s).Some? && ParseDateText(b.s).Some?
  {
  }

  /** A naive and an aware time cannot be subtracted, so they are never
      close. */
  lemma MixedAwarenessNotClose(a: Value, b: Value, hours: nat)
    requires Truthy(a) && Truthy(b)
    requires ParseDateText(a.s).Some? && ParseDateText(b.s).Some?
    requires ParseDateText(a.s).value.offset.None? && ParseDateText(b.s).value.offset.Some?
    ensures !DatesClose(a, b, hours)
  {
  }

  lemma MidnightGap(d1: Date, d2: Date)
    requires ValidDate(d1) && ValidDate(d2)
    ensures Instant(Midnight(d2)) - Instant(Midnight(d1)) == (Ordinal(d2) - Ordinal(d1)) * MicrosPerDay
  {
  }

  /** Whole days are within 24 hours exactly when they are at most one day
      apart. */
  lemma DayGapWithin24Hours(k: int)
    ensures Abs(k * MicrosPerDay) <= 24 * 3600 * MicrosPerSecond <==> -1 <= k <= 1
  {
    if k >= 2 {
      assert k * MicrosPerDay >= 2 * MicrosPerDay;
    } else if k <= -2 {
      assert k * MicrosPerDay <= -2 * MicrosPerDay;
    }
  }

  /** Midnights of two `DD/MM/YYYY` texts are close exactly when their
      ordinals differ by at most one. */
  lemma SlashDatesGap(t1: string, t2: string, d1: Date, d2: Date)
    requires '/' in t1 && '/' in t2
    requires ParseDayMonthYear(t1) == Some(d1) && ParseDayMonthYear(t2) == Some(d2)
    ensures DatesClose(Str(t1), Str(t2), 24) <==> -1 <= Ordinal(d2) - Ordinal(d1) <= 1
  {
    assert ParseDateText(t1) == Some(Midnight(d1));
    assert ParseDateText(t2) == Some(Midnight(d2));
    MidnightGap(d1, d2);
    DayGapWithin24Hours(Ordinal(d2) - Ordinal(d1));
  }

  /** With `horas=24`, two `DD/MM/YYYY` texts are close exactly when they name
      the same day or two consecutive calendar days. */
  lemma SlashDatesClose(t1: string, t2: string, d1: Date, d2: Date)
    requires '/' in t1 && '/' in t2
    requires ParseDayMonthYear(t1) == Some(d1) && ParseDayMonthYear(t2) == Some(d2)
    ensures DatesClose(Str(t1), Str(t2), 24) <==> d1 == d2 || NextDay(d1) == d2 || NextDay(d2) == d1
  {
    SlashDatesGap(t1, t2, d1, d2);
    AdjacentDays(d1, d2);
  }
}
