/** Proleptic Gregorian dates and the two parsers the fraud detector uses on
    date fields: `datetime.strptime(text, '%d/%m/%Y')` and
    `datetime.fromisoformat(text)` (the grammar of the CPython 3.7-3.10 C
    implementation). Instants are counted in microseconds. */
module Calendar {
  import opened Text

  datatype Date = Date(year: int, month: int, day: int)

  predicate IsLeap(y: int) {
    y % 4 == 0 && (y % 100 != 0 || y % 400 == 0)
  }

  function DaysInMonth(y: int, m: int): (n: int)
    requires 1 <= m <= 12
    ensures 28 <= n <= 31
  {
    if m == 2 then (if IsLeap(y) then 29 else 28)
    else if m == 4 || m == 6 || m == 9 || m == 11 then 30
    else 31
  }

  function DaysInYear(y: int): int {
    if IsLeap(y) then 366 else 365
  }

  /** A date of the calendar from year 1 on (no upper bound, so that the day
      after 31/12/9999 still has an ordinal). */
  predicate InCalendar(d: Date) {
    d.year >= 1 && 1 <= d.month <= 12 && 1 <= d.day <= DaysInMonth(d.year, d.month)
  }

  /** A date Python's `datetime` accepts (`MINYEAR` 1 to `MAXYEAR` 9999). */
  predicate ValidDate(d: Date) {
    InCalendar(d) && d.year <= 9999
  }

  function DaysBeforeYear(y: int): nat
    requires y >= 1
    decreases y
  {
    if y == 1 then 0 else DaysBeforeYear(y - 1) + DaysInYear(y - 1)
  }

  function DaysBeforeMonth(y: int, m: int): nat
    requires 1 <= m <= 12
  {
    var common := [0, 31, 59, 90, 120, 151, 181, 212, 243, 273, 304, 334][m - 1];
    common + (if m > 2 && IsLeap(y) then 1 else 0)
  }

  /** `date.toordinal()`: 1 for 01/01/0001. */
  function Ordinal(d: Date): int
    requires InCalendar(d)
  {
    DaysBeforeYear(d.year) + DaysBeforeMonth(d.year, d.month) + d.day
  }

  /** The calendar day after `d`. */
  function NextDay(d: Date): (r: Date)
    requires InCalendar(d)
    ensures InCalendar(r)
  {
    if d.day < DaysInMonth(d.year, d.month) then Date(d.year, d.month, d.day + 1)
    else if d.month < 12 then Date(d.year, d.month + 1, 1)
    else Date(d.year + 1, 1, 1)
  }

  /** Chronological order on dates, field by field. */
  predicate Before(a: Date, b: Date) {
    a.year < b.year || (a.year == b.year && (a.month < b.month || (a.month == b.month && a.day < b.day)))
  }

  // ---------------------------------------------------------------------
  // Ordinal arithmetic
  // ---------------------------------------------------------------------

  lemma MonthFits(y: int, m: int)
    requires 1 <= m <= 12
    ensures DaysBeforeMonth(y, m) + DaysInMonth(y, m) <= DaysInYear(y)
    ensures m < 12 ==> DaysBeforeMonth(y, m + 1) == DaysBeforeMonth(y, m) + DaysInMonth(y, m)
    ensures m == 12 ==> DaysBeforeMonth(y, m) + DaysInMonth(y, m) == DaysInYear(y)
  {
  }

  lemma {:induction false} YearsFit(y1: int, y2: int)
    requires 1 <= y1 < y2
    ensures DaysBeforeYear(y1) + DaysInYear(y1) <= DaysBeforeYear(y2)
    decreases y2 - y1
  {
    if y1 + 1 < y2 {
      YearsFit(y1 + 1, y2);
    }
  }

  lemma MonthsOrdered(y: int, m1: int, m2: int)
    requires 1 <= m1 < m2 <= 12
    ensures DaysBeforeMonth(y, m1) + DaysInMonth(y, m1) <= DaysBeforeMonth(y, m2)
  {
  }

  /** The ordinal is strictly increasing along the calendar. */
  lemma OrdinalMonotone(a: Date, b: Date)
    requires InCalendar(a) && InCalendar(b) && Before(a, b)
    ensures Ordinal(a) < Ordinal(b)
  {
    MonthFits(a.year, a.month);
    if a.year < b.year {
      YearsFit(a.year, b.year);
    } else if a.month < b.month {
      MonthsOrdered(a.year, a.month, b.month);
    }
  }

  lemma OrdinalInjective(a: Date, b: Date)
    requires InCalendar(a) && InCalendar(b) && Ordinal(a) == Ordinal(b)
    ensures a == b
  {
    if Before(a, b) { OrdinalMonotone(a, b); }
    if Before(b, a) { OrdinalMonotone(b, a); }
  }

  /** The next day is one ordinal further. */
  lemma NextDayOrdinal(d: Date)
    requires InCalendar(d)
    ensures Ordinal(NextDay(d)) == Ordinal(d) + 1
  {
    MonthFits(d.year, d.month);
  }

  /** No date lies strictly between a date and the next day. */
  lemma NextDayIsLeast(a: Date, b: Date)
    requires InCalendar(a) && InCalendar(b) && Before(a, b)
    ensures NextDay(a) == b || Before(NextDay(a), b)
  {
  }

  /** Two dates are at most one ordinal apart exactly when they are the same
      day or consecutive calendar days. */
  lemma AdjacentDays(a: Date, b: Date)
    requires InCalendar(a) && InCalendar(b)
    ensures -1 <= Ordinal(b) - Ordinal(a) <= 1 <==> a == b || NextDay(a) == b || NextDay(b) == a
  {
    NextDayOrdinal(a);
    NextDayOrdinal(b);
    if Before(a, b) {
      NextDayIsLeast(a, b);
      if NextDay(a) != b { OrdinalMonotone(NextDay(a), b); }
    } else if Before(b, a) {
      NextDayIsLeast(b, a);
      if NextDay(b) != a { OrdinalMonotone(NextDay(b), a); }
    }
  }

  // ---------------------------------------------------------------------
  // Date-times and instants
  // ---------------------------------------------------------------------

  /** A `datetime`; `offset` is the UTC offset in microseconds of an aware
      value and `None` for a naive one. */
  datatype DateTime = DateTime(date: Date, hour: int, minute: int, second: int, micro: int, offset: Option<int>)

  const MicrosPerSecond: int := 1000000
  const MicrosPerDay: int := 86400 * MicrosPerSecond

  /** Microseconds since the start of 01/01/0001 (in UTC for aware values). */
  function Instant(t: DateTime): int
    requires InCalendar(t.date)
  {
    (Ordinal(t.date) * 86400 + t.hour * 3600 + t.minute * 60 + t.second) * MicrosPerSecond + t.micro
      - (if t.offset.Some? then t.offset.value else 0)
  }

  function Midnight(d: Date): DateTime {
    DateTime(d, 0, 0, 0, 0, None)
  }

  // ---------------------------------------------------------------------
  // strptime(text, '%d/%m/%Y')
  // ---------------------------------------------------------------------

  function Digit(c: char): int { c as int - '0' as int }

  /** The `%d` directive `3[01]|[12]\d|0[1-9]|[1-9]| [1-9]`, tried in that
      order; returns the value and the number of characters consumed. A
      later alternative never succeeds where an earlier one matched, because
      the next character must be `/`. */
  function DayField(s: string): Option<(int, nat)> {
    if |s| >= 2 && s[0] == '3' && (s[1] == '0' || s[1] == '1') then Some((30 + Digit(s[1]), 2))
    else if |s| >= 2 && (s[0] == '1' || s[0] == '2') && IsDigit(s[1]) then Some((10 * Digit(s[0]) + Digit(s[1]), 2))
    else if |s| >= 2 && s[0] == '0' && '1' <= s[1] <= '9' then Some((Digit(s[1]), 2))
    else if |s| >= 1 && '1' <= s[0] <= '9' then Some((Digit(s[0]), 1))
    else if |s| >= 2 && s[0] == ' ' && '1' <= s[1] <= '9' then Some((Digit(s[1]), 2))
    else None
  }

  /** The `%m` directive `1[0-2]|0[1-9]|[1-9]`. */
  function MonthField(s: string): Option<(int, nat)> {
    if |s| >= 2 && s[0] == '1' && '0' <= s[1] <= '2' then Some((10 + Digit(s[1]), 2))
    else if |s| >= 2 && s[0] == '0' && '1' <= s[1] <= '9' then Some((Digit(s[1]), 2))
    else if |s| >= 1 && '1' <= s[0] <= '9' then Some((Digit(s[0]), 1))
    else None
  }

  /** `datetime.strptime(text, '%d/%m/%Y')`: the whole text must match, and
      the date must exist. `None` is the `ValueError`. */
  function ParseDayMonthYear(text: string): (r: Option<Date>)
    ensures r.Some? ==> ValidDate(r.value)
  {
    match DayField(text)
    case None => None
    case Some(dk) =>
      var r1 := text[dk.1..];
      if |r1| == 0 || r1[0] != '/' then None
      else
        match MonthField(r1[1..])
        case None => None
        case Some(mk) =>
          var r2 := r1[1..][mk.1..];
          if |r2| != 5 || r2[0] != '/' || !AllDigits(r2[1..]) then None
          else
            var d := Date(DigitValue(r2[1..]), mk.0, dk.0);
            if ValidDate(d) then Some(d) else None
  }

  // ---------------------------------------------------------------------
  // fromisoformat(text)
  // ---------------------------------------------------------------------

  predicate DigitsAt(s: string, i: nat, n: nat) {
    i + n <= |s| && AllDigits(s[i..i + n])
  }

  function ValueAt(s: string, i: nat, n: nat): nat
    requires DigitsAt(s, i, n)
  {
    DigitValue(s[i..i + n])
  }

  /** The result of the C routine that reads `HH[:MM[:SS[(.|:)fff[fff]]]]`
      (a fraction may also follow `HH.` or `HH:MM.`): an error, or the fields
      and whether the component ended with a character the routine reports
      as "more text follows". `signFollows` says whether a `+`/`-` sits just
      after the segment (the start of a UTC offset). */
  datatype Clock = ClockError | Clock(hour: int, minute: int, second: int, micro: int, trailing: bool)

  function ParseClock(t: string, signFollows: bool): Clock {
    ParseClockFrom(t, 0, [0, 0, 0], signFollows)
  }

  /** Reads component `i` (0 = hours, 1 = minutes, 2 = seconds) starting at
      index `3 * i`. */
  function ParseClockFrom(t: string, i: nat, vals: seq<int>, signFollows: bool): Clock
    requires i < 3 && |vals| == 3
    decreases 3 - i
  {
    var q := 3 * i;
    if !DigitsAt(t, q, 2) then ClockError
    else
      var vals' := vals[i := ValueAt(t, q, 2)];
      if q + 2 == |t| then Clock(vals'[0], vals'[1], vals'[2], 0, signFollows)
      else if q + 3 == |t| then Clock(vals'[0], vals'[1], vals'[2], 0, true)
      else if t[q + 2] == ':' && i < 2 then ParseClockFrom(t, i + 1, vals', signFollows)
      else if t[q + 2] == '.' || (t[q + 2] == ':' && i == 2) then
        var n := |t| - (q + 3);
        if (n == 3 || n == 6) && DigitsAt(t, q + 3, n) then
          Clock(vals'[0], vals'[1], vals'[2], ValueAt(t, q + 3, n) * (if n == 3 then 1000 else 1), signFollows)
        else ClockError
      else ClockError
  }

  /** Index of the first `+` or `-` of `t`, or `|t|`. */
  function SignIndex(t: string): (k: nat)
    ensures k <= |t|
    ensures forall j :: 0 <= j < k ==> t[j] != '+' && t[j] != '-'
    ensures k < |t| ==> t[k] == '+' || t[k] == '-'
  {
    if |t| == 0 then 0
    else if t[0] == '+' || t[0] == '-' then 0
    else 1 + SignIndex(t[1..])
  }

  /** The time part after the date and its separator. */
  function ParseIsoTime(t: string): Option<(Clock, Option<int>)> {
    var k := SignIndex(t);
    var clock := ParseClock(t[..k], k < |t|);
    if clock.ClockError? then None
    else if k == |t| then (if clock.trailing then None else Some((clock, None)))
    else
      var tzlen := |t| - k;
      if tzlen != 6 && tzlen != 9 && tzlen != 16 then None
      else
        var tz := ParseClock(t[k + 1..], false);
        if tz.ClockError? || tz.trailing then None
        else
          var sign := if t[k] == '-' then -1 else 1;
          var offset := sign * ((tz.hour * 3600 + tz.minute * 60 + tz.second) * MicrosPerSecond + tz.micro);
          if -MicrosPerDay < offset < MicrosPerDay then Some((clock, Some(offset))) else None
  }

  /** `datetime.fromisoformat(text)`: `YYYY-MM-DD`, optionally followed by any
      one separator character and a time with an optional UTC offset. */
  function ParseIso(text: string): (r: Option<DateTime>)
    ensures r.Some? ==> ValidDate(r.value.date)
  {
    if |text| < 10 || !DigitsAt(text, 0, 4) || text[4] != '-' || !DigitsAt(text, 5, 2) || text[7] != '-' || !DigitsAt(text, 8, 2) then None
    else
      var d := Date(ValueAt(text, 0, 4), ValueAt(text, 5, 2), ValueAt(text, 8, 2));
      if |text| == 10 then (if ValidDate(d) then Some(Midnight(d)) else None)
      else
        match ParseIsoTime(text[11..])
        case None => None
        case Some(ct) =>
          var c := ct.0;
          if ValidDate(d) && 0 <= c.hour < 24 && 0 <= c.minute < 60 && 0 <= c.second < 60 then
            Some(DateTime(d, c.hour, c.minute, c.second, c.micro, ct.1))
          else None
  }

  /** How `_datas_proximas` reads one date text: `strptime` with `%d/%m/%Y`
      when the text contains `/`, `fromisoformat` otherwise. */
  function ParseDateText(text: string): (r: Option<DateTime>)
    ensures r.Some? ==> ValidDate(r.value.date)
  {
    if '/' in text then
      match ParseDayMonthYear(text)
      case None => None
      case Some(d) => Some(Midnight(d))
    else ParseIso(text)
  }

  // ---------------------------------------------------------------------
  // Rendering and round trips
  // ---------------------------------------------------------------------

  /** `DD/MM/YYYY` with zero padding. */
  function FormatDayMonthYear(d: Date): string
    requires d.day >= 0 && d.month >= 0 && d.year >= 0
  {
    ZFill(NatToString(d.day), 2) + "/" + ZFill(NatToString(d.month), 2) + "/" + ZFill(NatToString(d.year), 4)
  }

  lemma DigitOfDigitChar(n: nat)
    requires n < 10
    ensures Digit(DigitChar(n)) == n
  {
  }

  lemma DayFieldDigits(q: nat, r: nat, s: string)
    requires q < 10 && r < 10 && 1 <= 10 * q + r <= 31
    requires |s| >= 2 && s[0] == DigitChar(q) && s[1] == DigitChar(r)
    ensures DayField(s) == Some((10 * q + r, 2 as nat))
  {
  }

  lemma MonthFieldDigits(q: nat, r: nat, s: string)
    requires q < 10 && r < 10 && 1 <= 10 * q + r <= 12
    requires |s| >= 2 && s[0] == DigitChar(q) && s[1] == DigitChar(r)
    ensures MonthField(s) == Some((10 * q + r, 2 as nat))
  {
  }

  lemma DayFieldPadded(n: nat, s: string)
    requires 1 <= n <= 31
    requires |s| >= 2 && s[..2] == ZFill(NatToString(n), 2)
    ensures DayField(s) == Some((n as int, 2 as nat))
  {
    TwoDigitText(n);
    assert s[0] == s[..2][0] && s[1] == s[..2][1];
    DayFieldDigits(n / 10, n % 10, s);
  }

  lemma MonthFieldPadded(n: nat, s: string)
    requires 1 <= n <= 12
    requires |s| >= 2 && s[..2] == ZFill(NatToString(n), 2)
    ensures MonthField(s) == Some((n as int, 2 as nat))
  {
    TwoDigitText(n);
    assert s[0] == s[..2][0] && s[1] == s[..2][1];
    MonthFieldDigits(n / 10, n % 10, s);
  }

  /** `strptime` on a ten-character text whose fields each take two
      characters. */
  lemma ParseTenCharacters(text: string, day: int, month: int)
    requires |text| == 10 && text[2] == '/' && text[5] == '/' && AllDigits(text[6..])
    requires DayField(text) == Some((day, 2 as nat)) && MonthField(text[3..]) == Some((month, 2 as nat))
    requires ValidDate(Date(DigitValue(text[6..]), month, day))
    ensures ParseDayMonthYear(text) == Some(Date(DigitValue(text[6..]), month, day))
  {
    assert text[2..][1..] == text[3..];
    assert text[2..][1..][2..] == text[5..];
    assert text[5..][1..] == text[6..];
  }

  lemma SlashPieces(dd: string, mm: string, yy: string)
    requires |dd| == 2 && |mm| == 2 && |yy| == 4
    ensures var text := dd + "/" + mm + "/" + yy;
      |text| == 10 && text[2] == '/' && text[5] == '/' &&
      text[..2] == dd && text[3..][..2] == mm && text[6..] == yy
  {
    var text := dd + "/" + mm + "/" + yy;
    assert text[..2] == dd;
    assert text[3..][..2] == mm;
    assert text[6..] == yy;
  }

  /** The pieces of a zero-padded `DD/MM/YYYY` text. */
  lemma FormatPieces(d: Date)
    requires ValidDate(d)
    ensures var text := FormatDayMonthYear(d);
      |text| == 10 && text[2] == '/' && text[5] == '/' &&
      text[..2] == ZFill(NatToString(d.day), 2) &&
      text[3..][..2] == ZFill(NatToString(d.month), 2) &&
      text[6..] == ZFill(NatToString(d.year), 4)
  {
    TwoDigitText(d.day);
    TwoDigitText(d.month);
    NatToStringLength(d.year, 4);
    SlashPieces(ZFill(NatToString(d.day), 2), ZFill(NatToString(d.month), 2), ZFill(NatToString(d.year), 4));
  }

  /** `strptime` reads back every date written as zero-padded `DD/MM/YYYY`. */
  lemma DayMonthYearRoundTrip(d: Date)
    requires ValidDate(d)
    ensures ParseDayMonthYear(FormatDayMonthYear(d)) == Some(d)
  {
    var text := FormatDayMonthYear(d);
    FormatPieces(d);
    ZFillValue(NatToString(d.year), 4);
    NatToStringValue(d.year);
    DayFieldPadded(d.day, text);
    MonthFieldPadded(d.month, text[3..]);
    ParseTenCharacters(text, d.day, d.month);
  }
}
