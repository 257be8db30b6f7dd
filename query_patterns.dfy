/** The few regular expressions the query agent searches questions with,
    as sequences of tokens, and the captures it reads out of the date
    pattern. `\s` is `Text.IsSpace`, `\w` is `Text.IsWordChar` and `\d` an
    ASCII digit. */
module QueryPatterns {
  import opened Text

  /** One piece of a pattern. */
  datatype Token =
    | Lit(text: string)              // the text itself
    | Spaces(least: nat)             // `\s*` (0) or `\s+` (1)
    | OptChar(c: char)               // `c?`
    | Digits(least: nat, most: nat)  // `\d{least,most}`
    | OptYear(least: nat)            // `(?:/\d{least,4})?`
    | Boundary                       // `\b`

  predicate SpaceRun(s: string, i: nat, j: nat)
    requires i <= j <= |s|
  {
    forall k :: i <= k < j ==> IsSpace(s[k])
  }

  predicate DigitRun(s: string, i: nat, j: nat)
    requires i <= j <= |s|
  {
    forall k :: i <= k < j ==> IsDigit(s[k])
  }

  /** `\b` at position `i`: a word character on exactly one side. */
  predicate IsBoundary(s: string, i: nat)
    requires i <= |s|
  {
    (i > 0 && IsWordChar(s[i - 1])) != (i < |s| && IsWordChar(s[i]))
  }

  /** The positions where one token can end when it starts at `i`. */
  function Ends(t: Token, s: string, i: nat): (r: set<nat>)
    requires i <= |s|
    ensures forall j :: j in r ==> i <= j <= |s|
  {
    match t
    case Lit(w) => if OccursAt(s, w, i) then {i + |w|} else {}
    case Spaces(least) => set j: nat | i + least <= j <= |s| && SpaceRun(s, i, j)
    case OptChar(c) => if i < |s| && s[i] == c then {i, i + 1} else {i}
    case Digits(least, most) => set j: nat | i + least <= j <= i + most && j <= |s| && DigitRun(s, i, j)
    case OptYear(least) =>
      if i < |s| && s[i] == '/' then {i} + YearEnds(s, i + 1, least) else {i}
    case Boundary => if IsBoundary(s, i) then {i} else {}
  }

  /** Where `\d{least,4}` can end when it starts at `i`. */
  function YearEnds(s: string, i: nat, least: nat): (r: set<nat>)
    requires i <= |s|
    ensures forall j :: j in r ==> i <= j <= |s|
  {
    set j: nat | i + least <= j <= i + 4 && j <= |s| && DigitRun(s, i, j)
  }

  /** The tokens match some stretch of `s` that starts at `i` (with
      backtracking, as `re` tries every way). */
  predicate MatchesAt(ts: seq<Token>, s: string, i: nat)
    requires i <= |s|
    decreases |ts|
  {
    |ts| == 0 || exists j :: j in Ends(ts[0], s, i) && MatchesAt(ts[1..], s, j)
  }

  /** `re.search(pattern, s) is not None` */
  predicate Search(ts: seq<Token>, s: string) {
    exists i :: 0 <= i <= |s| && MatchesAt(ts, s, i)
  }

  /** `\d{1,2}/\d{1,2}(?:/\d{least,4})?` */
  function DatePattern(least: nat): seq<Token> {
    [Digits(1, 2), Lit("/"), Digits(1, 2), OptYear(least)]
  }

  /** `\bword\b` */
  function Word(w: string): seq<Token> {
    [Boundary, Lit(w), Boundary]
  }

  /** `\btop\s+n\b` */
  function TopN(n: string): seq<Token> {
    [Boundary, Lit("top"), Spaces(1), Lit(n), Boundary]
  }

  /** Matching a concatenation: the first part ends where the second begins. */
  lemma {:induction false} MatchesConcat(a: seq<Token>, b: seq<Token>, s: string, i: nat)
    requires i <= |s| && MatchesAt(a + b, s, i)
    ensures exists j :: i <= j <= |s| && MatchesAt(b, s, j)
    decreases |a|
  {
    if |a| == 0 {
      assert a + b == b;
    } else {
      var j :| j in Ends((a + b)[0], s, i) && MatchesAt((a + b)[1..], s, j);
      assert (a + b)[0] == a[0] && (a + b)[1..] == a[1..] + b;
      MatchesConcat(a[1..], b, s, j);
    }
  }

  // ---------------------------------------------------------------------
  // The first standalone number: re.findall(r'\b(\d+)\b', s)[0]
  // ---------------------------------------------------------------------

  /** Where the run of digits starting at `i` ends. */
  function DigitsEnd(s: string, i: nat): (j: nat)
    requires i <= |s|
    ensures i <= j <= |s| && DigitRun(s, i, j) && (j == |s| || !IsDigit(s[j]))
    decreases |s| - i
  {
    if i < |s| && IsDigit(s[i]) then DigitsEnd(s, i + 1) else i
  }

  /** `s[i..j]` is a match of `\b\d+\b`. */
  predicate Standalone(s: string, i: nat, j: nat) {
    i < j <= |s| && DigitRun(s, i, j) && IsBoundary(s, i) && IsBoundary(s, j)
  }

  /** The leftmost match of `\b\d+\b` at or after `from`, as its bounds. */
  function FirstNumber(s: string, from: nat): (r: Option<(nat, nat)>)
    requires from <= |s|
    ensures r.Some? ==> from <= r.value.0 && Standalone(s, r.value.0, r.value.1) && AllDigits(s[r.value.0..r.value.1])
    decreases |s| - from
  {
    if from == |s| then None
    else
      var j := DigitsEnd(s, from);
      if j > from && IsBoundary(s, from) && IsBoundary(s, j) then Some((from, j))
      else FirstNumber(s, from + 1)
  }

  /** A match of `\d+` between boundaries is the whole run of digits. */
  lemma StandaloneRun(s: string, i: nat, j: nat)
    requires Standalone(s, i, j)
    ensures j == DigitsEnd(s, i)
  {
  }

  /** `FirstNumber` finds the leftmost standalone number, and finds none
      exactly when there is none. */
  lemma {:induction false} FirstNumberMeaning(s: string, from: nat)
    requires from <= |s|
    ensures FirstNumber(s, from).Some? ==>
      var (i, j) := FirstNumber(s, from).value;
      from <= i && Standalone(s, i, j) &&
      forall a, b :: from <= a < i ==> !Standalone(s, a, b)
    ensures FirstNumber(s, from).None? ==> forall a, b :: from <= a ==> !Standalone(s, a, b)
    decreases |s| - from
  {
    if from < |s| {
      var j := DigitsEnd(s, from);
      if !(j > from && IsBoundary(s, from) && IsBoundary(s, j)) {
        FirstNumberMeaning(s, from + 1);
        forall b | Standalone(s, from, b) ensures false {
          StandaloneRun(s, from, b);
        }
      }
    }
  }

  // ---------------------------------------------------------------------
  // The date captures: (\d{1,2})/(\d{1,2})(?:/(\d{2,4}))?
  // ---------------------------------------------------------------------

  /** The three groups of a date match: day, month and the optional year. */
  datatype DateParts = DateParts(day: string, month: string, year: Option<string>)

  /** The groups as the pattern captures them: one or two digits for the
      day and the month, two to four for the year. */
  predicate WellFormed(p: DateParts) {
    1 <= |p.day| <= 2 && AllDigits(p.day) && 1 <= |p.month| <= 2 && AllDigits(p.month) &&
    (p.year.Some? ==> 2 <= |p.year.value| <= 4 && AllDigits(p.year.value))
  }

  /** The optional year group after the month ending at `e`: at least two
      digits, at most four. */
  function YearFrom(s: string, e: nat): (r: Option<string>)
    requires e <= |s|
    ensures r.Some? ==> 2 <= |r.value| <= 4 && AllDigits(r.value)
  {
    if e < |s| && s[e] == '/' then
      var k := DigitsEnd(s, e + 1);
      var n := if k - (e + 1) > 4 then 4 else k - (e + 1);
      if n >= 2 then Some(s[e + 1..e + 1 + n]) else None
    else None
  }

  /** The month group after the slash at `slash`, greedy up to two digits. */
  function MonthFrom(s: string, i: nat, slash: nat): (r: Option<DateParts>)
    requires i < slash < |s|
  {
    var m := slash + 1;
    if m < |s| && IsDigit(s[m]) then
      var e := if m + 1 < |s| && IsDigit(s[m + 1]) then m + 2 else m + 1;
      Some(DateParts(s[i..slash], s[m..e], YearFrom(s, e)))
    else None
  }

  /** The groups of the date pattern matched at `i`, if it matches there:
      the day takes two digits when a slash follows them, one otherwise. */
  function DateAt(s: string, i: nat): (r: Option<DateParts>)
    requires i <= |s|
    ensures r.Some? ==> WellFormed(r.value)
  {
    if i < |s| && IsDigit(s[i]) then
      if i + 2 < |s| && IsDigit(s[i + 1]) && s[i + 2] == '/' then MonthFrom(s, i, i + 2)
      else if i + 1 < |s| && s[i + 1] == '/' then MonthFrom(s, i, i + 1)
      else None
    else None
  }

  /** The leftmost date match at or after `from`. */
  function FirstDate(s: string, from: nat): (r: Option<DateParts>)
    requires from <= |s|
    ensures r.Some? ==> WellFormed(r.value)
    decreases |s| - from
  {
    if from == |s| then None
    else if DateAt(s, from).Some? then DateAt(s, from)
    else FirstDate(s, from + 1)
  }

  /** `DateAt` finds a match exactly where the date pattern matches, for
      either least year length. */
  lemma DateAtMatches(s: string, i: nat, least: nat)
    requires i <= |s|
    ensures DateAt(s, i).Some? <==> MatchesAt(DatePattern(least), s, i)
  {
    if DateAt(s, i).Some? {
      DateAtMatchesIf(s, i, least);
    }
    if MatchesAt(DatePattern(least), s, i) {
      DateAtMatchesOnlyIf(s, i, least);
    }
  }

  lemma DateAtMatchesIf(s: string, i: nat, least: nat)
    requires i <= |s| && DateAt(s, i).Some?
    ensures MatchesAt(DatePattern(least), s, i)
  {
    var p := DatePattern(least);
    assert p[1..] == [Lit("/"), Digits(1, 2), OptYear(least)];
    if i + 2 < |s| && IsDigit(s[i + 1]) && s[i + 2] == '/' {
      MonthMatches(s, i, i + 2, least);
      assert i + 2 in Ends(Digits(1, 2), s, i);
    } else {
      MonthMatches(s, i, i + 1, least);
      assert i + 1 in Ends(Digits(1, 2), s, i);
    }
  }

  /** From the slash on, the rest of the date pattern matches where the
      month group is found. */
  lemma MonthMatches(s: string, i: nat, slash: nat, least: nat)
    requires i < slash < |s| && s[slash] == '/' && MonthFrom(s, i, slash).Some?
    ensures MatchesAt([Lit("/"), Digits(1, 2), OptYear(least)], s, slash)
  {
    var p1, p2, p3 := [Lit("/"), Digits(1, 2), OptYear(least)], [Digits(1, 2), OptYear(least)], [OptYear(least)];
    assert p1[1..] == p2 && p2[1..] == p3 && p3[1..] == [];
    var m := slash + 1;
    var e := if m + 1 < |s| && IsDigit(s[m + 1]) then m + 2 else m + 1;
    assert e in Ends(OptYear(least), s, e) && MatchesAt(p3[1..], s, e);
    assert MatchesAt(p3, s, e);
    assert e in Ends(Digits(1, 2), s, m);
    assert MatchesAt(p2, s, m);
    assert s[slash..slash + 1] == "/";
    assert m in Ends(Lit("/"), s, slash);
  }

  lemma DateAtMatchesOnlyIf(s: string, i: nat, least: nat)
    requires i <= |s| && MatchesAt(DatePattern(least), s, i)
    ensures DateAt(s, i).Some?
  {
    var p, p1, p2 := DatePattern(least), [Lit("/"), Digits(1, 2), OptYear(least)], [Digits(1, 2), OptYear(least)];
    assert p[1..] == p1 && p1[1..] == p2;
    var d :| d in Ends(Digits(1, 2), s, i) && MatchesAt(p1, s, d);
    var m :| m in Ends(Lit("/"), s, d) && MatchesAt(p2, s, m);
    var e :| e in Ends(Digits(1, 2), s, m);
    assert s[d] == s[d..d + 1][0];
    assert IsDigit(s[i]) && s[d] == '/' && IsDigit(s[m]);
  }

  /** There is a date match at or after `from` exactly when the pattern is
      found there, and the first one is where the leftmost match starts. */
  lemma {:induction false} FirstDateMeaning(s: string, from: nat)
    requires from <= |s|
    ensures FirstDate(s, from).None? <==> forall i :: from <= i <= |s| ==> DateAt(s, i).None?
    ensures FirstDate(s, from).Some? ==>
      exists i :: from <= i <= |s| && FirstDate(s, from) == DateAt(s, i) &&
        forall k :: from <= k < i ==> DateAt(s, k).None?
    decreases |s| - from
  {
    if from < |s| && DateAt(s, from).None? {
      FirstDateMeaning(s, from + 1);
      if FirstDate(s, from).Some? {
        var i :| from + 1 <= i <= |s| && FirstDate(s, from + 1) == DateAt(s, i) &&
          forall k :: from + 1 <= k < i ==> DateAt(s, k).None?;
        assert forall k :: from <= k < i ==> DateAt(s, k).None?;
      }
    } else if from == |s| {
      assert DateAt(s, from).None?;
    }
  }

  /** The date search finds nothing exactly when `re.search` of the date
      pattern finds nothing. */
  lemma FirstDateNone(s: string, least: nat)
    ensures FirstDate(s, 0).None? <==> !Search(DatePattern(least), s)
  {
    FirstDateMeaning(s, 0);
    forall i | 0 <= i <= |s| ensures DateAt(s, i).Some? <==> MatchesAt(DatePattern(least), s, i) {
      DateAtMatches(s, i, least);
    }
  }
}
