/** How the MongoDB query agent reads a question: the number of results it
    asks for, the date it names, its kind, the collections it mentions,
    and the collection, grouping and date field of a ranking. */
module QueryAgent {
  import opened Text
  import opened QueryPatterns
  import Records

  // ---------------------------------------------------------------------
  // _detectar_quantidade
  // ---------------------------------------------------------------------

  /** The amounts the keyword rules stand for, in the order they are tried. */
  const Amounts: seq<nat> := [100, 50, 25, 20, 15, 10, 5, 3, 1]

  /** Rule `k`: `\btop\s+N\b`, the text `topN`, or the number as a word. */
  predicate AmountRule(k: nat, s: string)
    requires k < 9
  {
    if k == 0 then Search(TopN("100"), s) || Contains(s, "top100") || Search(Word("cem"), s)
    else if k == 1 then Search(TopN("50"), s) || Contains(s, "top50") || Search(Word("cinquenta"), s)
    else if k == 2 then Search(TopN("25"), s) || Contains(s, "top25") || Search(Word("vinte e cinco"), s)
    else if k == 3 then Search(TopN("20"), s) || Contains(s, "top20") || Search(Word("vinte"), s)
    else if k == 4 then Search(TopN("15"), s) || Contains(s, "top15") || Search(Word("quinze"), s)
    else if k == 5 then Search(TopN("10"), s) || Contains(s, "top10") || Search(Word("dez"), s)
    else if k == 6 then Search(TopN("5"), s) || Contains(s, "top5") || Search(Word("cinco"), s)
    else if k == 7 then
      Search(TopN("3"), s) || Contains(s, "top3") || Search(Word("três"), s) || Search(Word("tres"), s)
    else Search(TopN("1"), s) || Contains(s, "top1") || Search(Word("primeiro"), s)
  }

  /** `_detectar_quantidade(pergunta)`: the keyword rules on the lower-cased
      question, then the first standalone number of the question itself,
      then 10. */
  function Quantity(question: string): nat {
    var s := Lower(question);
    if AmountRule(0, s) then 100
    else if AmountRule(1, s) then 50
    else if AmountRule(2, s) then 25
    else if AmountRule(3, s) then 20
    else if AmountRule(4, s) then 15
    else if AmountRule(5, s) then 10
    else if AmountRule(6, s) then 5
    else if AmountRule(7, s) then 3
    else if AmountRule(8, s) then 1
    else match FirstNumber(question, 0)
      case Some((i, j)) => DigitValue(question[i..j])
      case None => 10
  }

  /** The first rule that holds decides the amount. */
  lemma QuantityFirstRule(question: string, k: nat)
    requires k < 9 && AmountRule(k, Lower(question))
    requires forall j :: 0 <= j < k ==> !AmountRule(j, Lower(question))
    ensures Quantity(question) == Amounts[k]
  {
    var s := Lower(question);
    if k >= 1 { assert !AmountRule(0, s); }
    if k >= 2 { assert !AmountRule(1, s); }
    if k >= 3 { assert !AmountRule(2, s); }
    if k >= 4 { assert !AmountRule(3, s); }
    if k >= 5 { assert !AmountRule(4, s); }
    if k >= 6 { assert !AmountRule(5, s); }
    if k >= 7 { assert !AmountRule(6, s); }
    if k >= 8 { assert !AmountRule(7, s); }
  }

  /** With no keyword rule, the amount is the leftmost standalone number
      of the question... */
  lemma QuantityFromNumber(question: string, i: nat, j: nat)
    requires forall k :: 0 <= k < 9 ==> !AmountRule(k, Lower(question))
    requires Standalone(question, i, j) && forall a: nat, b: nat :: a < i ==> !Standalone(question, a, b)
    ensures AllDigits(question[i..j]) && Quantity(question) == DigitValue(question[i..j])
  {
    NoAmountRule(question);
    FirstNumberMeaning(question, 0);
    var (i', j') := FirstNumber(question, 0).value;
    assert !(i' < i) && !(i < i');
    StandaloneRun(question, i, j);
    StandaloneRun(question, i, j');
  }

  /** ... or 10 when there is none. */
  lemma QuantityDefault(question: string)
    requires forall k :: 0 <= k < 9 ==> !AmountRule(k, Lower(question))
    requires forall i, j :: !Standalone(question, i, j)
    ensures Quantity(question) == 10
  {
    NoAmountRule(question);
  }

  lemma NoAmountRule(question: string)
    requires forall k :: 0 <= k < 9 ==> !AmountRule(k, Lower(question))
    ensures Quantity(question) == match FirstNumber(question, 0)
      case Some((i, j)) => DigitValue(question[i..j])
      case None => 10
  {
    var s := Lower(question);
    assert !AmountRule(0, s) && !AmountRule(1, s) && !AmountRule(2, s) && !AmountRule(3, s) && !AmountRule(4, s);
    assert !AmountRule(5, s) && !AmountRule(6, s) && !AmountRule(7, s) && !AmountRule(8, s);
  }

  /** "vinte e cinco" also holds the word "vinte", so the 20 rule holds as
      well; trying 25 first is what makes the phrase mean 25. */
  lemma TwentyFiveBeforeTwenty(question: string)
    requires Search(Word("vinte e cinco"), Lower(question))
    requires !AmountRule(0, Lower(question)) && !AmountRule(1, Lower(question))
    ensures AmountRule(3, Lower(question)) && Quantity(question) == 25
  {
    var s := Lower(question);
    var i :| 0 <= i <= |s| && MatchesAt(Word("vinte e cinco"), s, i);
    PhraseHoldsWord(s, i);
    assert Search(Word("vinte"), s);
  }

  lemma PhraseHoldsWord(s: string, i: nat)
    requires i <= |s| && MatchesAt(Word("vinte e cinco"), s, i)
    ensures MatchesAt(Word("vinte"), s, i)
  {
    var long, short := "vinte e cinco", "vinte";
    assert long[..5] == short && long[5] == ' ';
    WordPrefix(s, i, long, short);
  }

  /** A word pattern matches where the word stands between boundaries. */
  lemma WordAt(s: string, i: nat, w: string)
    requires i <= |s|
    ensures MatchesAt(Word(w), s, i) <==> IsBoundary(s, i) && OccursAt(s, w, i) && IsBoundary(s, i + |w|)
  {
    var t := Word(w);
    assert t[1..] == [Lit(w), Boundary] && t[1..][1..] == [Boundary] && t[1..][1..][1..] == [];
    if IsBoundary(s, i) && OccursAt(s, w, i) && IsBoundary(s, i + |w|) {
      assert i + |w| in Ends(Boundary, s, i + |w|) && MatchesAt(t[1..][1..][1..], s, i + |w|);
      assert MatchesAt(t[1..][1..], s, i + |w|);
      assert i + |w| in Ends(Lit(w), s, i);
      assert MatchesAt(t[1..], s, i);
      assert i in Ends(Boundary, s, i);
    }
    if MatchesAt(t, s, i) {
      var a :| a in Ends(Boundary, s, i) && MatchesAt(t[1..], s, a);
      var b :| b in Ends(Lit(w), s, a) && MatchesAt(t[1..][1..], s, b);
      var c :| c in Ends(Boundary, s, b);
    }
  }

  /** A phrase whose first word ends before a non-word character holds that
      word as a match too. */
  lemma WordPrefix(s: string, i: nat, long: string, short: string)
    requires i <= |s| && MatchesAt(Word(long), s, i)
    requires |short| < |long| && long[..|short|] == short && !IsWordChar(long[|short|])
    requires |short| > 0 && IsWordChar(short[|short| - 1])
    ensures MatchesAt(Word(short), s, i)
  {
    WordAt(s, i, long);
    WordAt(s, i, short);
    var n := |short|;
    assert s[i..i + |long|] == long;
    assert s[i..i + n] == long[..n];
    assert s[i + n] == long[n] && s[i + n - 1] == short[n - 1];
  }

  // ---------------------------------------------------------------------
  // _normalizar_data
  // ---------------------------------------------------------------------

  /** The year field: the current year when the question has none, `20`
      before a two-digit year, any other year as written. */
  function YearText(year: Option<string>, currentYear: nat): string {
    match year
    case None => NatToString(currentYear)
    case Some(y) => if |y| == 2 then "20" + y else y
  }

  /** `_normalizar_data(texto)`, with `datetime.now().year` as a parameter:
      the first date of the text as `DD/MM/YYYY`. */
  function NormalizeDate(text: string, currentYear: nat): Option<string> {
    match FirstDate(text, 0)
    case None => None
    case Some(p) => Some(ZFill(p.day, 2) + "/" + ZFill(p.month, 2) + "/" + YearText(p.year, currentYear))
  }

  /** No date is found exactly when `re.search` of the date pattern finds
      nothing. */
  lemma NormalizeDateNone(text: string, currentYear: nat)
    ensures NormalizeDate(text, currentYear).None? <==> !Search(DatePattern(2), text)
  {
    FirstDateNone(text, 2);
  }

  /** The normalised date has two-digit day and month fields worth what the
      text wrote, and a year of digits: a two-digit year `yy` is read as
      `20yy`. */
  lemma NormalizeDateShape(text: string, currentYear: nat)
    requires NormalizeDate(text, currentYear).Some?
    ensures var r := NormalizeDate(text, currentYear).value;
      var p := FirstDate(text, 0).value;
      |r| >= 7 && r[2] == '/' && r[5] == '/' &&
      AllDigits(r[..2]) && DigitValue(r[..2]) == DigitValue(p.day) &&
      AllDigits(r[3..5]) && DigitValue(r[3..5]) == DigitValue(p.month) &&
      AllDigits(r[6..]) &&
      (p.year.None? ==> DigitValue(r[6..]) == currentYear) &&
      (p.year.Some? && |p.year.value| == 2 ==> DigitValue(r[6..]) == 2000 + DigitValue(p.year.value)) &&
      (p.year.Some? && |p.year.value| > 2 ==> r[6..] == p.year.value)
  {
    var p := FirstDate(text, 0).value;
    var d, m, y := ZFill(p.day, 2), ZFill(p.month, 2), YearText(p.year, currentYear);
    DateFields(d, m, y);
    ZFillValue(p.day, 2);
    ZFillValue(p.month, 2);
    YearTextValue(p.year, currentYear);
  }

  /** Where the three fields sit in `DD/MM/Y...`. */
  lemma DateFields(d: string, m: string, y: string)
    requires |d| == 2 && |m| == 2 && |y| >= 1
    ensures var r := d + "/" + m + "/" + y;
      |r| >= 7 && r[..2] == d && r[2] == '/' && r[3..5] == m && r[5] == '/' && r[6..] == y
  {
  }

  lemma YearTextValue(year: Option<string>, currentYear: nat)
    requires year.Some? ==> 2 <= |year.value| <= 4 && AllDigits(year.value)
    ensures var y := YearText(year, currentYear);
      |y| >= 1 && AllDigits(y) &&
      (year.None? ==> DigitValue(y) == currentYear) &&
      (year.Some? && |year.value| == 2 ==> DigitValue(y) == 2000 + DigitValue(year.value)) &&
      (year.Some? && |year.value| > 2 ==> y == year.value)
  {
    if year.None? {
      NatToStringValue(currentYear);
    } else if |year.value| == 2 {
      YearValue(year.value);
    }
  }

  lemma YearValue(y: string)
    requires |y| == 2 && AllDigits(y)
    ensures AllDigits("20" + y) && DigitValue("20" + y) == 2000 + DigitValue(y)
  {
    var t := "20" + y;
    var a, b := y[0] as int - '0' as int, y[1] as int - '0' as int;
    assert t[..3] == "20" + [y[0]] && t[..3][..2] == "20" && t[..3][..2][..1] == "2";
    assert DigitValue(t[..3][..2][..1]) == 2;
    assert DigitValue(t[..3][..2]) == 20;
    assert DigitValue(t[..3]) == 200 + a;
    assert DigitValue(t) == 2000 + 10 * a + b;
    assert y[..1] == [y[0]];
    assert DigitValue(y) == 10 * a + b;
  }

  /** Normalising a normalised date gives it back, for a current year of
      one, three or four digits. */
  lemma NormalizeDateFixpoint(text: string, currentYear: nat)
    requires currentYear < 10 || 100 <= currentYear <= 9999
    requires NormalizeDate(text, currentYear).Some?
    ensures NormalizeDate(NormalizeDate(text, currentYear).value, currentYear) == NormalizeDate(text, currentYear)
  {
    var r := NormalizeDate(text, currentYear).value;
    var p := FirstDate(text, 0).value;
    var d, m, y := ZFill(p.day, 2), ZFill(p.month, 2), YearText(p.year, currentYear);
    assert r == d + "/" + m + "/" + y;
    YearLength(p.year, currentYear);
    YearTextValue(p.year, currentYear);
    ZFillValue(p.day, 2);
    ZFillValue(p.month, 2);
    ReadBack(d, m, y, currentYear);
  }

  /** A date written `DD/MM/Y` is read back as its three fields, the year
      kept when it has three or four digits and dropped when it has one. */
  lemma ReadBack(d: string, m: string, y: string, currentYear: nat)
    requires |d| == 2 && |m| == 2 && (|y| == 1 || |y| == 3 || |y| == 4)
    requires AllDigits(d) && AllDigits(m) && AllDigits(y)
    requires |y| == 1 ==> y == NatToString(currentYear)
    ensures var r := d + "/" + m + "/" + y;
      NormalizeDate(r, currentYear) == Some(r)
  {
    var r := d + "/" + m + "/" + y;
    DateFields(d, m, y);
    assert IsDigit(r[0]) && IsDigit(r[1]) && IsDigit(r[3]) && IsDigit(r[4]);
    assert DigitsEnd(r, 6) == |r| by {
      DigitsToEnd(r, 6);
    }
    assert FirstDate(r, 0) == DateAt(r, 0) == MonthFrom(r, 0, 2);
    var q := DateAt(r, 0).value;
    assert q.day == d && q.month == m;
    if |y| == 1 {
      assert q.year == None;
    } else {
      assert r[6..6 + |y|] == y;
      assert q.year == Some(y);
    }
  }

  lemma {:induction false} DigitsToEnd(s: string, i: nat)
    requires i <= |s| && forall k :: i <= k < |s| ==> IsDigit(s[k])
    ensures DigitsEnd(s, i) == |s|
    decreases |s| - i
  {
    if i < |s| {
      DigitsToEnd(s, i + 1);
    }
  }

  /** The year field of one pass has one, three or four digits, and one
      only when it is the current year. */
  lemma YearLength(year: Option<string>, currentYear: nat)
    requires currentYear < 10 || 100 <= currentYear <= 9999
    requires year.Some? ==> 2 <= |year.value| <= 4
    ensures var y := YearText(year, currentYear);
      (|y| == 1 || |y| == 3 || |y| == 4) && (|y| == 1 ==> year.None?)
  {
    if year.None? {
      if currentYear >= 100 {
        assert Pow10(4) == 10000;
        NatToStringLength(currentYear, 4);
        var t := NatToString(currentYear);
        assert t == NatToString(currentYear / 10) + [DigitChar(currentYear % 10)];
        assert NatToString(currentYear / 10) == NatToString(currentYear / 100) + [DigitChar(currentYear / 10 % 10)];
      }
    }
  }

  // ---------------------------------------------------------------------
  // _interpretar_pergunta
  // ---------------------------------------------------------------------

  /** The kinds of question, `tipo_pergunta`. */
  datatype Kind =
    | ListCollections | FraudAnalysis | PeriodQuery | DateQuery
    | Inconsistency | Count | Ranking | Example
    | Pattern(name: string)  // a key of the pattern dictionary

  function KindName(k: Kind): string {
    match k
    case ListCollections => "listar_colecoes"
    case FraudAnalysis => "analise_fraude"
    case PeriodQuery => "consulta_periodo_datas"
    case DateQuery => "consulta_data_especifica"
    case Inconsistency => "inconsistencia"
    case Count => "contagem"
    case Ranking => "ranking"
    case Example => "exemplo"
    case Pattern(name) => name
  }

  const ListWords: seq<string> := [
    "quais dados", "que dados", "dados disponiveis", "dados disponíveis", "colecoes disponiveis",
    "coleções disponíveis", "tabelas disponiveis", "tabelas disponíveis", "o que tem", "que tem",
    "listar dados", "mostrar dados", "ver dados", "acesso a dados"]

  const FraudWords: seq<string> := [
    "analise de fraude", "análise de fraude", "detectar fraude", "detecção de fraude",
    "detectar suspeitas", "detecção de suspeitas", "verificar fraude", "verificar suspeitas",
    "relatório de fraude", "relatório de suspeitas", "auditoria de fraude", "auditoria de suspeitas",
    "investigar fraude", "investigar suspeitas", "identificar fraude", "identificar suspeitas",
    "buscar fraude", "buscar suspeitas", "procurar fraude", "procurar suspeitas",
    "gerar relatorio de fraude", "gerar relatório de fraude", "relatorio de fraude",
    "relatório de fraude", "fraude", "suspeitas"]

  const InconsistencyWords: seq<string> := [
    "inconsistência", "inconsistencia", "discrepância", "discrepancia", "problema", "erro",
    "dados inconsistentes", "verificar dados"]

  const CountWords: seq<string> := ["quantos", "quantas", "total", "contar", "count", "soma", "número", "numero"]

  const RankingWords: seq<string> := ["mais", "top", "melhor", "pior", "maior", "menor", "frequente", "frequentes"]

  const ExampleWords: seq<string> := ["exemplo", "amostra", "dados", "registros"]

  const TableWords: seq<string> := ["tabela", "table", "formato de tabela", "em tabela", "como tabela"]

  /** `any(palavra in s for palavra in words)` */
  predicate Mentions(s: string, words: seq<string>) {
    exists i :: 0 <= i < |words| && Contains(s, words[i])
  }

  /** `entre\s+o?\s*dia\s+D\s+até\s+dia\s+D` and the three other period
      patterns, each of the form `pre D sep D`, where D is the date pattern
      with an optional four-digit year. */
  function Between(pre: seq<Token>, sep: seq<Token>): seq<Token> {
    pre + DatePattern(4) + (sep + DatePattern(4))
  }

  function PeriodPatterns(): seq<seq<Token>> {
    [Between([Lit("entre"), Spaces(1), OptChar('o'), Spaces(0), Lit("dia"), Spaces(1)],
             [Spaces(1), Lit("até"), Spaces(1), Lit("dia"), Spaces(1)]),
     Between([Lit("de"), Spaces(1)], [Spaces(1), Lit("até"), Spaces(1)]),
     Between([Lit("entre"), Spaces(1)], [Spaces(1), Lit("e"), Spaces(1)]),
     Between([Lit("entre"), Spaces(1), Lit("os"), Spaces(1), Lit("dias"), Spaces(1)],
             [Spaces(1), Lit("e"), Spaces(1)])]
  }

  /** The classification rules in the order they are tried. */
  predicate KindRule(k: nat, s: string)
    requires k < 8
  {
    if k == 0 then Mentions(s, ListWords)
    else if k == 1 then Mentions(s, FraudWords)
    else if k == 2 then exists p :: p in PeriodPatterns() && Search(p, s)
    else if k == 3 then Search(DatePattern(2), s)
    else if k == 4 then Mentions(s, InconsistencyWords)
    else if k == 5 then Mentions(s, CountWords)
    else if k == 6 then Mentions(s, RankingWords)
    else Mentions(s, ExampleWords)
  }

  function RuleKind(k: nat): Kind
    requires k < 8
  {
    [ListCollections, FraudAnalysis, PeriodQuery, DateQuery, Inconsistency, Count, Ranking, Example][k]
  }

  /** `tipo_pergunta`, for the stripped lower-cased question `s`. The search
      through `padroes_perguntas`, the last resort, is given as `pattern`:
      the first key one of whose regular expressions matches. */
  function Classify(s: string, pattern: Option<string>): Option<Kind> {
    if KindRule(0, s) then Some(ListCollections)
    else if KindRule(1, s) then Some(FraudAnalysis)
    else if KindRule(2, s) then Some(PeriodQuery)
    else if KindRule(3, s) then Some(DateQuery)
    else if KindRule(4, s) then Some(Inconsistency)
    else if KindRule(5, s) then Some(Count)
    else if KindRule(6, s) then Some(Ranking)
    else if KindRule(7, s) then Some(Example)
    else match pattern
      case None => None
      case Some(name) => Some(Pattern(name))
  }

  /** A question is of the kind of rule `k` exactly when rule `k` holds and
      no earlier one does. */
  lemma ClassifyFirstRule(s: string, pattern: Option<string>, k: nat)
    requires k < 8
    ensures Classify(s, pattern) == Some(RuleKind(k)) <==>
      KindRule(k, s) && forall j :: 0 <= j < k ==> !KindRule(j, s)
  {
    if Classify(s, pattern) == Some(RuleKind(k)) {
      ClassifiedByRule(s, pattern, k);
    }
    if KindRule(k, s) && forall j :: 0 <= j < k ==> !KindRule(j, s) {
      RuleClassifies(s, pattern, k);
    }
  }

  lemma ClassifiedByRule(s: string, pattern: Option<string>, k: nat)
    requires k < 8 && Classify(s, pattern) == Some(RuleKind(k))
    ensures KindRule(k, s) && forall j :: 0 <= j < k ==> !KindRule(j, s)
  {
  }

  lemma RuleClassifies(s: string, pattern: Option<string>, k: nat)
    requires k < 8 && KindRule(k, s) && forall j :: 0 <= j < k ==> !KindRule(j, s)
    ensures Classify(s, pattern) == Some(RuleKind(k))
  {
    if k >= 1 { assert !KindRule(0, s); }
    if k >= 2 { assert !KindRule(1, s); }
    if k >= 3 { assert !KindRule(2, s); }
    if k >= 4 { assert !KindRule(3, s); }
    if k >= 5 { assert !KindRule(4, s); }
    if k >= 6 { assert !KindRule(5, s); }
    if k >= 7 { assert !KindRule(6, s); }
  }

  /** The pattern dictionary is consulted only when no rule holds. */
  lemma ClassifyFallback(s: string, pattern: Option<string>)
    ensures (exists name :: Classify(s, pattern) == Some(Pattern(name))) || Classify(s, pattern).None? <==>
      forall k :: 0 <= k < 8 ==> !KindRule(k, s)
    ensures (forall k :: 0 <= k < 8 ==> !KindRule(k, s)) ==>
      Classify(s, pattern) == if pattern.None? then None else Some(Pattern(pattern.value))
  {
    if exists k :: 0 <= k < 8 && KindRule(k, s) {
      var k :| 0 <= k < 8 && KindRule(k, s);
      assert KindRule(0, s) || KindRule(1, s) || KindRule(2, s) || KindRule(3, s) ||
        KindRule(4, s) || KindRule(5, s) || KindRule(6, s) || KindRule(7, s);
    }
  }

  /** Every period pattern holds a date, so a question that names a period
      also satisfies the date rule; trying the period first is what makes
      it a period. */
  lemma PeriodHoldsDate(s: string)
    requires KindRule(2, s)
    ensures KindRule(3, s)
  {
    var p :| p in PeriodPatterns() && Search(p, s);
    var i :| 0 <= i <= |s| && MatchesAt(p, s, i);
    var k :| 0 <= k < 4 && PeriodPatterns()[k] == p;
    var pre, sep := PeriodParts(k).0, PeriodParts(k).1;
    assert p == Between(pre, sep);
    BetweenHoldsDate(pre, sep, s, i);
  }

  function PeriodParts(k: nat): (seq<Token>, seq<Token>)
    requires k < 4
    ensures PeriodPatterns()[k] == Between(PeriodParts(k).0, PeriodParts(k).1)
  {
    if k == 0 then ([Lit("entre"), Spaces(1), OptChar('o'), Spaces(0), Lit("dia"), Spaces(1)],
                    [Spaces(1), Lit("até"), Spaces(1), Lit("dia"), Spaces(1)])
    else if k == 1 then ([Lit("de"), Spaces(1)], [Spaces(1), Lit("até"), Spaces(1)])
    else if k == 2 then ([Lit("entre"), Spaces(1)], [Spaces(1), Lit("e"), Spaces(1)])
    else ([Lit("entre"), Spaces(1), Lit("os"), Spaces(1), Lit("dias"), Spaces(1)], [Spaces(1), Lit("e"), Spaces(1)])
  }

  lemma BetweenHoldsDate(pre: seq<Token>, sep: seq<Token>, s: string, i: nat)
    requires i <= |s| && MatchesAt(Between(pre, sep), s, i)
    ensures Search(DatePattern(2), s)
  {
    MatchesPrefix(pre + DatePattern(4), sep + DatePattern(4), s, i);
    MatchesConcat(pre, DatePattern(4), s, i);
    var j :| i <= j <= |s| && MatchesAt(DatePattern(4), s, j);
    DateAtMatches(s, j, 4);
    DateAtMatches(s, j, 2);
  }

  /** A match of a concatenation starts with a match of its first part. */
  lemma {:induction false} MatchesPrefix(a: seq<Token>, b: seq<Token>, s: string, i: nat)
    requires i <= |s| && MatchesAt(a + b, s, i)
    ensures MatchesAt(a, s, i)
    decreases |a|
  {
    if |a| > 0 {
      var j :| j in Ends((a + b)[0], s, i) && MatchesAt((a + b)[1..], s, j);
      assert (a + b)[0] == a[0] && (a + b)[1..] == a[1..] + b;
      MatchesPrefix(a[1..], b, s, j);
    }
  }

  /** `colecoes_especificas`, in the order the checks append them. */
  function MentionedCollections(s: string): seq<string> {
    ReturnsNamed(s) + CancellationsNamed(s) + AdjustmentsNamed(s)
  }

  function ReturnsNamed(s: string): seq<string> {
    if Contains(s, "devolução") || Contains(s, "devolucao") then [Records.Returns] else []
  }

  function CancellationsNamed(s: string): seq<string> {
    if Contains(s, "cancelamento") then [Records.Cancellations] else []
  }

  function AdjustmentsNamed(s: string): seq<string> {
    if Contains(s, "ajuste") || Contains(s, "estoque") then [Records.Adjustments] else []
  }

  /** Each collection is listed exactly when the question names it, once,
      and in the fixed order returns, cancellations, adjustments. */
  lemma MentionedCollectionsMeaning(s: string)
    ensures Records.Returns in MentionedCollections(s) <==> Contains(s, "devolução") || Contains(s, "devolucao")
    ensures Records.Cancellations in MentionedCollections(s) <==> Contains(s, "cancelamento")
    ensures Records.Adjustments in MentionedCollections(s) <==> Contains(s, "ajuste") || Contains(s, "estoque")
    ensures forall i, j :: 0 <= i < j < |MentionedCollections(s)| ==>
      CollectionRank(MentionedCollections(s)[i]) < CollectionRank(MentionedCollections(s)[j])
  {
    CollectionsDiffer();
  }

  lemma CollectionsDiffer()
    ensures Records.Returns != Records.Cancellations && Records.Returns != Records.Adjustments
    ensures Records.Cancellations != Records.Adjustments
  {
    assert |Records.Returns| == 9 && |Records.Cancellations| == 12 && |Records.Adjustments| == 15;
  }

  /** The position of a collection in the fixed order. */
  function CollectionRank(name: string): nat {
    if name == Records.Returns then 0 else if name == Records.Cancellations then 1 else 2
  }

  /** What `_interpretar_pergunta` returns. */
  datatype Interpretation = Interpretation(
    kind: Option<Kind>, quantity: nat, table: bool, original: string, collections: seq<string>)

  /** `_interpretar_pergunta(pergunta)`: the kind (the pattern dictionary's
      verdict given as `pattern`), the amount, whether a table is wanted,
      and the collections named, appended one check at a time. */
  method InterpretQuestion(question: string, pattern: Option<string>) returns (r: Interpretation)
    ensures r.kind == Classify(Strip(Lower(question)), pattern)
    ensures r.quantity == Quantity(question)
    ensures r.table <==> Mentions(Strip(Lower(question)), TableWords)
    ensures r.original == question
    ensures r.collections == MentionedCollections(Strip(Lower(question)))
  {
    var s := Strip(Lower(question));
    var kind := Classify(s, pattern);
    var quantity := Quantity(question);
    var table := Mentions(s, TableWords);
    var collections := NameCollections(s);
    r := Interpretation(kind, quantity, table, question, collections);
  }

  /** The list of `colecoes_mencionadas`, appended to test by test. */
  method NameCollections(s: string) returns (collections: seq<string>)
    ensures collections == MentionedCollections(s)
  {
    collections := [];
    if Contains(s, "devolução") || Contains(s, "devolucao") {
      collections := collections + [Records.Returns];
    }
    assert collections == ReturnsNamed(s);
    if Contains(s, "cancelamento") {
      collections := collections + [Records.Cancellations];
    }
    assert collections == ReturnsNamed(s) + CancellationsNamed(s);
    if Contains(s, "ajuste") || Contains(s, "estoque") {
      collections := collections + [Records.Adjustments];
    }
  }

  // ---------------------------------------------------------------------
  // _detectar_tipo_consulta_data
  // ---------------------------------------------------------------------

  /** The three kinds of dated query, `tipos_consulta`, in dictionary order. */
  datatype QueryType = ReturnsQuery | CancellationsQuery | AdjustmentsQuery

  function QueryCollections(t: QueryType): seq<string> {
    match t
    case ReturnsQuery => ["DEVOLUCAO", "DEVOLUCOES", "DEVOLUCAO_2025"]
    case CancellationsQuery => ["CANCELAMENTO", "CANCELAMENTOS", "CANCELAMENTO_2025"]
    case AdjustmentsQuery => ["AJUSTES ESTOQUE", "AJUSTES", "ESTOQUE", "INVENTARIO", "AJUSTES_ESTOQUE_2025"]
  }

  function DateField(t: QueryType): string {
    match t
    case ReturnsQuery => "DATA_DEVOLUCAO"
    case CancellationsQuery => "DATACANCELAMENTO"
    case AdjustmentsQuery => "DATA"
  }

  function QueryLabel(t: QueryType): string {
    match t
    case ReturnsQuery => "devoluções"
    case CancellationsQuery => "cancelamentos"
    case AdjustmentsQuery => "ajustes de estoque"
  }

  /** The words that select a kind: the key, the key with `s`, and the
      spellings added for it. */
  function Variants(t: QueryType): seq<string> {
    match t
    case ReturnsQuery => ["devolução", "devoluçãos", "devolucao", "devoluções", "devolucoes"]
    case CancellationsQuery => ["cancelamento", "cancelamentos", "cancelamentos"]
    case AdjustmentsQuery => ["ajuste", "ajustes", "ajustes", "estoque", "inventario", "inventário"]
  }

  /** `_detectar_tipo_consulta_data(pergunta)`: the first kind whose words
      occur in the lower-cased question, returns by default. */
  function DateQueryType(question: string): QueryType {
    var s := Lower(question);
    if Mentions(s, Variants(ReturnsQuery)) then ReturnsQuery
    else if Mentions(s, Variants(CancellationsQuery)) then CancellationsQuery
    else if Mentions(s, Variants(AdjustmentsQuery)) then AdjustmentsQuery
    else ReturnsQuery
  }

  /** Returns win over the others; cancellations over adjustments; a
      question naming none of them is about returns. */
  lemma DateQueryTypeMeaning(question: string)
    ensures var s := Lower(question);
      (DateQueryType(question) == CancellationsQuery <==>
        !Mentions(s, Variants(ReturnsQuery)) && Mentions(s, Variants(CancellationsQuery))) &&
      (DateQueryType(question) == AdjustmentsQuery <==>
        !Mentions(s, Variants(ReturnsQuery)) && !Mentions(s, Variants(CancellationsQuery)) &&
        Mentions(s, Variants(AdjustmentsQuery))) &&
      (DateQueryType(question) == ReturnsQuery <==>
        Mentions(s, Variants(ReturnsQuery)) ||
        (!Mentions(s, Variants(CancellationsQuery)) && !Mentions(s, Variants(AdjustmentsQuery))))
  {
  }

  // ---------------------------------------------------------------------
  // _detectar_colecao_e_tipo_ranking
  // ---------------------------------------------------------------------

  /** The collections a ranking can name. */
  datatype Source = Cancellations2025 | Adjustments2025 | ReturnsSource

  function SourceName(c: Source): string {
    match c
    case Cancellations2025 => "CANCELAMENTO_2025"
    case Adjustments2025 => "AJUSTES_ESTOQUE_2025"
    case ReturnsSource => "DEVOLUCAO"
  }

  /** What a ranking groups by, `tipo_ranking`. */
  datatype Grouping = Stores | Dates | Users | Skus

  function GroupingName(g: Grouping): string {
    match g
    case Stores => "lojas"
    case Dates => "datas"
    case Users => "usuarios"
    case Skus => "skus"
  }

  const CancelWords: seq<string> := ["cancelamento", "cancelamentos", "cancelar", "cancelado"]
  const AdjustWords: seq<string> := ["ajuste", "ajustes", "estoque", "inventario", "inventário"]
  const ReturnWords: seq<string> := ["devolução", "devolucao", "devoluções", "devolucoes"]
  const StoreWords: seq<string> := ["loja", "lojas", "filial", "filiais"]
  const DateWords: seq<string> := ["data", "datas"]
  const UserWords: seq<string> := ["usuario", "usuário", "usuarios", "usuários"]
  const SkuWords: seq<string> := ["sku", "produto", "produtos"]

  /** What `_detectar_colecao_e_tipo_ranking` returns. */
  datatype RankingQuery = RankingQuery(collection: Option<Source>, grouping: Grouping, field: string, title: string)

  function RankingSource(s: string): Option<Source> {
    if Mentions(s, CancelWords) then Some(Cancellations2025)
    else if Mentions(s, AdjustWords) then Some(Adjustments2025)
    else if Mentions(s, ReturnWords) then Some(ReturnsSource)
    else None
  }

  /** `_detectar_colecao_e_tipo_ranking(pergunta)` */
  function DetectRanking(question: string): RankingQuery {
    var s := Lower(question);
    var c := RankingSource(s);
    if Mentions(s, StoreWords) then RankingQuery(c, Stores, "LOJA", "Lojas")
    else if Mentions(s, DateWords) then
      (if c == Some(Cancellations2025) then RankingQuery(c, Dates, "DATACANCELAMENTO", "Datas de Cancelamento")
       else if c == Some(Adjustments2025) then RankingQuery(c, Dates, "DATA", "Datas de Ajuste")
       else RankingQuery(c, Dates, "DATA_DEVOLUCAO", "Datas de Devolução"))
    else if Mentions(s, UserWords) then RankingQuery(c, Users, "IDUSUARIO", "Usuários")
    else if Mentions(s, SkuWords) then RankingQuery(c, Skus, "SKU", "SKUs")
    else RankingQuery(c, Stores, "LOJA", "Lojas")
  }

  /** The collection: cancellations before adjustments before returns. */
  lemma RankingSourceMeaning(question: string)
    ensures var s, c := Lower(question), DetectRanking(question).collection;
      (c == Some(Cancellations2025) <==> Mentions(s, CancelWords)) &&
      (c == Some(Adjustments2025) <==> !Mentions(s, CancelWords) && Mentions(s, AdjustWords)) &&
      (c == Some(ReturnsSource) <==>
        !Mentions(s, CancelWords) && !Mentions(s, AdjustWords) && Mentions(s, ReturnWords)) &&
      (c.None? <==> !Mentions(s, CancelWords) && !Mentions(s, AdjustWords) && !Mentions(s, ReturnWords))
  {
  }

  /** The grouping: stores before dates before users before SKUs, stores
      by default. */
  lemma RankingGroupingMeaning(question: string)
    ensures var s, g := Lower(question), DetectRanking(question).grouping;
      (g == Dates <==> !Mentions(s, StoreWords) && Mentions(s, DateWords)) &&
      (g == Users <==> !Mentions(s, StoreWords) && !Mentions(s, DateWords) && Mentions(s, UserWords)) &&
      (g == Skus <==>
        (!Mentions(s, StoreWords) && !Mentions(s, DateWords) && !Mentions(s, UserWords) && Mentions(s, SkuWords))) &&
      (g == Stores <==>
        (Mentions(s, StoreWords) || (!Mentions(s, DateWords) && !Mentions(s, UserWords) && !Mentions(s, SkuWords))))
  {
  }

  /** The kind of dated query a ranking's collection stands for; a ranking
      without a collection is read as one of returns. */
  function SourceType(c: Option<Source>): QueryType {
    match c
    case Some(Cancellations2025) => CancellationsQuery
    case Some(Adjustments2025) => AdjustmentsQuery
    case _ => ReturnsQuery
  }

  /** A ranking by date groups by the date field the dated queries use for
      that collection; the other groupings use a fixed field. */
  lemma RankingField(question: string)
    ensures var r := DetectRanking(question);
      (r.grouping == Dates ==> r.field == DateField(SourceType(r.collection))) &&
      (r.grouping == Stores ==> r.field == "LOJA") &&
      (r.grouping == Users ==> r.field == "IDUSUARIO") &&
      (r.grouping == Skus ==> r.field == "SKU")
  {
  }
}
