/** The cleaning pipeline's pure steps on a pandas frame: column names in
    snake case without accents, and the de-duplication and NA strategies. */
module Limpeza {
  import opened Text
  import opened Frames
  import Grouping
  import Dicts

  // ---------------------------------------------------------------------
  // normalize_columns: one name
  // ---------------------------------------------------------------------

  /** A combining mark, which the NFD step splits off and then drops. */
  predicate IsCombining(c: char) {
    0x300 <= c as int <= 0x36F
  }

  /** The base letter NFD leaves for a precomposed Latin-1 letter; any
      other character is its own base. */
  function BaseLetter(c: char): (b: char)
    ensures c as int < 0x80 ==> b == c
    ensures IsAsciiLetter(b) || b == c
  {
    var n := c as int;
    if 0xC0 <= n <= 0xC5 then 'A'
    else if n == 0xC7 then 'C'
    else if 0xC8 <= n <= 0xCB then 'E'
    else if 0xCC <= n <= 0xCF then 'I'
    else if n == 0xD1 then 'N'
    else if 0xD2 <= n <= 0xD6 then 'O'
    else if 0xD9 <= n <= 0xDC then 'U'
    else if n == 0xDD then 'Y'
    else if 0xE0 <= n <= 0xE5 then 'a'
    else if n == 0xE7 then 'c'
    else if 0xE8 <= n <= 0xEB then 'e'
    else if 0xEC <= n <= 0xEF then 'i'
    else if n == 0xF1 then 'n'
    else if 0xF2 <= n <= 0xF6 then 'o'
    else if 0xF9 <= n <= 0xFC then 'u'
    else if n == 0xFD || n == 0xFF then 'y'
    else c
  }

  /** `normalize('NFD', s)` with the combining marks removed. */
  function Deaccent(s: string): (r: string)
    ensures |r| <= |s|
    ensures (forall i :: 0 <= i < |s| ==> s[i] as int < 0x80) ==> r == s
    decreases |s|
  {
    if |s| == 0 then []
    else if IsCombining(s[0]) then Deaccent(s[1..])
    else [BaseLetter(s[0])] + Deaccent(s[1..])
  }

  /** `re.sub(r'[^a-zA-Z0-9\s]', ' ', s)` */
  function Punctuation(s: string): (r: string)
    ensures |r| == |s|
    ensures forall i :: 0 <= i < |s| ==> r[i] == if IsAsciiAlnum(s[i]) || IsSpace(s[i]) then s[i] else ' '
  {
    seq(|s|, i requires 0 <= i < |s| => if IsAsciiAlnum(s[i]) || IsSpace(s[i]) then s[i] else ' ')
  }

  predicate IsUnderscore(c: char) {
    c == '_'
  }

  /** A lower-case ASCII letter or a digit. */
  predicate IsLowerAlnum(c: char) {
    'a' <= c <= 'z' || IsDigit(c)
  }

  predicate IsNameChar(c: char) {
    IsLowerAlnum(c) || c == '_'
  }

  /** How many leading white-space characters `s` has. */
  function SpacesDropped(s: string): (k: nat)
    ensures k <= |s| && TrimLeft(s, IsSpace) == s[k..]
    ensures |s| > 0 && IsSpace(s[0]) ==> k > 0
  {
    |s| - |TrimLeft(s, IsSpace)|
  }

  /** `re.sub(r'\s+', '_', s)` */
  function SpacesToUnderscore(s: string): (r: string)
    ensures |r| <= |s|
    decreases |s|
  {
    if |s| == 0 then []
    else if IsSpace(s[0]) then
      var k := SpacesDropped(s);
      "_" + SpacesToUnderscore(s[k..])
    else [s[0]] + SpacesToUnderscore(s[1..])
  }

  /** Out of lower-case letters, digits and white space come only name
      characters. */
  lemma {:induction false} UnderscoreNameChars(s: string)
    requires forall i :: 0 <= i < |s| ==> IsLowerAlnum(s[i]) || IsSpace(s[i])
    ensures forall i :: 0 <= i < |SpacesToUnderscore(s)| ==> IsNameChar(SpacesToUnderscore(s)[i])
    decreases |s|
  {
    if |s| > 0 {
      var t := AfterSpaces(s);
      forall i | 0 <= i < |t| ensures IsLowerAlnum(t[i]) || IsSpace(t[i]) {
        assert t[i] == s[i + |s| - |t|];
      }
      UnderscoreNameChars(t);
      var c := UnderscoreStep(s);
      var r := SpacesToUnderscore(s);
      var rest := SpacesToUnderscore(t);
      forall i | 1 <= i < |r| ensures IsNameChar(r[i]) {
        assert r[i] == rest[i - 1];
      }
    }
  }

  /** What is left of `s` after its first character or its first run of
      white space. */
  function AfterSpaces(s: string): (t: string)
    requires |s| > 0
    ensures |t| < |s| && t == s[|s| - |t|..]
  {
    if IsSpace(s[0]) then s[SpacesDropped(s)..] else s[1..]
  }

  lemma UnderscoreStep(s: string) returns (c: char)
    requires |s| > 0
    ensures c == if IsSpace(s[0]) then '_' else s[0]
    ensures SpacesToUnderscore(s) == [c] + SpacesToUnderscore(AfterSpaces(s))
  {
    c := if IsSpace(s[0]) then '_' else s[0];
  }

  /** Without two white-space characters in a row, each one simply
      becomes `_`. */
  lemma {:induction false} SingleSpaces(s: string)
    requires forall i :: 0 <= i < |s| - 1 ==> !(IsSpace(s[i]) && IsSpace(s[i + 1]))
    ensures SpacesToUnderscore(s) == seq(|s|, i requires 0 <= i < |s| => if IsSpace(s[i]) then '_' else s[i])
    decreases |s|
  {
    if |s| > 0 {
      var k := SpacesDropped(s);
      if IsSpace(s[0]) {
        assert k == 1 by {
          if |s| > 1 { assert !IsSpace(s[1]); assert TrimLeft(s, IsSpace) == TrimLeft(s[1..], IsSpace); }
        }
      }
      SingleSpaces(s[1..]);
    }
  }

  /** How many leading underscores `s` has. */
  function UnderscoresDropped(s: string): (k: nat)
    ensures k <= |s| && TrimLeft(s, IsUnderscore) == s[k..]
    ensures |s| > 0 && s[0] == '_' ==> k > 0
  {
    |s| - |TrimLeft(s, IsUnderscore)|
  }

  /** `re.sub(r'_+', '_', s)` */
  function SqueezeUnderscores(s: string): (r: string)
    ensures |s| > 0 ==> |r| > 0 && r[0] == s[0]
    decreases |s|
  {
    if |s| == 0 then []
    else if s[0] == '_' then "_" + SqueezeUnderscores(s[UnderscoresDropped(s)..])
    else [s[0]] + SqueezeUnderscores(s[1..])
  }

  /** What is left of `s` after its first run: one character, or a whole
      run of underscores. */
  function AfterRun(s: string): (t: string)
    requires |s| > 0
    ensures |t| < |s| && t == s[|s| - |t|..]
    ensures s[0] == '_' ==> t == [] || t[0] != '_'
  {
    if s[0] == '_' then s[UnderscoresDropped(s)..] else s[1..]
  }

  lemma SqueezeStep(s: string)
    requires |s| > 0
    ensures SqueezeUnderscores(s) == [s[0]] + SqueezeUnderscores(AfterRun(s))
  {
  }

  /** Only name characters in, only name characters out. */
  lemma {:induction false} SqueezeNameChars(s: string)
    requires forall i :: 0 <= i < |s| ==> IsNameChar(s[i])
    ensures forall i :: 0 <= i < |SqueezeUnderscores(s)| ==> IsNameChar(SqueezeUnderscores(s)[i])
    decreases |s|
  {
    if |s| > 0 {
      var t := AfterRun(s);
      forall i | 0 <= i < |t| ensures IsNameChar(t[i]) {
        assert t[i] == s[i + |s| - |t|];
      }
      SqueezeNameChars(t);
      SqueezeStep(s);
      var r := SqueezeUnderscores(s);
      var rest := SqueezeUnderscores(t);
      forall i | 1 <= i < |r| ensures IsNameChar(r[i]) {
        assert r[i] == rest[i - 1];
      }
    }
  }

  /** No two underscores in a row remain. */
  lemma {:induction false} SqueezeSingle(s: string)
    ensures forall i :: 0 <= i < |SqueezeUnderscores(s)| - 1 ==>
              !(SqueezeUnderscores(s)[i] == '_' && SqueezeUnderscores(s)[i + 1] == '_')
    decreases |s|
  {
    if |s| > 0 {
      var t := AfterRun(s);
      SqueezeSingle(t);
      SqueezeStep(s);
      var r := SqueezeUnderscores(s);
      var rest := SqueezeUnderscores(t);
      forall i | 0 <= i < |r| - 1 ensures !(r[i] == '_' && r[i + 1] == '_') {
        if i == 0 {
          assert r[1] == rest[0] == t[0];
        } else {
          assert r[i] == rest[i - 1] && r[i + 1] == rest[i];
        }
      }
    }
  }

  /** Without two underscores in a row there is nothing to squeeze. */
  lemma {:induction false} SqueezeNothing(s: string)
    requires forall i :: 0 <= i < |s| - 1 ==> !(s[i] == '_' && s[i + 1] == '_')
    ensures SqueezeUnderscores(s) == s
    decreases |s|
  {
    if |s| > 0 {
      var t := AfterRun(s);
      assert t == s[1..] by {
        if s[0] == '_' && |s| > 1 {
          assert s[1] != '_';
          assert TrimLeft(s, IsUnderscore) == TrimLeft(s[1..], IsUnderscore);
        }
      }
      SqueezeNothing(t);
      SqueezeStep(s);
    }
  }

  /** One column name through `normalize_columns`. */
  function NormalizeName(col: string): string {
    var spaced := Punctuation(Deaccent(col));
    var snake := SpacesToUnderscore(Lower(Strip(spaced)));
    StripChar(SqueezeUnderscores(snake), '_')
  }

  /** What `normalize_columns` promises of a name: lower-case letters,
      digits and single underscores between them. */
  predicate IsSnakeName(s: string) {
    (forall i :: 0 <= i < |s| ==> IsNameChar(s[i])) &&
    (|s| > 0 ==> s[0] != '_' && s[|s| - 1] != '_') &&
    (forall i :: 0 <= i < |s| - 1 ==> !(s[i] == '_' && s[i + 1] == '_'))
  }

  /** `str.strip()` keeps a slice. */
  lemma StripSlice(s: string) returns (a: nat)
    ensures a + |Strip(s)| <= |s| && Strip(s) == s[a..a + |Strip(s)|]
  {
    var left := TrimLeft(s, IsSpace);
    a := |s| - |left|;
  }

  /** `str.strip('_')` keeps a slice. */
  lemma StripUnderscoreSlice(s: string) returns (a: nat)
    ensures a + |StripChar(s, '_')| <= |s| && StripChar(s, '_') == s[a..a + |StripChar(s, '_')|]
  {
    var left := TrimLeft(s, x => x == '_');
    a := |s| - |left|;
  }

  /** After `strip().lower()`, only lower-case letters, digits and inner
      white space remain. */
  lemma StripLowerClass(spaced: string)
    requires forall i :: 0 <= i < |spaced| ==> IsAsciiAlnum(spaced[i]) || IsSpace(spaced[i])
    ensures forall i :: 0 <= i < |Lower(Strip(spaced))| ==>
              IsLowerAlnum(Lower(Strip(spaced))[i]) || IsSpace(Lower(Strip(spaced))[i])
  {
    var stripped := Strip(spaced);
    var a := StripSlice(spaced);
    forall i | 0 <= i < |stripped| ensures IsAsciiAlnum(stripped[i]) || IsSpace(stripped[i]) {
      assert stripped[i] == spaced[a + i];
    }
    forall i | 0 <= i < |stripped| ensures IsLowerAlnum(Lower(stripped)[i]) || IsSpace(Lower(stripped)[i]) {
      LowerClass(stripped[i]);
    }
  }

  lemma LowerClass(c: char)
    requires IsAsciiAlnum(c) || IsSpace(c)
    ensures IsLowerAlnum(LowerChar(c)) || IsSpace(LowerChar(c))
  {
  }

  /** The closing `strip('_')` keeps a snake-case shape. */
  lemma StripUnderscoreSnake(single: string)
    requires forall i :: 0 <= i < |single| ==> IsNameChar(single[i])
    requires forall i :: 0 <= i < |single| - 1 ==> !(single[i] == '_' && single[i + 1] == '_')
    ensures IsSnakeName(StripChar(single, '_'))
  {
    var name := StripChar(single, '_');
    var a := StripUnderscoreSlice(single);
    assert forall i :: 0 <= i < |name| ==> name[i] == single[a + i];
  }

  /** Every name comes out in snake case. */
  lemma NormalizedIsSnake(col: string)
    ensures IsSnakeName(NormalizeName(col))
  {
    var spaced := Punctuation(Deaccent(col));
    StripLowerClass(spaced);
    var snake := SpacesToUnderscore(Lower(Strip(spaced)));
    UnderscoreNameChars(Lower(Strip(spaced)));
    SqueezeNameChars(snake);
    SqueezeSingle(snake);
    StripUnderscoreSnake(SqueezeUnderscores(snake));
  }

  /** Trimming stops at once when the first and last characters stay. */
  lemma TrimNothing(s: string, p: char -> bool)
    requires |s| > 0 ==> !p(s[0]) && !p(s[|s| - 1])
    ensures TrimRight(TrimLeft(s, p), p) == s
  {
  }

  /** A snake-case name is plain ASCII, which NFD leaves alone. */
  lemma SnakeNameAscii(s: string)
    requires IsSnakeName(s)
    ensures Deaccent(s) == s
  {
    forall i | 0 <= i < |s| ensures s[i] as int < 0x80 {
      assert IsNameChar(s[i]);
    }
  }

  /** On a snake-case name the first steps only turn `_` into a space. */
  lemma SnakeNameSpaced(s: string)
    requires IsSnakeName(s)
    ensures Punctuation(Deaccent(s)) == seq(|s|, i requires 0 <= i < |s| => if s[i] == '_' then ' ' else s[i])
  {
    SnakeNameAscii(s);
    var spaced := Punctuation(s);
    var target := seq(|s|, i requires 0 <= i < |s| => if s[i] == '_' then ' ' else s[i]);
    forall i | 0 <= i < |s| ensures spaced[i] == target[i] {
      NameCharSpaced(s[i]);
    }
    assert spaced == target;
  }

  lemma NameCharSpaced(c: char)
    requires IsNameChar(c)
    ensures (if IsAsciiAlnum(c) || IsSpace(c) then c else ' ') == if c == '_' then ' ' else c
  {
  }

  /** Such a spaced name has no two spaces in a row. */
  lemma SpacedSingle(s: string, spaced: string)
    requires IsSnakeName(s)
    requires spaced == seq(|s|, i requires 0 <= i < |s| => if s[i] == '_' then ' ' else s[i])
    ensures forall i :: 0 <= i < |spaced| - 1 ==> !(IsSpace(spaced[i]) && IsSpace(spaced[i + 1]))
  {
    forall i | 0 <= i < |spaced| - 1 ensures !(IsSpace(spaced[i]) && IsSpace(spaced[i + 1])) {
      assert IsSpace(spaced[i]) ==> s[i] == '_';
    }
  }

  /** A snake-case name with `_` written as a space comes back whole. */
  lemma SpacedSnakeName(s: string, spaced: string)
    requires IsSnakeName(s)
    requires spaced == seq(|s|, i requires 0 <= i < |s| => if s[i] == '_' then ' ' else s[i])
    ensures SpacesToUnderscore(Lower(Strip(spaced))) == s
  {
    TrimNothing(spaced, IsSpace);
    assert Lower(spaced) == spaced;
    SpacedSingle(s, spaced);
    SingleSpaces(spaced);
  }

  /** A snake-case name is its own normal form. */
  lemma SnakeNameFixed(s: string)
    requires IsSnakeName(s)
    ensures NormalizeName(s) == s
  {
    SnakeNameSpaced(s);
    SpacedSnakeName(s, Punctuation(Deaccent(s)));
    SqueezeNothing(s);
    TrimNothing(s, x => x == '_');
  }

  /** `normalize_columns` is idempotent on names. */
  lemma NormalizeNameIdempotent(col: string)
    ensures NormalizeName(NormalizeName(col)) == NormalizeName(col)
  {
    NormalizedIsSnake(col);
    SnakeNameFixed(NormalizeName(col));
  }

  /** The loop of `normalize_columns`: `new_columns[col] = rename(col)` for
      every column, then `df.rename(columns=new_columns)`. Rows are
      untouched. */
  method RenameColumns(f: Frame, rename: string -> string) returns (g: Frame)
    ensures g.rows == f.rows && |g.names| == |f.names|
    ensures forall i :: 0 <= i < |f.names| ==> g.names[i] == rename(f.names[i])
  {
    var newColumns: Dicts.Dict<string> := Dicts.Empty();
    var j := 0;
    while j < |f.names|
      invariant 0 <= j <= |f.names|
      invariant Dicts.WellFormed(newColumns)
      invariant forall k :: k in newColumns.entries ==> newColumns.entries[k] == rename(k)
      invariant forall i :: 0 <= i < j ==> f.names[i] in newColumns.entries
    {
      var col := f.names[j];
      newColumns := Dicts.Put(newColumns, col, rename(col));
      j := j + 1;
    }
    var names := seq(|f.names|, i requires 0 <= i < |f.names| =>
                       if f.names[i] in newColumns.entries then newColumns.entries[f.names[i]] else f.names[i]);
    g := Frame(names, f.rows);
  }

  /** `normalize_columns` on a pandas frame. */
  method NormalizeColumns(f: Frame) returns (g: Frame)
    ensures g.rows == f.rows && |g.names| == |f.names|
    ensures forall i :: 0 <= i < |f.names| ==> g.names[i] == NormalizeName(f.names[i])
    ensures forall i :: 0 <= i < |g.names| ==> IsSnakeName(g.names[i])
  {
    g := RenameColumns(f, NormalizeName);
    forall i | 0 <= i < |g.names| ensures IsSnakeName(g.names[i]) {
      NormalizedIsSnake(f.names[i]);
    }
  }

  /** Names change, never their number or order, and a second pass
      changes nothing. */
  lemma NormalizeColumnsIdempotent(names: seq<string>)
    ensures var once := seq(|names|, i requires 0 <= i < |names| => NormalizeName(names[i]));
      seq(|once|, i requires 0 <= i < |once| => NormalizeName(once[i])) == once
  {
    var once := seq(|names|, i requires 0 <= i < |names| => NormalizeName(names[i]));
    forall i | 0 <= i < |once| ensures NormalizeName(once[i]) == once[i] {
      NormalizeNameIdempotent(names[i]);
    }
  }

  // ---------------------------------------------------------------------
  // drop_dupes_and_nas, pandas branch
  // ---------------------------------------------------------------------

  type Row = seq<Cell>

  predicate Distinct(rows: seq<Row>) {
    forall i, j :: 0 <= i < j < |rows| ==> rows[i] != rows[j]
  }

  /** `drop_duplicates()`: each distinct row once, at its first occurrence;
      whole rows are compared. */
  function DropDuplicates(rows: seq<Row>): (r: seq<Row>)
    ensures Distinct(r)
    ensures forall x :: x in r <==> x in rows
  {
    Grouping.Keys(rows, (row: Row) => row)
  }

  /** `idx` places the elements of `a` in `b`, in increasing positions. */
  ghost predicate Embeds(a: seq<Row>, b: seq<Row>, idx: seq<nat>) {
    |idx| == |a| &&
    (forall i :: 0 <= i < |idx| ==> idx[i] < |b| && a[i] == b[idx[i]]) &&
    (forall i, j :: 0 <= i < j < |idx| ==> idx[i] < idx[j])
  }

  ghost predicate IsSubsequence(a: seq<Row>, b: seq<Row>) {
    exists idx :: Embeds(a, b, idx)
  }

  /** The first occurrences lie in the input in order. */
  lemma {:induction false} DropDuplicatesEmbeds(rows: seq<Row>) returns (idx: seq<nat>)
    ensures Embeds(DropDuplicates(rows), rows, idx)
    decreases |rows|
  {
    if |rows| == 0 {
      idx := [];
    } else {
      var init := rows[..|rows| - 1];
      var sub := DropDuplicatesEmbeds(init);
      if rows[|rows| - 1] in DropDuplicates(init) {
        idx := sub;
      } else {
        idx := sub + [|rows| - 1];
      }
    }
  }

  lemma {:induction false} FilterEmbeds(rows: seq<Row>, p: Row -> bool) returns (idx: seq<nat>)
    ensures Embeds(Grouping.Filter(rows, p), rows, idx)
    decreases |rows|
  {
    if |rows| == 0 {
      idx := [];
    } else {
      var init := rows[..|rows| - 1];
      var last := rows[|rows| - 1];
      assert rows == init + [last];
      Grouping.FilterSnoc(init, last, p);
      var sub := FilterEmbeds(init, p);
      if p(last) {
        idx := sub + [|rows| - 1];
      } else {
        idx := sub;
      }
    }
  }

  lemma EmbedsCompose(a: seq<Row>, b: seq<Row>, c: seq<Row>, ab: seq<nat>, bc: seq<nat>) returns (ac: seq<nat>)
    requires Embeds(a, b, ab) && Embeds(b, c, bc)
    ensures Embeds(a, c, ac)
  {
    ac := seq(|ab|, i requires 0 <= i < |ab| => bc[ab[i]]);
  }

  /** The strategies by name; an unknown name gives an unchanged copy. */
  function CleanRows(rows: seq<Row>, how: string): seq<Row> {
    if how == "smart" then DropAllNull(DropDuplicates(rows))
    else if how == "strict" then DropAnyNull(DropDuplicates(rows))
    else if how == "conservative" then DropDuplicates(rows)
    else rows
  }

  /** Every strategy keeps a subsequence of the input rows. */
  lemma CleanRowsSubsequence(rows: seq<Row>, how: string)
    ensures IsSubsequence(CleanRows(rows, how), rows)
  {
    var d := DropDuplicates(rows);
    var dIdx := DropDuplicatesEmbeds(rows);
    if how == "smart" {
      var fIdx := FilterEmbeds(d, HasValue);
      var idx := EmbedsCompose(Grouping.Filter(d, HasValue), d, rows, fIdx, dIdx);
    } else if how == "strict" {
      var fIdx := FilterEmbeds(d, Complete);
      var idx := EmbedsCompose(Grouping.Filter(d, Complete), d, rows, fIdx, dIdx);
    } else if how == "conservative" {
      assert Embeds(d, rows, dIdx);
    } else {
      assert Embeds(rows, rows, seq(|rows|, i requires 0 <= i < |rows| => i));
    }
  }

  /** A filter keeps distinct rows distinct. */
  lemma FilterDistinct(rows: seq<Row>, p: Row -> bool)
    requires Distinct(rows)
    ensures Distinct(Grouping.Filter(rows, p))
  {
    var idx := FilterEmbeds(rows, p);
  }

  /** Dropping duplicates from distinct rows changes nothing. */
  lemma {:induction false} DropDuplicatesOfDistinct(rows: seq<Row>)
    requires Distinct(rows)
    ensures DropDuplicates(rows) == rows
    decreases |rows|
  {
    if |rows| > 0 {
      var init := rows[..|rows| - 1];
      DropDuplicatesOfDistinct(init);
      assert rows[|rows| - 1] !in init;
      assert rows == init + [rows[|rows| - 1]];
    }
  }

  /** Dropping duplicates, then filtering, twice is doing it once. */
  lemma FilteredOnce(rows: seq<Row>, p: Row -> bool)
    ensures var once := Grouping.Filter(DropDuplicates(rows), p);
      Grouping.Filter(DropDuplicates(once), p) == once
  {
    var once := Grouping.Filter(DropDuplicates(rows), p);
    FilterDistinct(DropDuplicates(rows), p);
    DropDuplicatesOfDistinct(once);
    Grouping.FilterKeepsAll(once, p);
  }

  /** Each strategy is idempotent, as its documentation says. */
  lemma CleanRowsIdempotent(rows: seq<Row>, how: string)
    ensures CleanRows(CleanRows(rows, how), how) == CleanRows(rows, how)
  {
    if how == "smart" {
      FilteredOnce(rows, HasValue);
    } else if how == "strict" {
      FilteredOnce(rows, Complete);
    } else if how == "conservative" {
      DropDuplicatesOfDistinct(DropDuplicates(rows));
    }
  }

  /** "smart" and "strict" differ only in which rows with a missing value
      they keep. */
  lemma StrategiesNested(rows: seq<Row>)
    requires forall i :: 0 <= i < |rows| ==> |rows[i]| > 0
    ensures forall x :: x in CleanRows(rows, "strict") ==> x in CleanRows(rows, "smart")
    ensures forall x :: x in CleanRows(rows, "smart") ==> x in CleanRows(rows, "conservative")
  {
    var d := DropDuplicates(rows);
    forall x: seq<Cell> | x in CleanRows(rows, "strict") ensures x in CleanRows(rows, "smart") {
      Grouping.FilterMember(d, Complete, x);
      Grouping.FilterMember(d, HasValue, x);
      assert |x| > 0 && !x[0].Null?;
    }
    forall x: seq<Cell> | x in CleanRows(rows, "smart") ensures x in CleanRows(rows, "conservative") {
      Grouping.FilterMember(d, HasValue, x);
    }
  }

  /** The outcome of `drop_dupes_and_nas` as written: its closing log line
      divides by the initial row count. */
  datatype Outcome = Cleaned(frame: Frame) | ZeroDivisionError

  function DropDupesAndNas(f: Frame, how: string): (r: Outcome)
    ensures r.ZeroDivisionError? <==> |f.rows| == 0
    ensures r.Cleaned? ==> r.frame == Frame(f.names, CleanRows(f.rows, how))
  {
    var cleaned := Frame(f.names, CleanRows(f.rows, how));
    if |f.rows| == 0 then ZeroDivisionError else Cleaned(cleaned)
  }

  /** A frame with a header and no rows makes every strategy raise. */
  lemma EmptyFrameRaises(names: seq<string>, how: string)
    ensures DropDupesAndNas(Frame(names, []), how) == ZeroDivisionError
  {
  }

  /** The intended behaviour: an empty frame comes back empty, other
      frames as before. */
  function DropDupesAndNasFixed(f: Frame, how: string): (g: Frame)
    ensures g.names == f.names && IsSubsequence(g.rows, f.rows)
    ensures |f.rows| == 0 ==> |g.rows| == 0
    ensures |f.rows| > 0 ==> DropDupesAndNas(f, how) == Cleaned(g)
  {
    CleanRowsSubsequence(f.rows, how);
    Frame(f.names, CleanRows(f.rows, how))
  }
}
