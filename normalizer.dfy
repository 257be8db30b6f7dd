/** The importer's `normalizar_dataframe(df, nome_arquivo)`: common
    conversions of the `SKU` and `DATA` columns, then at most one set of
    exact-value remaps chosen by the file name. */
module Normalizer {
  import opened Text
  import opened Frames
  import Calendar

  /** The file-specific rule: the first of the three substrings found in
      the lower-cased file name decides; no match means common rules only. */
  datatype Rule = Adjustments | Returns | Cancellations | CommonOnly

  function RuleFor(fileName: string): (r: Rule)
    ensures r == Adjustments <==> Contains(Lower(fileName), "ajustes_estoque_2025")
    ensures r == Returns <==>
              !Contains(Lower(fileName), "ajustes_estoque_2025") && Contains(Lower(fileName), "devolucao")
    ensures r == Cancellations <==>
              !Contains(Lower(fileName), "ajustes_estoque_2025") && !Contains(Lower(fileName), "devolucao") &&
              Contains(Lower(fileName), "cancelamento")
  {
    var name := Lower(fileName);
    if Contains(name, "ajustes_estoque_2025") then Adjustments
    else if Contains(name, "devolucao") then Returns
    else if Contains(name, "cancelamento") then Cancellations
    else CommonOnly
  }

  const AdjustmentTypes: seq<(string, string)> := [
    ("SA?DA DO ESTOQUE", "SAÍDA DO ESTOQUE"),
    ("AJUSTE CONTAGEM SAIDA", "AJUSTE CONTAGEM SAÍDA")
  ]

  const MovementTypes: seq<(string, string)> := [("Sa?a", "Saída")]

  const CancelFlags: seq<(string, string)> := [("NÃ£o", "Não")]

  /** The columns a rule remaps, each with its mapping, in the order the
      rule assigns them. */
  function Targets(rule: Rule): seq<(string, seq<(string, string)>)> {
    match rule
    case Adjustments => [("TIPO_AJUSTE", AdjustmentTypes)]
    case Returns => [("TIPOMOVIMENTACAO", MovementTypes)]
    case Cancellations => [("ATIVO_CANCELADO", CancelFlags), ("CONFIRMADO_CANCELADO", CancelFlags)]
    case CommonOnly => []
  }

  /** `Series.replace(mapping)` on one cell: a text equal to a key becomes
      that key's value; any other cell, a text that merely contains a key
      included, is kept. */
  function Remap(c: Cell, mapping: seq<(string, string)>): (r: Cell)
    ensures !c.Str? ==> r == c
    ensures c.Str? && (forall t :: 0 <= t < |mapping| ==> mapping[t].0 != c.s) ==> r == c
    ensures r != c ==> exists t :: 0 <= t < |mapping| && mapping[t].0 == c.s && r == Str(mapping[t].1)
    ensures forall t :: 0 <= t < |mapping| && c == Str(mapping[t].0) ==>
              (forall u :: 0 <= u < t ==> mapping[u].0 != c.s) ==> r == Str(mapping[t].1)
    decreases |mapping|
  {
    if |mapping| == 0 then c
    else if c == Str(mapping[0].0) then Str(mapping[0].1)
    else
      var r := Remap(c, mapping[1..]);
      assert forall t :: 1 <= t < |mapping| ==> mapping[t] == mapping[1..][t - 1];
      r
  }

  /** `df[col].astype(str)` for one cell. */
  function SkuText(c: Cell): Cell {
    Str(AsText(c))
  }

  /** The mapping of the first target of the rule whose column is column `k`. */
  function MappingAt(names: seq<string>, k: nat, targets: seq<(string, seq<(string, string)>)>): (r: Option<seq<(string, string)>>)
    ensures r.Some? ==> exists t :: 0 <= t < |targets| && IndexOf(names, targets[t].0) == Some(k) && r.value == targets[t].1
    ensures r.None? <==> forall t :: 0 <= t < |targets| ==> IndexOf(names, targets[t].0) != Some(k)
    decreases |targets|
  {
    if |targets| == 0 then None
    else if IndexOf(names, targets[0].0) == Some(k) then Some(targets[0].1)
    else
      var r := MappingAt(names, k, targets[1..]);
      assert forall t :: 1 <= t < |targets| ==> targets[t] == targets[1..][t - 1];
      r
  }

  /** A cell of column `k` after the common conversions. Only the first
      column of a given name is addressed by `df[name]`. */
  function CommonCell(names: seq<string>, k: nat, c: Cell): Cell {
    if IndexOf(names, "SKU") == Some(k) then SkuText(c)
    else if IndexOf(names, "DATA") == Some(k) then ToDate(c)
    else c
  }

  /** A cell of column `k` after the file-specific remaps. */
  function RuleCell(names: seq<string>, k: nat, rule: Rule, c: Cell): Cell {
    match MappingAt(names, k, Targets(rule))
    case Some(mapping) => Remap(c, mapping)
    case None => c
  }

  /** `if name in df.columns: df[name] = df[name].replace(mapping)` */
  method RemapNamed(f: Frame, name: string, mapping: seq<(string, string)>) returns (g: Frame)
    requires Rectangular(f)
    ensures Rectangular(g) && g.names == f.names && |g.rows| == |f.rows|
    ensures forall i, k {:trigger g.rows[i][k]} :: 0 <= i < |f.rows| && 0 <= k < |f.names| ==>
              g.rows[i][k] == if IndexOf(f.names, name) == Some(k) then Remap(f.rows[i][k], mapping) else f.rows[i][k]
  {
    g := f;
    var j := IndexOf(f.names, name);
    if j.Some? {
      g := MapColumn(f, j.value, c => Remap(c, mapping));
    }
  }

  /** The common part: `SKU` as text, `DATA` parsed as `%d/%m/%Y`. */
  method NormalizeCommon(f: Frame) returns (g: Frame)
    requires Rectangular(f)
    ensures Rectangular(g) && g.names == f.names && |g.rows| == |f.rows|
    ensures forall i, k {:trigger g.rows[i][k]} :: 0 <= i < |f.rows| && 0 <= k < |f.names| ==>
              g.rows[i][k] == CommonCell(f.names, k, f.rows[i][k])
  {
    g := f;
    var sku := IndexOf(g.names, "SKU");
    if sku.Some? {
      g := MapColumn(g, sku.value, SkuText);
    }
    var date := IndexOf(g.names, "DATA");
    if date.Some? {
      g := MapColumn(g, date.value, ToDate);
    }
  }

  /** The `if`/`elif` chain on the file name. */
  method ApplyRule(f: Frame, fileName: string) returns (g: Frame)
    requires Rectangular(f)
    ensures Rectangular(g) && g.names == f.names && |g.rows| == |f.rows|
    ensures forall i, k {:trigger g.rows[i][k]} :: 0 <= i < |f.rows| && 0 <= k < |f.names| ==>
              g.rows[i][k] == RuleCell(f.names, k, RuleFor(fileName), f.rows[i][k])
  {
    g := f;
    var name := Lower(fileName);
    if Contains(name, "ajustes_estoque_2025") {
      g := RemapNamed(g, "TIPO_AJUSTE", AdjustmentTypes);
    } else if Contains(name, "devolucao") {
      g := RemapNamed(g, "TIPOMOVIMENTACAO", MovementTypes);
    } else if Contains(name, "cancelamento") {
      var h := RemapNamed(g, "ATIVO_CANCELADO", CancelFlags);
      g := RemapNamed(h, "CONFIRMADO_CANCELADO", CancelFlags);
      forall i, k | 0 <= i < |f.rows| && 0 <= k < |f.names|
        ensures g.rows[i][k] == RuleCell(f.names, k, Cancellations, f.rows[i][k])
      {
        CancellationColumns(f.names, k);
        assert h.rows[i][k] == if IndexOf(f.names, "ATIVO_CANCELADO") == Some(k) then Remap(f.rows[i][k], CancelFlags) else f.rows[i][k];
      }
    }
  }

  /** The two flag columns of a cancellation file are distinct columns. */
  lemma CancellationColumns(names: seq<string>, k: nat)
    ensures MappingAt(names, k, Targets(Cancellations)) ==
            if IndexOf(names, "ATIVO_CANCELADO") == Some(k) || IndexOf(names, "CONFIRMADO_CANCELADO") == Some(k)
            then Some(CancelFlags) else None
    ensures !(IndexOf(names, "ATIVO_CANCELADO") == Some(k) && IndexOf(names, "CONFIRMADO_CANCELADO") == Some(k))
  {
    var targets := Targets(Cancellations);
    assert targets[1..] == [("CONFIRMADO_CANCELADO", CancelFlags)];
    assert targets[1..][1..] == [];
    assert "ATIVO_CANCELADO" != "CONFIRMADO_CANCELADO" by {
      assert "ATIVO_CANCELADO"[0] != "CONFIRMADO_CANCELADO"[0];
    }
  }

  /** `normalizar_dataframe(df, nome_arquivo)`: the common conversions, then
      the file's rule. */
  method NormalizeImport(f: Frame, fileName: string) returns (g: Frame)
    requires Rectangular(f)
    ensures Rectangular(g) && g.names == f.names && |g.rows| == |f.rows|
    ensures forall i, k {:trigger g.rows[i][k]} :: 0 <= i < |f.rows| && 0 <= k < |f.names| ==>
              g.rows[i][k] == RuleCell(f.names, k, RuleFor(fileName), CommonCell(f.names, k, f.rows[i][k]))
  {
    g := NormalizeCommon(f);
    g := ApplyRule(g, fileName);
  }

  // ---------------------------------------------------------------------
  // Properties
  // ---------------------------------------------------------------------

  /** No rule remaps the `SKU` or `DATA` column, so the two stages touch
      different columns. */
  lemma StagesDisjoint(names: seq<string>, k: nat, rule: Rule, c: Cell)
    requires MappingAt(names, k, Targets(rule)).Some?
    ensures CommonCell(names, k, c) == c
  {
    var t :| 0 <= t < |Targets(rule)| && IndexOf(names, Targets(rule)[t].0) == Some(k);
    var target := Targets(rule)[t].0;
    assert target[|target| - 1] == 'O' || target[|target| - 1] == 'E';
    assert names[k] == target;
  }

  /** A rule whose target columns are all absent changes nothing. */
  lemma AbsentTargetsUnchanged(names: seq<string>, k: nat, rule: Rule, c: Cell)
    requires forall t :: 0 <= t < |Targets(rule)| ==> Targets(rule)[t].0 !in names
    ensures RuleCell(names, k, rule, c) == c
  {
    var targets := Targets(rule);
    forall t | 0 <= t < |targets| ensures IndexOf(names, targets[t].0) != Some(k) {
      assert IndexOf(names, targets[t].0).None?;
    }
  }

  /** Exactly one rule applies: a file name that names returns (or stock
      adjustments) keeps its cancellation flags as they are, even when it
      also contains "cancelamento". */
  lemma OnlyCancellationsRemapFlags(names: seq<string>, k: nat, fileName: string, c: Cell)
    requires k < |names| && (names[k] == "ATIVO_CANCELADO" || names[k] == "CONFIRMADO_CANCELADO")
    requires !Contains(Lower(fileName), "cancelamento") || Contains(Lower(fileName), "devolucao") ||
             Contains(Lower(fileName), "ajustes_estoque_2025")
    ensures RuleCell(names, k, RuleFor(fileName), c) == c
  {
    var rule := RuleFor(fileName);
    assert rule != Cancellations;
    var m := MappingAt(names, k, Targets(rule));
    if m.Some? {
      assert false;
    }
  }

  /** `DATA` written as zero-padded `DD/MM/YYYY` becomes that date; text
      that `strptime` rejects becomes NaT. */
  lemma DateColumnParsed(names: seq<string>, k: nat, d: Calendar.Date, text: string)
    requires IndexOf(names, "DATA") == Some(k) && Calendar.ValidDate(d)
    requires Calendar.ParseDayMonthYear(text).None?
    ensures CommonCell(names, k, Str(Calendar.FormatDayMonthYear(d))) == Stamp(d)
    ensures CommonCell(names, k, Str(text)) == Null
  {
    assert IndexOf(names, "SKU") != Some(k) by {
      assert names[k] == "DATA";
      assert "DATA"[0] != "SKU"[0];
    }
    Calendar.DayMonthYearRoundTrip(d);
  }

  /** The remapped values are not keys, so every mapping is idempotent. */
  lemma RemapIdempotent(c: Cell, rule: Rule, t: nat)
    requires t < |Targets(rule)|
    ensures Remap(Remap(c, Targets(rule)[t].1), Targets(rule)[t].1) == Remap(c, Targets(rule)[t].1)
  {
    var mapping := Targets(rule)[t].1;
    var r := Remap(c, mapping);
    if r != c {
      var u :| 0 <= u < |mapping| && mapping[u].0 == c.s && r == Str(mapping[u].1);
      forall v | 0 <= v < |mapping| ensures mapping[v].0 != r.s {
        assert |mapping[v].0| != |r.s| || mapping[v].0[2] != r.s[2] || mapping[v].0[18] != r.s[18];
      }
    }
  }

  /** Normalising a frame a second time changes nothing. */
  lemma ImportIdempotent(names: seq<string>, k: nat, rule: Rule, c: Cell)
    ensures var once := RuleCell(names, k, rule, CommonCell(names, k, c));
      RuleCell(names, k, rule, CommonCell(names, k, once)) == once
  {
    var m := MappingAt(names, k, Targets(rule));
    if m.Some? {
      StagesDisjoint(names, k, rule, c);
      var once := Remap(c, m.value);
      StagesDisjoint(names, k, rule, once);
      var t :| 0 <= t < |Targets(rule)| && IndexOf(names, Targets(rule)[t].0) == Some(k) && m.value == Targets(rule)[t].1;
      RemapIdempotent(c, rule, t);
    }
  }
}
