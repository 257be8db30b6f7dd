/** The data agent's own tools: the Markdown rendering of a query result,
    the guard in front of the session's SQL table and the per-session memo
    of agents. */
module DataAgent {
  import opened Text

  // ---------------------------------------------------------------------
  // Markdown tables
  // ---------------------------------------------------------------------

  /** A value of a query result: `str(val)`, or a null (`pd.notna` false). */
  datatype Cell = Null | Val(text: string)

  /** A query result: the column names as `str(col)` and its rows. */
  datatype Frame = Frame(columns: seq<string>, rows: seq<seq<Cell>>)

  /** Every row has one value per column, as in any `DataFrame`. */
  predicate Rectangular(f: Frame) {
    forall i :: 0 <= i < |f.rows| ==> |f.rows[i]| == |f.columns|
  }

  /** `df.empty`: no rows or no columns. */
  predicate IsEmpty(f: Frame) {
    |f.rows| == 0 || |f.columns| == 0
  }

  const NoData := "**Nenhum dado encontrado**"

  /** What a value shows: its text, or `N/D` for a null. */
  function Shown(c: Cell): (s: string)
    ensures c.Val? ==> s == c.text
  {
    if c.Null? then "N/D" else c.text
  }

  function ShownRow(row: seq<Cell>): (r: seq<string>)
    ensures |r| == |row| && forall j :: 0 <= j < |row| ==> r[j] == Shown(row[j])
  {
    seq(|row|, j requires 0 <= j < |row| => Shown(row[j]))
  }

  /** `"| " + " | ".join(cells) + " |"` */
  function LineText(cells: seq<string>): string {
    "| " + Join(cells, " | ") + " |"
  }

  function Dashes(n: nat): (r: seq<string>)
    ensures |r| == n && forall j :: 0 <= j < n ==> r[j] == "---"
  {
    seq(n, _ => "---")
  }

  /** The lines of a non-empty result: header, separator, one per row. */
  function TableLines(f: Frame): (ls: seq<string>)
    ensures |ls| == |f.rows| + 2
  {
    [LineText(f.columns), LineText(Dashes(|f.columns|))] +
    seq(|f.rows|, i requires 0 <= i < |f.rows| => LineText(ShownRow(f.rows[i])))
  }

  /** Lines, each followed by `"\n"`. */
  function Terminated(ls: seq<string>): string
    decreases |ls|
  {
    if |ls| == 0 then "" else ls[0] + "\n" + Terminated(ls[1..])
  }

  lemma {:induction false} TerminatedSnoc(ls: seq<string>, l: string)
    ensures Terminated(ls + [l]) == Terminated(ls) + l + "\n"
    decreases |ls|
  {
    if |ls| == 0 {
      assert [l][1..] == [];
    } else {
      assert (ls + [l])[1..] == ls[1..] + [l];
      TerminatedSnoc(ls[1..], l);
    }
  }

  /** `format_table_markdown(df)` */
  function Markdown(f: Frame): string {
    if IsEmpty(f) then NoData else Terminated(TableLines(f))
  }

  /** `format_table_markdown`: the header, the separator, then one line per
      row appended in a loop. */
  method FormatTableMarkdown(f: Frame) returns (markdown: string)
    ensures markdown == Markdown(f)
  {
    if |f.rows| == 0 || |f.columns| == 0 {
      return NoData;
    }
    ghost var ls := TableLines(f);
    markdown := LineText(f.columns) + "\n";
    markdown := markdown + LineText(Dashes(|f.columns|)) + "\n";
    assert ls[..2] == [] + [ls[0]] + [ls[1]];
    TerminatedSnoc([], ls[0]);
    TerminatedSnoc([ls[0]], ls[1]);
    var i := 0;
    while i < |f.rows|
      invariant 0 <= i <= |f.rows|
      invariant markdown == Terminated(ls[..i + 2])
    {
      var line := LineText(ShownRow(f.rows[i]));
      assert ls[..i + 3] == ls[..i + 2] + [line];
      TerminatedSnoc(ls[..i + 2], line);
      markdown := markdown + line + "\n";
      i := i + 1;
    }
    assert ls[..i + 2] == ls;
  }

  /** A text fit for a cell of a line: no line break, no pipe. */
  predicate Plain(s: string) {
    '\n' !in s && '|' !in s
  }

  /** No line built from plain cells holds a line break. */
  lemma {:induction false} JoinLacks(cells: seq<string>, sep: string, c: char)
    requires c !in sep && forall j :: 0 <= j < |cells| ==> c !in cells[j]
    ensures c !in Join(cells, sep)
    decreases |cells|
  {
    if |cells| > 1 {
      JoinLacks(cells[1..], sep, c);
    }
  }

  /** Splitting terminated lines at `"\n"` gives the lines back and one
      empty text after the last. */
  lemma {:induction false} SplitTerminated(ls: seq<string>)
    requires forall k :: 0 <= k < |ls| ==> '\n' !in ls[k]
    ensures Split(Terminated(ls), "\n") == ls + [""]
    decreases |ls|
  {
    if |ls| == 0 {
      FindContains("", "\n");
    } else {
      SplitTerminated(ls[1..]);
      SplitFirstPiece(ls[0], '\n', Terminated(ls[1..]));
      assert ls == [ls[0]] + ls[1..];
    }
  }

  /** The result of a non-empty query comes out as `rows + 2` lines, the
      header, the separator and one per row, and nothing after the last
      line break. */
  lemma MarkdownLines(f: Frame)
    requires !IsEmpty(f)
    requires forall j :: 0 <= j < |f.columns| ==> Plain(f.columns[j])
    requires forall i, j :: 0 <= i < |f.rows| && 0 <= j < |f.rows[i]| ==> Plain(Shown(f.rows[i][j]))
    ensures Split(Markdown(f), "\n") == TableLines(f) + [""]
    ensures |Split(Markdown(f), "\n")| == |f.rows| + 3
  {
    var ls := TableLines(f);
    JoinLacks(f.columns, " | ", '\n');
    JoinLacks(Dashes(|f.columns|), " | ", '\n');
    forall k | 2 <= k < |ls| ensures '\n' !in ls[k] {
      assert ls[k] == LineText(ShownRow(f.rows[k - 2]));
      JoinLacks(ShownRow(f.rows[k - 2]), " | ", '\n');
    }
    SplitTerminated(ls);
  }

  /** `cell` with the spaces that surround it in a line. */
  function Padded(cells: seq<string>): (r: seq<string>)
    ensures |r| == |cells| && forall j :: 0 <= j < |cells| ==> r[j] == " " + cells[j] + " "
  {
    seq(|cells|, j requires 0 <= j < |cells| => " " + cells[j] + " ")
  }

  /** Splitting a line at `|` gives an empty text, each cell with its
      surrounding spaces, and an empty text: one piece per column between
      the outer pipes. */
  lemma LineCells(cells: seq<string>)
    requires |cells| > 0 && forall j :: 0 <= j < |cells| ==> '|' !in cells[j]
    ensures Split(LineText(cells), "|") == [""] + Padded(cells) + [""]
  {
    var inner := " " + Join(cells, " | ") + " |";
    assert LineText(cells) == "" + ['|'] + inner;
    SplitFirstPiece("", '|', inner);
    InnerCells(cells);
  }

  lemma {:induction false} InnerCells(cells: seq<string>)
    requires |cells| > 0 && forall j :: 0 <= j < |cells| ==> '|' !in cells[j]
    ensures Split(" " + Join(cells, " | ") + " |", "|") == Padded(cells) + [""]
    decreases |cells|
  {
    var first := " " + cells[0] + " ";
    if |cells| == 1 {
      assert " " + Join(cells, " | ") + " |" == first + ['|'] + "";
      SplitFirstPiece(first, '|', "");
      FindContains("", "|");
    } else {
      var rest := " " + Join(cells[1..], " | ") + " |";
      InnerCells(cells[1..]);
      JoinedCells(cells);
      SplitFirstPiece(first, '|', rest);
      PaddedCells(cells);
    }
  }

  lemma JoinedCells(cells: seq<string>)
    requires |cells| > 1
    ensures " " + Join(cells, " | ") + " |" == (" " + cells[0] + " ") + ['|'] + (" " + Join(cells[1..], " | ") + " |")
  {
  }

  lemma PaddedCells(cells: seq<string>)
    requires |cells| > 0
    ensures Padded(cells) == [" " + cells[0] + " "] + Padded(cells[1..])
  {
  }

  // ---------------------------------------------------------------------
  // The SQL tool
  // ---------------------------------------------------------------------

  /** What running a query on the session's database gives. */
  datatype Outcome = Failed(error: string) | Rows(frame: Frame)

  const OnlySelect := "**Erro: Apenas queries SELECT são permitidas**"

  /** `query.strip().upper().startswith("SELECT")` */
  predicate IsSelect(query: string) {
    StartsWith(Upper(Strip(query)), "SELECT")
  }

  /** `ds_{session_id}_clean` */
  function SessionTable(sessionId: string): string {
    "ds_" + sessionId + "_clean"
  }

  /** The query with every `ds_clean` pointing at the session's table. */
  function SessionQuery(query: string, sessionId: string): string {
    Replace(query, "ds_clean", SessionTable(sessionId))
  }

  /** `execute_duckdb_query`: `tables` are the rows of `SHOW TABLES` as
      text, and `run` is what executing a query text gives. */
  function ExecuteQuery(query: string, sessionId: string, tables: seq<string>, run: string -> Outcome): string {
    if !IsSelect(query) then OnlySelect
    else
      var table := SessionTable(sessionId);
      if !(exists k :: 0 <= k < |tables| && Contains(tables[k], table)) then
        "**Tabela " + table + " não encontrada para esta sessão**"
      else
        match run(SessionQuery(query, sessionId))
        case Failed(e) => "**Erro na execução da query: " + e + "**"
        case Rows(f) => if IsEmpty(f) then "**Nenhum resultado encontrado**" else Markdown(f)
  }

  /** A query that is not a `SELECT` is refused whatever the database holds
      and is never run. */
  lemma RefusedBeforeDatabase(query: string, sessionId: string, tables: seq<string>, run: string -> Outcome,
                              tables': seq<string>, run': string -> Outcome)
    requires !IsSelect(query)
    ensures ExecuteQuery(query, sessionId, tables, run) == OnlySelect
    ensures ExecuteQuery(query, sessionId, tables, run) == ExecuteQuery(query, sessionId, tables', run')
  {
  }

  /** Without the session's table the query is not run. */
  lemma MissingTableNotRun(query: string, sessionId: string, tables: seq<string>, run: string -> Outcome,
                           run': string -> Outcome)
    requires IsSelect(query)
    requires forall k :: 0 <= k < |tables| ==> !Contains(tables[k], SessionTable(sessionId))
    ensures ExecuteQuery(query, sessionId, tables, run) == ExecuteQuery(query, sessionId, tables, run')
    ensures ExecuteQuery(query, sessionId, tables, run) != OnlySelect
  {
  }

  /** What is run is the query with the session's table in place of the
      generic name; a query without the generic name runs as written. */
  lemma RunsSessionQuery(query: string, sessionId: string, tables: seq<string>, run: string -> Outcome)
    requires IsSelect(query)
    requires exists k :: 0 <= k < |tables| && Contains(tables[k], SessionTable(sessionId))
    requires !Contains(query, "ds_clean")
    ensures run(query).Rows? && !IsEmpty(run(query).frame) ==>
              ExecuteQuery(query, sessionId, tables, run) == Markdown(run(query).frame)
  {
    ReplaceAbsent(query, "ds_clean", SessionTable(sessionId));
  }

  lemma {:induction false} UpperAppend(a: string, b: string)
    ensures Upper(a + b) == Upper(a) + Upper(b)
    decreases |a|
  {
    if |a| > 0 {
      assert (a + b)[1..] == a[1..] + b;
      UpperAppend(a[1..], b);
    } else {
      assert a + b == b;
    }
  }

  /** A text that neither starts nor ends with a space is its own strip. */
  lemma StripBare(s: string)
    requires s != [] && !IsSpace(s[0]) && !IsSpace(s[|s| - 1])
    ensures Strip(s) == s
  {
    assert TrimLeft(s, IsSpace) == s;
  }

  /** Leading spaces do not reach the guard. */
  lemma {:induction false} StripLeading(spaces: string, s: string)
    requires forall i :: 0 <= i < |spaces| ==> IsSpace(spaces[i])
    ensures Strip(spaces + s) == Strip(s)
    decreases |spaces|
  {
    if |spaces| > 0 {
      assert (spaces + s)[1..] == spaces[1..] + s;
      StripLeading(spaces[1..], s);
    } else {
      assert spaces + s == s;
    }
  }

  /** An ASCII letter in upper case. */
  function AsciiUpper(c: char): char {
    if 'a' <= c <= 'z' then (c as int - 32) as char else c
  }

  /** On ASCII letters `upper()` works character by character. */
  lemma {:induction false} UpperLetters(s: string)
    requires forall i :: 0 <= i < |s| ==> IsAsciiLetter(s[i])
    ensures |Upper(s)| == |s| && forall i :: 0 <= i < |s| ==> Upper(s)[i] == AsciiUpper(s[i])
    decreases |s|
  {
    if s != [] {
      UpperLetters(s[1..]);
      assert UpperChar(s[0]) == [AsciiUpper(s[0])];
    }
  }

  /** Example: the lower-case keyword upper-cases to `SELECT`. */
  lemma UpperSelectLower()
    ensures Upper("select") == "SELECT"
  {
    UpperLetters("select");
  }

  /** Example: so does any mixed casing of it. */
  lemma UpperSelectMixed()
    ensures Upper("SeLeCt") == "SELECT"
  {
    UpperLetters("SeLeCt");
  }

  /** A query whose stripped text begins with some casing of `select`
      passes the guard. */
  lemma GuardOnStripped(query: string, p: string, rest: string)
    requires Strip(query) == p + rest && Upper(p) == "SELECT"
    ensures IsSelect(query)
  {
    UpperAppend(p, rest);
    assert ("SELECT" + Upper(rest))[..6] == "SELECT";
  }

  /** The guard ignores case: `select ...` passes. */
  lemma LowercaseSelect(rest: string)
    requires rest == [] || !IsSpace(rest[|rest| - 1])
    ensures IsSelect("select" + rest)
  {
    UpperSelectLower();
    var a := "select" + rest;
    assert a[|a| - 1] == if rest == [] then 't' else rest[|rest| - 1];
    StripBare(a);
    GuardOnStripped(a, "select", rest);
  }

  /** Leading spaces never change the guard's answer. */
  lemma GuardIgnoresIndent(spaces: string, query: string)
    requires forall i :: 0 <= i < |spaces| ==> IsSpace(spaces[i])
    ensures IsSelect(spaces + query) == IsSelect(query)
  {
    StripLeading(spaces, query);
  }

  /** The guard ignores mixed case and indentation: `  SeLeCt ...`
      passes. */
  lemma IndentedSelect(spaces: string, rest: string)
    requires forall i :: 0 <= i < |spaces| ==> IsSpace(spaces[i])
    requires rest == [] || !IsSpace(rest[|rest| - 1])
    ensures IsSelect(spaces + ("SeLeCt" + rest))
  {
    UpperSelectMixed();
    var c := "SeLeCt" + rest;
    assert c[|c| - 1] == if rest == [] then 't' else rest[|rest| - 1];
    StripBare(c);
    GuardOnStripped(c, "SeLeCt", rest);
    GuardIgnoresIndent(spaces, c);
  }

  /** A query that begins with another statement is refused. */
  lemma DeleteRefused(rest: string)
    ensures !IsSelect("DELETE" + rest)
  {
    var q := "DELETE" + rest;
    assert TrimLeft(q, IsSpace) == q;
    assert Strip(q)[0] == 'D';
    assert Upper(Strip(q))[0] == 'D';
  }

  // ---------------------------------------------------------------------
  // Session memory
  // ---------------------------------------------------------------------

  /** The module-level `session_memory` dict: one agent per session id.
      Agents are foreign objects, so their type is left open. */
  class SessionMemory<Agent> {
    var agents: map<string, Agent>

    constructor ()
      ensures agents == map[]
    {
      agents := map[];
    }

    /** `get_data_agent(session_id)`: the stored agent of a known session;
        otherwise `created`, the agent built for it, which is stored. */
    method GetDataAgent(sessionId: string, created: Agent) returns (agent: Agent)
      modifies this
      ensures sessionId in old(agents) ==> agent == old(agents)[sessionId] && agents == old(agents)
      ensures sessionId !in old(agents) ==> agent == created && agents == old(agents)[sessionId := created]
      ensures (agent, agents) == Lookup(old(agents), sessionId, created)
    {
      if sessionId in agents {
        return agents[sessionId];
      }
      agent := created;
      agents := agents[sessionId := agent];
    }

    /** `clear_session_memory(session_id)` */
    method ClearSession(sessionId: string)
      modifies this
      ensures agents == old(agents) - {sessionId}
    {
      if sessionId in agents {
        agents := agents - {sessionId};
      }
    }

    /** `clear_all_memory()` */
    method ClearAll()
      modifies this
      ensures agents == map[]
    {
      agents := map[];
    }
  }

  /** What `get_data_agent` answers and leaves behind. */
  function Lookup<Agent>(m: map<string, Agent>, sessionId: string, created: Agent): (r: (Agent, map<string, Agent>))
    ensures sessionId in r.1 && r.1[sessionId] == r.0
    ensures r.1.Keys == m.Keys + {sessionId}
    ensures forall s :: s in m ==> r.1[s] == m[s]
  {
    if sessionId in m then (m[sessionId], m) else (created, m[sessionId := created])
  }

  /** Asking twice for the same session gives the same agent, however the
      second one would have been built, and stores nothing more. */
  lemma LookupStable<Agent>(m: map<string, Agent>, sessionId: string, created: Agent, other: Agent)
    ensures var (a, m') := Lookup(m, sessionId, created);
      Lookup(m', sessionId, other) == (a, m')
  {
  }

  /** Clearing one session forgets only that session; a later request for
      it gets a fresh agent. */
  lemma ClearForgetsOnly<Agent>(m: map<string, Agent>, sessionId: string, created: Agent)
    ensures forall s :: s in m && s != sessionId ==> s in m - {sessionId} && (m - {sessionId})[s] == m[s]
    ensures Lookup(m - {sessionId}, sessionId, created).0 == created
  {
  }
}
