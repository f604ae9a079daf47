/** The Markdown transition matrix (statum-core/src/introspection/stable_metadata.rs). */
module Matrix {
  import opened Common
  import opened StableMetadata

  type Cell = seq<StableTransition>

  // ---- Escaping ----

  function EscapeChar(c: char): string {
    match c
    case '\\' => "\\\\"
    case '|' => "\\|"
    case '\n' => " "
    case '\r' => " "
    case _ => [c]
  }

  function Escape(value: string): string {
    if value == "" then "" else Escape(value[..|value| - 1]) + EscapeChar(value[|value| - 1])
  }

  method EscapeMarkdownTableCell(value: string) returns (escaped: string)
    ensures escaped == Escape(value)
  {
    escaped := "";
    for i := 0 to |value|
      invariant escaped == Escape(value[..i])
    {
      assert value[..i + 1][..i] == value[..i];
      escaped := escaped + EscapeChar(value[i]);
    }
    assert value[..|value|] == value;
  }

  /** Number of pipes not preceded by an open backslash escape. */
  function UnescapedPipes(s: string, escaped: bool): nat {
    if s == "" then 0
    else if escaped then UnescapedPipes(s[1..], false)
    else if s[0] == '\\' then UnescapedPipes(s[1..], true)
    else (if s[0] == '|' then 1 else 0) + UnescapedPipes(s[1..], false)
  }

  /** Whether an escape is still open after `s`. */
  function OpenAfter(s: string, escaped: bool): bool {
    if s == "" then escaped else OpenAfter(s[1..], !escaped && s[0] == '\\')
  }

  lemma {:induction false} PipesConcat(a: string, b: string, escaped: bool)
    ensures UnescapedPipes(a + b, escaped) == UnescapedPipes(a, escaped) + UnescapedPipes(b, OpenAfter(a, escaped))
    ensures OpenAfter(a + b, escaped) == OpenAfter(b, OpenAfter(a, escaped))
    decreases |a|
  {
    if a == "" {
      assert a + b == b;
    } else {
      assert (a + b)[1..] == a[1..] + b;
      PipesConcat(a[1..], b, !escaped && a[0] == '\\');
    }
  }

  /** A fragment that adds `n` unescaped pipes, no line break, and leaves no escape open. */
  ghost predicate Fragment(s: string, n: nat) {
    UnescapedPipes(s, false) == n && !OpenAfter(s, false) && '\n' !in s
  }

  lemma FragmentConcat(a: string, m: nat, b: string, n: nat)
    requires Fragment(a, m) && Fragment(b, n)
    ensures Fragment(a + b, m + n)
  {
    PipesConcat(a, b, false);
  }

  lemma Bar()
    ensures Fragment("|", 1)
  {
    assert "|"[1..] == "";
  }

  lemma Space()
    ensures Fragment(" ", 0)
  {
    FragmentPlain(" ");
  }

  lemma BarLiterals()
    ensures Fragment(" |", 1) && Fragment("| ", 1)
  {
    Bar();
    Space();
    FragmentConcat(" ", 0, "|", 1);
    FragmentConcat("|", 1, " ", 0);
  }

  lemma CornerLiteral()
    ensures Fragment("from \\ to", 0)
  {
    FragmentPlain("from ");
    FragmentPlain("to");
    assert Fragment("\\ ", 0) by { assert "\\ "[1..] == " " && " "[1..] == ""; }
    FragmentConcat("from ", 0, "\\ ", 0);
    FragmentConcat("from " + "\\ ", 0, "to", 0);
    assert "from " + "\\ " + "to" == "from \\ to";
  }

  lemma FragmentChars(s: string)
    requires |s| == 1 && s[0] != '\\' && s[0] != '|' && s[0] != '\n'
    ensures Fragment(s, 0)
  {
    assert s[1..] == "";
  }

  lemma {:induction false} FragmentPlain(s: string)
    requires forall c :: c in s ==> c != '\\' && c != '|' && c != '\n'
    ensures Fragment(s, 0)
  {
    if s == "" {
    } else {
      assert s[0] in s;
      forall c | c in s[1..] ensures c in s { }
      FragmentPlain(s[1..]);
    }
  }

  /** Whatever a label contains, its escaped form opens no cell and breaks no line. */
  lemma {:induction false} EscapeIsNeutral(value: string)
    ensures Fragment(Escape(value), 0)
  {
    if value == "" {
    } else {
      var c := value[|value| - 1];
      EscapeIsNeutral(value[..|value| - 1]);
      assert Fragment(EscapeChar(c), 0) by {
        if c == '\\' {
          assert "\\\\"[1..] == "\\" && "\\"[1..] == "";
        } else if c == '|' {
          assert "\\|"[1..] == "|" && "|"[1..] == "";
        } else if c == '\n' || c == '\r' {
          FragmentChars(" ");
        } else {
          FragmentChars([c]);
        }
      }
      FragmentConcat(Escape(value[..|value| - 1]), 0, EscapeChar(c), 0);
    }
  }

  // ---- Cells ----

  predicate Hits(states: seq<StableState>, t: StableTransition, k: nat, i: nat, j: nat)
    requires k < |t.toStates|
  {
    StateIndex(states, t.fromState) == Some(i) && StateIndex(states, t.toStates[k]) == Some(j)
  }

  /** What the first `n` targets of `t` put into cell (i, j): one entry per occurrence. */
  function TargetEntries(states: seq<StableState>, t: StableTransition, n: nat, i: nat, j: nat): Cell
    requires n <= |t.toStates|
  {
    if n == 0 then []
    else TargetEntries(states, t, n - 1, i, j) + if Hits(states, t, n - 1, i, j) then [t] else []
  }

  function CellEntries(states: seq<StableState>, ts: seq<StableTransition>, i: nat, j: nat): Cell {
    if ts == [] then []
    else
      var t := ts[|ts| - 1];
      CellEntries(states, ts[..|ts| - 1], i, j) + TargetEntries(states, t, |t.toStates|, i, j)
  }

  ghost predicate Square(cells: seq<seq<Cell>>, n: nat) {
    |cells| == n && forall i :: 0 <= i < n ==> |cells[i]| == n
  }

  /** Every cell holds what it held before and what the first `n` targets of `t` put into it. */
  ghost predicate Filled(states: seq<StableState>, before: seq<seq<Cell>>, t: StableTransition, n: nat, cells: seq<seq<Cell>>)
    requires Square(before, |states|) && n <= |t.toStates|
  {
    && Square(cells, |states|)
    && forall i, j :: 0 <= i < |states| && 0 <= j < |states| ==>
                        cells[i][j] == before[i][j] + TargetEntries(states, t, n, i, j)
  }

  /** Every cell holds the entries of the first `n` transitions. */
  ghost predicate Collected(m: StableGraphMetadata, n: nat, cells: seq<seq<Cell>>)
    requires n <= |m.transitions|
  {
    && Square(cells, |m.states|)
    && forall i, j :: 0 <= i < |m.states| && 0 <= j < |m.states| ==>
                        cells[i][j] == CellEntries(m.states, m.transitions[..n], i, j)
  }

  method BuildCells(m: StableGraphMetadata) returns (cells: seq<seq<Cell>>)
    ensures Square(cells, |m.states|)
    ensures forall i, j :: 0 <= i < |m.states| && 0 <= j < |m.states| ==>
                             cells[i][j] == CellEntries(m.states, m.transitions, i, j)
  {
    var n := |m.states|;
    cells := seq(n, i => seq(n, j => []));
    for a := 0 to |m.transitions|
      invariant Collected(m, a, cells)
    {
      ghost var before := cells;
      cells := FillTargets(m.states, m.transitions[a], cells);
      CollectedNext(m, a, before, cells);
    }
    assert m.transitions[..|m.transitions|] == m.transitions;
  }

  /** The inner loop: one transition into the cells of its source row. */
  method FillTargets(states: seq<StableState>, t: StableTransition, before: seq<seq<Cell>>) returns (cells: seq<seq<Cell>>)
    requires Square(before, |states|)
    ensures Filled(states, before, t, |t.toStates|, cells)
  {
    cells := before;
    match StateIndex(states, t.fromState) {
      case None =>
        forall i, j { NoEntries(states, t, |t.toStates|, i, j); }
      case Some(from) =>
        for b := 0 to |t.toStates|
          invariant Filled(states, before, t, b, cells)
        {
          match StateIndex(states, t.toStates[b]) {
            case None =>
            case Some(to) => cells := cells[from := cells[from][to := cells[from][to] + [t]]];
          }
        }
    }
  }

  lemma CollectedNext(m: StableGraphMetadata, n: nat, before: seq<seq<Cell>>, after: seq<seq<Cell>>)
    requires n < |m.transitions| && Collected(m, n, before)
    requires var t := m.transitions[n]; Filled(m.states, before, t, |t.toStates|, after)
    ensures Collected(m, n + 1, after)
  {
    assert m.transitions[..n + 1][..n] == m.transitions[..n];
  }

  lemma {:induction false} NoEntries(states: seq<StableState>, t: StableTransition, n: nat, i: nat, j: nat)
    requires n <= |t.toStates|
    ensures StateIndex(states, t.fromState).None? ==> TargetEntries(states, t, n, i, j) == []
  {
    if n == 0 {
    } else {
      NoEntries(states, t, n - 1, i, j);
    }
  }

  lemma {:induction false} TargetEntriesEmpty(states: seq<StableState>, t: StableTransition, n: nat, i: nat, j: nat)
    requires n <= |t.toStates|
    ensures TargetEntries(states, t, n, i, j) == [] <==> forall k :: 0 <= k < n ==> !Hits(states, t, k, i, j)
  {
    if n == 0 {
    } else {
      TargetEntriesEmpty(states, t, n - 1, i, j);
    }
  }

  ghost predicate Joins(states: seq<StableState>, t: StableTransition, i: nat, j: nat) {
    exists k :: 0 <= k < |t.toStates| && Hits(states, t, k, i, j)
  }

  /** A cell has no entry exactly when no transition joins the two states. */
  lemma {:induction false} EmptyCellMeansNoTransition(states: seq<StableState>, ts: seq<StableTransition>, i: nat, j: nat)
    ensures CellEntries(states, ts, i, j) == [] <==> forall t :: t in ts ==> !Joins(states, t, i, j)
  {
    if ts == [] {
    } else {
      var t := ts[|ts| - 1];
      EmptyCellMeansNoTransition(states, ts[..|ts| - 1], i, j);
      TargetEntriesEmpty(states, t, |t.toStates|, i, j);
      assert Joins(states, t, i, j) <==> TargetEntries(states, t, |t.toStates|, i, j) != [];
      assert ts == ts[..|ts| - 1] + [t];
    }
  }

  // ---- Entries are conserved ----

  function Sum(n: nat, f: nat -> nat): nat {
    if n == 0 then 0 else Sum(n - 1, f) + f(n - 1)
  }

  lemma {:induction false} SumAdds(n: nat, f: nat -> nat, g: nat -> nat, h: nat -> nat)
    requires forall k: nat :: k < n ==> h(k) == f(k) + g(k)
    ensures Sum(n, h) == Sum(n, f) + Sum(n, g)
  {
    if n == 0 {
    } else {
      SumAdds(n - 1, f, g, h);
    }
  }

  lemma {:induction false} SumSingle(n: nat, at: nat, v: nat, f: nat -> nat)
    requires forall k: nat :: k < n ==> f(k) == if k == at then v else 0
    ensures Sum(n, f) == if at < n then v else 0
  {
    if n == 0 {
    } else {
      SumSingle(n - 1, at, v, f);
    }
  }

  lemma {:induction false} SumEqual(n: nat, f: nat -> nat, g: nat -> nat)
    requires forall k: nat :: k < n ==> f(k) == g(k)
    ensures Sum(n, f) == Sum(n, g)
  {
    if n == 0 {
    } else {
      SumEqual(n - 1, f, g);
    }
  }

  /** Number of (transition, target) occurrences among the first `n` targets with both ends declared. */
  function DeclaredTargets(states: seq<StableState>, t: StableTransition, n: nat): nat
    requires n <= |t.toStates|
  {
    if n == 0 then 0
    else DeclaredTargets(states, t, n - 1)
         + if StateIndex(states, t.fromState).Some? && StateIndex(states, t.toStates[n - 1]).Some? then 1 else 0
  }

  function DeclaredOccurrences(states: seq<StableState>, ts: seq<StableTransition>): nat {
    if ts == [] then 0
    else
      var t := ts[|ts| - 1];
      DeclaredOccurrences(states, ts[..|ts| - 1]) + DeclaredTargets(states, t, |t.toStates|)
  }

  function RowTotal(n: nat, i: nat, size: (nat, nat) -> nat): nat {
    Sum(n, j => size(i, j))
  }

  function GridTotal(n: nat, size: (nat, nat) -> nat): nat {
    Sum(n, i => RowTotal(n, i, size))
  }

  lemma GridAdds(n: nat, f: (nat, nat) -> nat, g: (nat, nat) -> nat, h: (nat, nat) -> nat)
    requires forall i: nat, j: nat :: h(i, j) == f(i, j) + g(i, j)
    ensures GridTotal(n, h) == GridTotal(n, f) + GridTotal(n, g)
  {
    forall i: nat | i < n ensures RowTotal(n, i, h) == RowTotal(n, i, f) + RowTotal(n, i, g) {
      SumAdds(n, j => f(i, j), j => g(i, j), j => h(i, j));
    }
    SumAdds(n, i => RowTotal(n, i, f), i => RowTotal(n, i, g), i => RowTotal(n, i, h));
  }

  lemma GridSingle(n: nat, a: nat, b: nat, f: (nat, nat) -> nat)
    requires a < n && b < n
    requires forall i: nat, j: nat :: f(i, j) == if i == a && j == b then 1 else 0
    ensures GridTotal(n, f) == 1
  {
    forall i: nat | i < n ensures RowTotal(n, i, f) == if i == a then 1 else 0 {
      SumSingle(n, b, if i == a then 1 else 0, j => f(i, j));
    }
    SumSingle(n, a, 1, i => RowTotal(n, i, f));
  }

  lemma GridZero(n: nat, f: (nat, nat) -> nat)
    requires forall i: nat, j: nat :: f(i, j) == 0
    ensures GridTotal(n, f) == 0
  {
    forall i: nat | i < n ensures RowTotal(n, i, f) == 0 {
      SumSingle(n, 0, 0, j => f(i, j));
    }
    SumSingle(n, 0, 0, i => RowTotal(n, i, f));
  }

  lemma {:induction false} TargetTotal(states: seq<StableState>, t: StableTransition, n: nat)
    requires n <= |t.toStates|
    ensures GridTotal(|states|, (i, j) => |TargetEntries(states, t, n, i, j)|) == DeclaredTargets(states, t, n)
  {
    if n == 0 {
      GridZero(|states|, (i, j) => |TargetEntries(states, t, n, i, j)|);
    } else {
      TargetTotal(states, t, n - 1);
      var hit: (nat, nat) -> nat := (i, j) => if Hits(states, t, n - 1, i, j) then 1 else 0;
      GridAdds(|states|, (i, j) => |TargetEntries(states, t, n - 1, i, j)|, hit, (i, j) => |TargetEntries(states, t, n, i, j)|);
      var from, to := StateIndex(states, t.fromState), StateIndex(states, t.toStates[n - 1]);
      if from.Some? && to.Some? {
        GridSingle(|states|, from.value, to.value, hit);
      } else {
        GridZero(|states|, hit);
      }
    }
  }

  /** The cells together hold exactly the occurrences whose two ends are declared. */
  lemma {:induction false} EntriesTotal(states: seq<StableState>, ts: seq<StableTransition>)
    ensures GridTotal(|states|, (i, j) => |CellEntries(states, ts, i, j)|) == DeclaredOccurrences(states, ts)
  {
    if ts == [] {
      GridZero(|states|, (i, j) => |CellEntries(states, ts, i, j)|);
    } else {
      var t, front := ts[|ts| - 1], ts[..|ts| - 1];
      EntriesTotal(states, front);
      TargetTotal(states, t, |t.toStates|);
      GridAdds(|states|, (i, j) => |CellEntries(states, front, i, j)|,
               (i, j) => |TargetEntries(states, t, |t.toStates|, i, j)|, (i, j) => |CellEntries(states, ts, i, j)|);
    }
  }

  // ---- Text ----

  function StateText(s: StableState): (r: string)
    ensures r == if s.labelText.Some? then s.labelText.value else s.rustName
  {
    match s.labelText case Some(text) => text case None => s.rustName
  }

  function TransitionText(t: StableTransition): (r: string)
    ensures r == if t.labelText.Some? then t.labelText.value else t.methodName
  {
    match t.labelText case Some(text) => text case None => t.methodName
  }

  function JoinLabels(cell: Cell): string {
    if cell == [] then ""
    else if |cell| == 1 then Escape(TransitionText(cell[0]))
    else JoinLabels(cell[..|cell| - 1]) + ", " + Escape(TransitionText(cell[|cell| - 1]))
  }

  function CellText(cell: Cell): string {
    if cell == [] then "forbidden" else JoinLabels(cell)
  }

  /** A table line made of its cells: a first one and the ones behind it. */
  function CellsLine(first: string, others: seq<string>): string {
    if others == [] then FirstCell(first) else WithCell(CellsLine(first, others[..|others| - 1]), others[|others| - 1])
  }

  function FirstCell(text: string): string {
    "| " + text + " |"
  }

  function WithCell(line: string, text: string): string {
    line + " " + text + " |"
  }

  function HeaderTexts(m: StableGraphMetadata): (r: seq<string>)
    ensures |r| == |m.states| && forall j :: 0 <= j < |r| ==> r[j] == Escape(StateText(m.states[j]))
  {
    seq(|m.states|, j requires 0 <= j < |m.states| => Escape(StateText(m.states[j])))
  }

  function DashTexts(n: nat): (r: seq<string>)
    ensures |r| == n && forall j :: 0 <= j < n ==> r[j] == "---"
  {
    seq(n, j => "---")
  }

  function RowTexts(m: StableGraphMetadata, i: nat): (r: seq<string>)
    ensures |r| == |m.states| && forall j :: 0 <= j < |r| ==> r[j] == CellText(CellEntries(m.states, m.transitions, i, j))
  {
    seq(|m.states|, j requires 0 <= j < |m.states| => CellText(CellEntries(m.states, m.transitions, i, j)))
  }

  /** Line `k` of the table: header, separator, then one row per state. */
  function TableLine(m: StableGraphMetadata, k: nat): string
    requires k < |m.states| + 2
  {
    if k == 0 then CellsLine("from \\ to", HeaderTexts(m))
    else if k == 1 then CellsLine("---", DashTexts(|m.states|))
    else CellsLine(Escape(StateText(m.states[k - 2])), RowTexts(m, k - 2))
  }

  function TableLines(m: StableGraphMetadata, rows: nat): (r: seq<string>)
    requires rows <= |m.states|
    ensures |r| == rows + 2
    ensures forall k :: 0 <= k < |r| ==> r[k] == TableLine(m, k)
  {
    seq(rows + 2, k requires 0 <= k < rows + 2 => TableLine(m, k))
  }

  function Unlines(lines: seq<string>): string {
    if lines == [] then "" else Unlines(lines[..|lines| - 1]) + lines[|lines| - 1] + "\n"
  }

  function MatrixText(m: StableGraphMetadata): string {
    Unlines(TableLines(m, |m.states|))
  }

  method CellLabels(cell: Cell) returns (labels: string)
    requires cell != []
    ensures labels == JoinLabels(cell)
  {
    labels := EscapeMarkdownTableCell(TransitionText(cell[0]));
    assert cell[..1] == [cell[0]];
    for k := 1 to |cell|
      invariant labels == JoinLabels(cell[..k])
    {
      var next := EscapeMarkdownTableCell(TransitionText(cell[k]));
      assert cell[..k + 1][..k] == cell[..k];
      labels := labels + ", " + next;
    }
    assert cell[..|cell|] == cell;
  }

  /** Appending the next cell of a line. */
  lemma CellsLineGrows(first: string, others: seq<string>, n: nat)
    requires n < |others|
    ensures CellsLine(first, others[..n + 1]) == WithCell(CellsLine(first, others[..n]), others[n])
  {
    assert others[..n + 1][..n] == others[..n];
  }

  lemma LineLiterals()
    ensures FirstCell("from \\ to") == "| from \\ to |" && FirstCell("---") == "| --- |"
    ensures forall line :: WithCell(line, "---") == line + " --- |"
  {
    forall line ensures WithCell(line, "---") == line + " --- |" {
      assert " " + "---" + " |" == " --- |";
      assert WithCell(line, "---") == line + (" " + "---" + " |");
    }
  }

  method HeaderLine(m: StableGraphMetadata) returns (line: string)
    ensures line == TableLine(m, 0)
  {
    ghost var texts := HeaderTexts(m);
    LineLiterals();
    line := "| from \\ to |";
    for i := 0 to |m.states|
      invariant line == CellsLine("from \\ to", texts[..i])
    {
      var text := EscapeMarkdownTableCell(StateText(m.states[i]));
      line := WithCell(line, text);
      CellsLineGrows("from \\ to", texts, i);
    }
    assert texts[..|texts|] == texts;
  }

  method SeparatorLine(m: StableGraphMetadata) returns (line: string)
    ensures line == TableLine(m, 1)
  {
    ghost var texts := DashTexts(|m.states|);
    LineLiterals();
    line := "| --- |";
    for i := 0 to |m.states|
      invariant line == CellsLine("---", texts[..i])
    {
      CellsLineGrows("---", texts, i);
      line := line + " --- |";
    }
    assert texts[..|texts|] == texts;
  }

  method WriteCell(cell: Cell) returns (text: string)
    ensures text == CellText(cell)
  {
    if cell == [] {
      return "forbidden";
    }
    text := CellLabels(cell);
  }

  method RowLine(m: StableGraphMetadata, cells: seq<Cell>, from: nat) returns (line: string)
    requires from < |m.states| && |cells| == |m.states|
    requires forall j :: 0 <= j < |cells| ==> cells[j] == CellEntries(m.states, m.transitions, from, j)
    ensures line == TableLine(m, from + 2)
  {
    var first := EscapeMarkdownTableCell(StateText(m.states[from]));
    ghost var texts := RowTexts(m, from);
    line := FirstCell(first);
    for to := 0 to |m.states|
      invariant line == CellsLine(first, texts[..to])
    {
      var text := WriteCell(cells[to]);
      assert text == texts[to];
      line := WithCell(line, text);
      CellsLineGrows(first, texts, to);
    }
    assert texts[..|texts|] == texts;
  }

  lemma UnlinesAppend(lines: seq<string>, last: string)
    ensures Unlines(lines + [last]) == Unlines(lines) + last + "\n"
  {
    assert (lines + [last])[..|lines|] == lines;
  }

  method AppendLine(output: string, ghost lines: seq<string>, line: string) returns (grown: string)
    requires output == Unlines(lines)
    ensures grown == Unlines(lines + [line])
  {
    UnlinesAppend(lines, line);
    return output + line + "\n";
  }

  ghost predicate Agree(line: nat -> string, lines: seq<string>) {
    forall k :: 0 <= k < |lines| ==> lines[k] == line(k)
  }

  lemma AgreeAppend(line: nat -> string, lines: seq<string>)
    requires Agree(line, lines)
    ensures Agree(line, lines + [line(|lines|)])
  {
  }

  ghost function LineOf(m: StableGraphMetadata): nat -> string {
    (k: nat) => if k < |m.states| + 2 then TableLine(m, k) else ""
  }

  /** The first lines of the table. */
  ghost predicate LinesSoFar(m: StableGraphMetadata, lines: seq<string>) {
    |lines| <= |m.states| + 2 && Agree(LineOf(m), lines)
  }

  lemma NextLine(m: StableGraphMetadata, lines: seq<string>, line: string)
    requires LinesSoFar(m, lines) && |lines| < |m.states| + 2 && line == TableLine(m, |lines|)
    ensures LinesSoFar(m, lines + [line])
  {
    AgreeAppend(LineOf(m), lines);
  }

  lemma AllLines(m: StableGraphMetadata, lines: seq<string>)
    requires LinesSoFar(m, lines) && |lines| == |m.states| + 2
    ensures Unlines(lines) == MatrixText(m)
  {
    assert lines == TableLines(m, |m.states|);
  }

  ghost function HeadLines(m: StableGraphMetadata): (lines: seq<string>)
    ensures |lines| == 2 && LinesSoFar(m, lines)
  {
    NextLine(m, [], TableLine(m, 0));
    NextLine(m, [] + [TableLine(m, 0)], TableLine(m, 1));
    [] + [TableLine(m, 0)] + [TableLine(m, 1)]
  }

  method WriteHead(m: StableGraphMetadata) returns (output: string)
    ensures output == Unlines(HeadLines(m))
  {
    var header := HeaderLine(m);
    var separator := SeparatorLine(m);
    output := AppendLine("", [], header);
    output := AppendLine(output, [] + [header], separator);
  }

  method ToTransitionMatrixTable(m: StableGraphMetadata) returns (output: string)
    ensures output == MatrixText(m)
  {
    var cells := BuildCells(m);
    output := WriteHead(m);
    ghost var lines := HeadLines(m);
    for from := 0 to |m.states|
      invariant |lines| == from + 2 && LinesSoFar(m, lines) && output == Unlines(lines)
    {
      var line := RowLine(m, cells[from], from);
      NextLine(m, lines, line);
      output := AppendLine(output, lines, line);
      lines := lines + [line];
    }
    AllLines(m, lines);
  }

  // ---- Shape of the table ----

  /** Splits a text into lines; a final line break ends the last line instead of starting a new one. */
  function Lines(s: string): seq<string>
    decreases |s|
  {
    if s == "" then []
    else if s[|s| - 1] == '\n' then LinesBefore(s[..|s| - 1])
    else LinesBefore(s)
  }

  /** The pieces of `s` between its line breaks. */
  function LinesBefore(s: string): (r: seq<string>)
    ensures r != []
  {
    if s == "" then [""]
    else
      var front := LinesBefore(s[..|s| - 1]);
      if s[|s| - 1] == '\n' then front + [""]
      else front[..|front| - 1] + [front[|front| - 1] + [s[|s| - 1]]]
  }

  /** A character that ends no line joins the last piece. */
  lemma LinesBeforeChar(s: string, c: char)
    requires c != '\n'
    ensures var pieces := LinesBefore(s);
            LinesBefore(s + [c]) == pieces[..|pieces| - 1] + [pieces[|pieces| - 1] + [c]]
  {
    assert (s + [c])[..|s|] == s;
  }

  lemma OneCharMore(s: string, front: string, last: char)
    ensures s + (front + [last]) == s + front + [last]
  {
  }

  lemma {:induction false} LinesBeforeAppend(s: string, tail: string)
    requires '\n' !in tail
    ensures var pieces := LinesBefore(s);
            LinesBefore(s + tail) == pieces[..|pieces| - 1] + [pieces[|pieces| - 1] + tail]
  {
    var pieces := LinesBefore(s);
    if tail == "" {
      assert s + tail == s && pieces[|pieces| - 1] + tail == pieces[|pieces| - 1];
    } else {
      var front, last := tail[..|tail| - 1], tail[|tail| - 1];
      assert last in tail;
      LinesBeforeAppend(s, front);
      LinesBeforeChar(s + front, last);
      OneCharMore(s, front, last);
      OneCharMore(pieces[|pieces| - 1], front, last);
      assert tail == front + [last];
    }
  }

  lemma {:induction false} LinesOfUnlines(lines: seq<string>)
    requires forall l :: l in lines ==> '\n' !in l
    ensures LinesBefore(Unlines(lines)) == lines + [""]
  {
    if lines == [] {
    } else {
      var front, last := lines[..|lines| - 1], lines[|lines| - 1];
      LinesOfUnlines(front);
      LinesBeforeAppend(Unlines(front), last);
      var s := Unlines(front) + last;
      assert LinesBefore(s) == front + [last] by { assert "" + last == last; }
      assert (s + "\n")[..|s|] == s;
      assert front + [last] == lines;
    }
  }

  lemma FirstCellIsFragment(text: string)
    requires Fragment(text, 0)
    ensures Fragment(FirstCell(text), 2)
  {
    BarLiterals();
    FragmentConcat("| ", 1, text, 0);
    FragmentConcat("| " + text, 1, " |", 1);
  }

  /** Appending one cell to a line adds one pipe. */
  lemma WithCellIsFragment(line: string, n: nat, text: string)
    requires Fragment(line, n) && Fragment(text, 0)
    ensures Fragment(WithCell(line, text), n + 1)
  {
    Space();
    BarLiterals();
    FragmentConcat(line, n, " ", 0);
    FragmentConcat(line + " ", n, text, 0);
    FragmentConcat(line + " " + text, n, " |", 1);
  }

  /** A line of cells without stray pipes has one pipe more than it has cells. */
  lemma {:induction false} CellsLineIsFragment(first: string, others: seq<string>)
    requires Fragment(first, 0) && forall j :: 0 <= j < |others| ==> Fragment(others[j], 0)
    ensures Fragment(CellsLine(first, others), |others| + 2)
  {
    if others == [] {
      FirstCellIsFragment(first);
    } else {
      var front := others[..|others| - 1];
      CellsLineIsFragment(first, front);
      WithCellIsFragment(CellsLine(first, front), |front| + 2, others[|others| - 1]);
    }
  }

  lemma {:induction false} CellIsFragment(cell: Cell)
    ensures Fragment(CellText(cell), 0)
  {
    if cell == [] {
      FragmentPlain("forbidden");
    } else {
      FragmentPlain(", ");
      EscapeIsNeutral(TransitionText(cell[|cell| - 1]));
      if |cell| > 1 {
        var front := cell[..|cell| - 1];
        CellIsFragment(front);
        FragmentConcat(JoinLabels(front), 0, ", ", 0);
        FragmentConcat(JoinLabels(front) + ", ", 0, Escape(TransitionText(cell[|cell| - 1])), 0);
      }
    }
  }

  lemma TableLineIsFragment(m: StableGraphMetadata, k: nat)
    requires k < |m.states| + 2
    ensures Fragment(TableLine(m, k), |m.states| + 2)
  {
    if k == 0 {
      CornerLiteral();
      var texts := HeaderTexts(m);
      forall j | 0 <= j < |texts| ensures Fragment(texts[j], 0) {
        EscapeIsNeutral(StateText(m.states[j]));
      }
      CellsLineIsFragment("from \\ to", texts);
    } else if k == 1 {
      FragmentPlain("---");
      CellsLineIsFragment("---", DashTexts(|m.states|));
    } else {
      EscapeIsNeutral(StateText(m.states[k - 2]));
      var texts := RowTexts(m, k - 2);
      forall j | 0 <= j < |texts| ensures Fragment(texts[j], 0) {
        CellIsFragment(CellEntries(m.states, m.transitions, k - 2, j));
      }
      CellsLineIsFragment(Escape(StateText(m.states[k - 2])), texts);
    }
  }

  /** Whatever the labels contain, the table has states + 2 lines of states + 2 unescaped pipes each. */
  lemma MatrixShape(m: StableGraphMetadata)
    ensures Lines(MatrixText(m)) == TableLines(m, |m.states|)
    ensures |Lines(MatrixText(m))| == |m.states| + 2
    ensures forall l :: l in Lines(MatrixText(m)) ==> UnescapedPipes(l, false) == |m.states| + 2
  {
    var lines := TableLines(m, |m.states|);
    forall k | 0 <= k < |lines| ensures Fragment(lines[k], |m.states| + 2) {
      TableLineIsFragment(m, k);
    }
    LinesOfUnlines(lines);
    var text := MatrixText(m);
    var body := Unlines(lines[..|lines| - 1]) + lines[|lines| - 1];
    assert text == body + "\n" && text[..|text| - 1] == body;
    assert LinesBefore(text) == LinesBefore(body) + [""];
    assert LinesBefore(body) == lines by {
      assert (LinesBefore(body) + [""])[..|lines|] == (lines + [""])[..|lines|];
    }
  }

  // ---- Reading a cell ----

  lemma {:induction false} EscapeFixesPlain(value: string)
    requires '\\' !in value && '|' !in value && '\n' !in value && '\r' !in value
    ensures Escape(value) == value
  {
    if value == "" {
    } else {
      var front, last := value[..|value| - 1], value[|value| - 1];
      assert last in value;
      EscapeFixesPlain(front);
      calc {
        Escape(value);
        Escape(front) + EscapeChar(last);
        front + [last];
        value;
      }
    }
  }

  lemma EscapeCharMarks(c: char)
    ensures EscapeChar(c) == [c] || '\\' in EscapeChar(c) || ' ' in EscapeChar(c)
  {
    assert EscapeChar(c)[0] in EscapeChar(c);
  }

  lemma {:induction false} PlainEscapeIsSame(value: string)
    requires '\\' !in Escape(value) && ' ' !in Escape(value)
    ensures Escape(value) == value
  {
    if value == "" {
    } else {
      var c := value[|value| - 1];
      EscapeCharMarks(c);
      forall x | x in EscapeChar(c) ensures x in Escape(value) { }
      PlainEscapeIsSame(value[..|value| - 1]);
      assert value == value[..|value| - 1] + [c];
    }
  }

  lemma JoinedLabelsHaveComma(cell: Cell)
    requires |cell| > 1
    ensures ',' in JoinLabels(cell)
  {
    var front := JoinLabels(cell[..|cell| - 1]);
    assert JoinLabels(cell)[|front|] == ',';
  }

  /**
   * The word "forbidden" marks an empty cell, with one exception: a cell whose only entry is a
   * transition that is itself shown as "forbidden" reads the same.
   */
  lemma ForbiddenCell(cell: Cell)
    ensures CellText(cell) == "forbidden" <==> cell == [] || (|cell| == 1 && TransitionText(cell[0]) == "forbidden")
  {
    if |cell| == 1 {
      if TransitionText(cell[0]) == "forbidden" {
        EscapeFixesPlain("forbidden");
      } else if CellText(cell) == "forbidden" {
        PlainEscapeIsSame(TransitionText(cell[0]));
      }
    } else if |cell| > 1 {
      JoinedLabelsHaveComma(cell);
    }
  }

  /** Concrete input for the exception: one state with a self transition named `forbidden`. */
  lemma ForbiddenIsAmbiguous() returns (m: StableGraphMetadata)
    ensures CellText(CellEntries(m.states, m.transitions, 0, 0)) == "forbidden"
    ensures exists t :: t in m.transitions && Joins(m.states, t, 0, 0)
  {
    var t := StableTransition("forbidden", None, None, "A", ["A"]);
    m := StableGraphMetadata([StableState("A", None, None, false)], [t]);
    assert Hits(m.states, t, 0, 0, 0);
    assert TargetEntries(m.states, t, 1, 0, 0) == [t];
    assert m.transitions[..0] == [];
    ForbiddenCell([t]);
    assert t in m.transitions && Joins(m.states, t, 0, 0);
  }

  // ---- Reading the table back ----

  /** The pieces of a line between its unescaped pipes. */
  function Columns(s: string): (r: seq<string>)
    ensures r != []
  {
    if s == "" then [""]
    else
      var before, c := s[..|s| - 1], s[|s| - 1];
      var front := Columns(before);
      if c == '|' && !OpenAfter(before, false) then front + [""]
      else front[..|front| - 1] + [front[|front| - 1] + [c]]
  }

  ghost function ExtendLast(pieces: seq<string>, tail: string): seq<string>
    requires pieces != []
  {
    pieces[..|pieces| - 1] + [pieces[|pieces| - 1] + tail]
  }

  lemma ExtendTwice(pieces: seq<string>, a: string, b: string)
    requires pieces != []
    ensures ExtendLast(ExtendLast(pieces, a), b) == ExtendLast(pieces, a + b)
  {
    var last := pieces[|pieces| - 1];
    assert last + a + b == last + (a + b);
  }

  lemma OneCharPipes(a: string, c: char)
    ensures UnescapedPipes(a + [c], false)
         == UnescapedPipes(a, false) + if c == '|' && !OpenAfter(a, false) then 1 else 0
  {
    PipesConcat(a, [c], false);
    assert [c][1..] == "";
  }

  lemma ColumnsOneMore(s: string, c: char)
    ensures Columns(s + [c]) == if c == '|' && !OpenAfter(s, false) then Columns(s) + [""] else ExtendLast(Columns(s), [c])
  {
    assert (s + [c])[..|s|] == s;
  }

  /** Text without an unescaped pipe stays in the last column. */
  lemma {:induction false} ColumnsAppend(s: string, tail: string)
    requires !OpenAfter(s, false) && UnescapedPipes(tail, false) == 0
    ensures Columns(s + tail) == ExtendLast(Columns(s), tail)
    decreases |tail|
  {
    if tail == "" {
      assert s + tail == s && Columns(s)[|Columns(s)| - 1] + tail == Columns(s)[|Columns(s)| - 1];
    } else {
      var front, c := tail[..|tail| - 1], tail[|tail| - 1];
      assert tail == front + [c];
      OneCharPipes(front, c);
      ColumnsAppend(s, front);
      PipesConcat(s, front, false);
      OneCharMore(s, front, c);
      ColumnsOneMore(s + front, c);
      ExtendTwice(Columns(s), front, [c]);
    }
  }

  /** The line ends in a pipe of its own, so its last column is empty. */
  ghost predicate Ended(line: string, columns: seq<string>) {
    !OpenAfter(line, false) && Columns(line) == columns + [""]
  }

  lemma ColumnClosed(line: string, columns: seq<string>, text: string)
    requires Ended(line, columns) && Fragment(text, 0)
    ensures Ended(line + text + "|", columns + [text])
  {
    ColumnsAppend(line, text);
    PipesConcat(line, text, false);
    assert "" + text == text;
    assert ExtendLast(columns + [""], text) == columns + [text];
    ColumnsOneMore(line + text, '|');
    Bar();
    PipesConcat(line + text, "|", false);
  }

  ghost function Spaced(text: string): string {
    " " + text + " "
  }

  lemma SpacedIsFragment(text: string)
    requires Fragment(text, 0)
    ensures Fragment(Spaced(text), 0)
  {
    Space();
    FragmentConcat(" ", 0, text, 0);
    FragmentConcat(" " + text, 0, " ", 0);
  }

  ghost function AllSpaced(texts: seq<string>): (r: seq<string>)
    ensures |r| == |texts| && forall j :: 0 <= j < |r| ==> r[j] == Spaced(texts[j])
  {
    seq(|texts|, j requires 0 <= j < |texts| => Spaced(texts[j]))
  }

  lemma FirstColumns(text: string)
    requires Fragment(text, 0)
    ensures Ended(FirstCell(text), ["", Spaced(text)])
  {
    var none: seq<string> := [];
    assert Columns("") == [""] && !OpenAfter("", false);
    assert none + [""] == [""] && Ended("", none);
    assert Fragment("", 0);
    ColumnClosed("", none, "");
    assert "" + "" + "|" == "|" && none + [""] == [""];
    SpacedIsFragment(text);
    ColumnClosed("|", [""], Spaced(text));
    assert "|" + Spaced(text) + "|" == FirstCell(text) by {
      assert "| " == "|" + " " && " |" == " " + "|";
    }
  }

  /** A line of cells has its cells as columns, between an empty first and an empty last one. */
  lemma {:induction false} CellsAreColumns(first: string, others: seq<string>)
    requires Fragment(first, 0) && forall j :: 0 <= j < |others| ==> Fragment(others[j], 0)
    ensures Ended(CellsLine(first, others), ["", Spaced(first)] + AllSpaced(others))
  {
    if others == [] {
      FirstColumns(first);
      assert ["", Spaced(first)] + AllSpaced(others) == ["", Spaced(first)];
    } else {
      var front, last := others[..|others| - 1], others[|others| - 1];
      CellsAreColumns(first, front);
      SpacedIsFragment(last);
      var columns := ["", Spaced(first)] + AllSpaced(front);
      ColumnClosed(CellsLine(first, front), columns, Spaced(last));
      assert columns + [Spaced(last)] == ["", Spaced(first)] + AllSpaced(others);
      assert CellsLine(first, front) + Spaced(last) + "|" == WithCell(CellsLine(first, front), last) by {
        assert " |" == " " + "|";
      }
    }
  }

  /** The text that an escaped text stands for. */
  function Unescape(s: string): string {
    if s == "" then ""
    else if s[0] == '\\' && |s| > 1 then [s[1]] + Unescape(s[2..])
    else [s[0]] + Unescape(s[1..])
  }

  /** Line breaks are shown as spaces. */
  function Flat(value: string): (r: string)
    ensures |r| == |value|
    ensures forall i :: 0 <= i < |r| ==> r[i] == if value[i] in {'\n', '\r'} then ' ' else value[i]
  {
    Map((c: char) => if c in {'\n', '\r'} then ' ' else c, value)
  }

  lemma {:induction false} UnescapeConcat(a: string, b: string)
    requires !OpenAfter(a, false)
    ensures Unescape(a + b) == Unescape(a) + Unescape(b)
    decreases |a|
  {
    if a == "" {
      assert a + b == b;
    } else if a[0] == '\\' {
      var behind := a[1..];
      assert behind == "" || |a| > 1;
      assert (a + b)[2..] == a[2..] + b && a[1..][1..] == a[2..];
      UnescapeConcat(a[2..], b);
      assert [a[1]] + (Unescape(a[2..]) + Unescape(b)) == [a[1]] + Unescape(a[2..]) + Unescape(b);
    } else {
      assert (a + b)[1..] == a[1..] + b;
      UnescapeConcat(a[1..], b);
      assert [a[0]] + (Unescape(a[1..]) + Unescape(b)) == [a[0]] + Unescape(a[1..]) + Unescape(b);
    }
  }

  lemma UnescapeChar(c: char)
    ensures Unescape(EscapeChar(c)) == [if c in {'\n', '\r'} then ' ' else c]
  {
    var s := EscapeChar(c);
    assert Unescape("") == "";
    assert s[1..] == if |s| == 1 then "" else [c];
    assert |s| == 2 ==> s[2..] == "";
  }

  /** Escaping loses nothing but line breaks. */
  lemma {:induction false} UnescapeUndoesEscape(value: string)
    ensures Unescape(Escape(value)) == Flat(value)
  {
    if value == "" {
    } else {
      var front, c := value[..|value| - 1], value[|value| - 1];
      UnescapeUndoesEscape(front);
      EscapeIsNeutral(front);
      UnescapeConcat(Escape(front), EscapeChar(c));
      UnescapeChar(c);
      assert Flat(value) == Flat(front) + [if c in {'\n', '\r'} then ' ' else c];
    }
  }

  /** What a reader sees in a cell: "forbidden", or the labels of its transitions. */
  function CellReading(cell: Cell): string {
    if cell == [] then "forbidden"
    else if |cell| == 1 then Flat(TransitionText(cell[0]))
    else CellReading(cell[..|cell| - 1]) + ", " + Flat(TransitionText(cell[|cell| - 1]))
  }

  lemma {:induction false} UnescapePlain(s: string)
    requires '\\' !in s
    ensures Unescape(s) == s
  {
    if s == "" {
    } else {
      assert s[0] in s;
      UnescapePlain(s[1..]);
      assert [s[0]] + s[1..] == s;
    }
  }

  lemma OneMoreReadsBack(front: string, reading: string, last: string)
    requires Fragment(front, 0) && Unescape(front) == reading
    ensures Unescape(front + ", " + Escape(last)) == reading + ", " + Flat(last)
  {
    FragmentPlain(", ");
    FragmentConcat(front, 0, ", ", 0);
    UnescapePlain(", ");
    UnescapeConcat(front + ", ", Escape(last));
    UnescapeConcat(front, ", ");
    UnescapeUndoesEscape(last);
  }

  lemma {:induction false} CellReadsBack(cell: Cell)
    ensures Unescape(CellText(cell)) == CellReading(cell)
  {
    if cell == [] {
      UnescapePlain("forbidden");
    } else if |cell| == 1 {
      UnescapeUndoesEscape(TransitionText(cell[0]));
    } else {
      var front := cell[..|cell| - 1];
      CellReadsBack(front);
      CellIsFragment(front);
      OneMoreReadsBack(CellText(front), CellReading(front), TransitionText(cell[|cell| - 1]));
    }
  }

  /** Without the spaces around it, and with its escapes resolved, the column is the text. */
  ghost predicate Shows(column: string, text: string) {
    |column| >= 2 && Unescape(column[1..|column| - 1]) == text
  }

  lemma SpacedShows(text: string)
    ensures Shows(Spaced(text), Unescape(text))
  {
    assert Spaced(text)[1..|Spaced(text)| - 1] == text;
  }

  ghost function LineColumns(first: string, others: seq<string>): (r: seq<string>)
    ensures |r| == |others| + 3 && r[0] == "" && r[1] == Spaced(first) && r[|r| - 1] == ""
    ensures forall j :: 0 <= j < |others| ==> r[j + 2] == Spaced(others[j])
  {
    ["", Spaced(first)] + AllSpaced(others) + [""]
  }

  lemma HeaderColumns(m: StableGraphMetadata)
    ensures Columns(TableLine(m, 0)) == LineColumns("from \\ to", HeaderTexts(m))
  {
    CornerLiteral();
    var texts := HeaderTexts(m);
    forall j | 0 <= j < |texts| ensures Fragment(texts[j], 0) {
      EscapeIsNeutral(StateText(m.states[j]));
    }
    CellsAreColumns("from \\ to", texts);
  }

  lemma RowColumns(m: StableGraphMetadata, i: nat)
    requires i < |m.states|
    ensures Columns(TableLine(m, i + 2)) == LineColumns(Escape(StateText(m.states[i])), RowTexts(m, i))
  {
    EscapeIsNeutral(StateText(m.states[i]));
    var texts := RowTexts(m, i);
    forall j | 0 <= j < |texts| ensures Fragment(texts[j], 0) {
      CellIsFragment(CellEntries(m.states, m.transitions, i, j));
    }
    CellsAreColumns(Escape(StateText(m.states[i])), texts);
  }

  /**
   * Splitting the printed text into lines, the lines at their unescaped pipes, and resolving the
   * escapes gives back every label, but for line breaks: the target states in the header, the source
   * state in front of each row, and in each cell the transitions from the one to the other.
   */
  lemma TableReadsBack(m: StableGraphMetadata, i: nat, j: nat)
    requires i < |m.states| && j < |m.states|
    ensures |Lines(MatrixText(m))| == |m.states| + 2
    ensures var header, row := Columns(Lines(MatrixText(m))[0]), Columns(Lines(MatrixText(m))[i + 2]);
            && |header| == |row| == |m.states| + 3
            && Shows(header[j + 2], Flat(StateText(m.states[j])))
            && Shows(row[1], Flat(StateText(m.states[i])))
            && Shows(row[j + 2], CellReading(CellEntries(m.states, m.transitions, i, j)))
  {
    MatrixShape(m);
    HeaderColumns(m);
    RowColumns(m, i);
    HeaderReads(m, j);
    RowReads(m, i, j);
  }

  lemma HeaderReads(m: StableGraphMetadata, j: nat)
    requires j < |m.states|
    ensures Shows(LineColumns("from \\ to", HeaderTexts(m))[j + 2], Flat(StateText(m.states[j])))
  {
    SpacedShows(HeaderTexts(m)[j]);
    UnescapeUndoesEscape(StateText(m.states[j]));
  }

  lemma RowReads(m: StableGraphMetadata, i: nat, j: nat)
    requires i < |m.states| && j < |m.states|
    ensures var columns := LineColumns(Escape(StateText(m.states[i])), RowTexts(m, i));
            && Shows(columns[1], Flat(StateText(m.states[i])))
            && Shows(columns[j + 2], CellReading(CellEntries(m.states, m.transitions, i, j)))
  {
    SpacedShows(Escape(StateText(m.states[i])));
    UnescapeUndoesEscape(StateText(m.states[i]));
    SpacedShows(RowTexts(m, i)[j]);
    CellReadsBack(CellEntries(m.states, m.transitions, i, j));
  }
}
