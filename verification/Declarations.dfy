/** The sibling block-stack scanner for item declarations (statum-macros/src/source/analysis/declarations.rs). */
module Declarations {
  import opened Common
  import opened Lexer
  import opened TokenTree

  datatype DeclarationLines = DeclarationLines(enums: seq<nat>, structs: seq<nat>, typeAliases: seq<nat>)

  datatype Block = ModuleItems(close: char) | MacroBody(close: char) | OtherBlock(close: char)

  predicate ModuleItemsAllowed(stack: seq<Block>) {
    forall b :: b in stack ==> b.ModuleItems?
  }

  // ---- The reference reading ----

  /** Lines of the keyword among the siblings of a forest and inside its inline modules, nowhere else. */
  function KeywordLines(f: Forest, prev2: Option<ScannedToken>, prev1: Option<ScannedToken>, keyword: string): seq<nat> {
    match f
    case Nil => []
    case Leaf(token, rest) =>
      (if token.kind == Ident(keyword) then [token.line] else []) + KeywordLines(rest, prev1, Some(token), keyword)
    case Group(open, inner, close, rest) =>
      (if Classify(prev2, prev1, open).ModuleGroup? then KeywordLines(inner, None, None, keyword) else [])
      + KeywordLines(rest, None, None, keyword)
  }

  /** What the reference reading gives for the three keywords. */
  function DeclaredLines(f: Forest): DeclarationLines {
    DeclarationLines(
      KeywordLines(f, None, None, "enum"), KeywordLines(f, None, None, "struct"), KeywordLines(f, None, None, "type"))
  }

  function Plus(a: DeclarationLines, b: DeclarationLines): DeclarationLines {
    DeclarationLines(a.enums + b.enums, a.structs + b.structs, a.typeAliases + b.typeAliases)
  }

  const NOTHING := DeclarationLines([], [], [])

  lemma PlusAssociates(a: DeclarationLines, b: DeclarationLines, c: DeclarationLines)
    ensures Plus(Plus(a, b), c) == Plus(a, Plus(b, c))
    ensures Plus(a, NOTHING) == a && Plus(NOTHING, a) == a
  {
  }

  function LeafLines(token: ScannedToken): DeclarationLines {
    DeclarationLines(
      if token.kind == Ident("enum") then [token.line] else [],
      if token.kind == Ident("struct") then [token.line] else [],
      if token.kind == Ident("type") then [token.line] else [])
  }

  function GroupLines(prev2: Option<ScannedToken>, prev1: Option<ScannedToken>, f: Forest): DeclarationLines
    requires f.Group?
    decreases f, 0
  {
    if Classify(prev2, prev1, f.open).ModuleGroup? then LinesIn(f.inner, None, None) else NOTHING
  }

  /** The lines of all three keywords at once. */
  function LinesIn(f: Forest, prev2: Option<ScannedToken>, prev1: Option<ScannedToken>): DeclarationLines
    decreases f, 1
  {
    match f
    case Nil => NOTHING
    case Leaf(token, rest) => Plus(LeafLines(token), LinesIn(rest, prev1, Some(token)))
    case Group(open, inner, close, rest) => Plus(GroupLines(prev2, prev1, f), LinesIn(rest, None, None))
  }

  lemma {:induction false} LinesAreKeywordLines(f: Forest, prev2: Option<ScannedToken>, prev1: Option<ScannedToken>)
    ensures LinesIn(f, prev2, prev1) == DeclarationLines(
                                          KeywordLines(f, prev2, prev1, "enum"), KeywordLines(f, prev2, prev1, "struct"),
                                          KeywordLines(f, prev2, prev1, "type"))
    decreases f
  {
    match f
    case Nil =>
    case Leaf(token, rest) => LinesAreKeywordLines(rest, prev1, Some(token));
    case Group(open, inner, close, rest) =>
      LinesAreKeywordLines(inner, None, None);
      LinesAreKeywordLines(rest, None, None);
  }

  // ---- The scanner as a machine ----

  datatype ScanState = ScanState(
    lines: DeclarationLines, stack: seq<Block>, opaqueDepth: nat, pendingModuleOpen: Option<nat>, pendingOpaqueOpen: Option<nat>)

  const START := ScanState(NOTHING, [], 0, None, None)

  function OnKeyword(tokens: seq<ScannedToken>, i: nat, keyword: string, line: nat, st: ScanState): ScanState {
    if keyword == "enum" then st.(lines := st.lines.(enums := st.lines.enums + [line]))
    else if keyword == "struct" then st.(lines := st.lines.(structs := st.lines.structs + [line]))
    else if keyword == "type" then st.(lines := st.lines.(typeAliases := st.lines.typeAliases + [line]))
    else if keyword == "mod" && NameAt(tokens, i + 1) && KindAt(tokens, i + 2, Punct('{')) then
      st.(pendingModuleOpen := Some(i + 2))
    else st
  }

  function OnMark(tokens: seq<ScannedToken>, i: nat, st: ScanState): ScanState {
    if OpenAt(tokens, i + 1) then st.(pendingOpaqueOpen := Some(i + 1))
    else if NameAt(tokens, i + 1) && OpenAt(tokens, i + 2) then st.(pendingOpaqueOpen := Some(i + 2))
    else st
  }

  function OnOpen(i: nat, open: char, st: ScanState): ScanState {
    if st.pendingOpaqueOpen == Some(i) then
      st.(stack := st.stack + [MacroBody(MatchingClose(open))], opaqueDepth := st.opaqueDepth + 1, pendingOpaqueOpen := None)
    else if st.pendingModuleOpen == Some(i) then
      st.(stack := st.stack + [ModuleItems(MatchingClose(open))], pendingModuleOpen := None)
    else st.(stack := st.stack + [OtherBlock(MatchingClose(open))])
  }

  function OnClose(close: char, st: ScanState): ScanState {
    if st.stack == [] then st
    else
      var context, popped := st.stack[|st.stack| - 1], st.(stack := st.stack[..|st.stack| - 1]);
      if context.MacroBody? && context.close == close then
        popped.(opaqueDepth := if st.opaqueDepth == 0 then 0 else st.opaqueDepth - 1)
      else popped
  }

  function Step(tokens: seq<ScannedToken>, i: nat, st: ScanState): ScanState
    requires i < |tokens|
  {
    match tokens[i].kind
    case Ident(keyword) =>
      if st.opaqueDepth == 0 && ModuleItemsAllowed(st.stack) then OnKeyword(tokens, i, keyword, tokens[i].line, st) else st
    case Punct(c) =>
      if c == '!' && st.opaqueDepth == 0 then OnMark(tokens, i, st)
      else if c in "{([" then OnOpen(i, c, st)
      else if c in "})]" then OnClose(c, st)
      else st
  }

  function Run(tokens: seq<ScannedToken>, i: nat, j: nat, st: ScanState): ScanState
    requires i <= j <= |tokens|
    decreases j - i
  {
    if i == j then st else Run(tokens, i + 1, j, Step(tokens, i, st))
  }

  lemma {:induction false} RunSplit(tokens: seq<ScannedToken>, i: nat, j: nat, k: nat, st: ScanState)
    requires i <= j <= k <= |tokens|
    ensures Run(tokens, i, k, st) == Run(tokens, j, k, Run(tokens, i, j, st))
    decreases j - i
  {
    if i == j {
    } else {
      RunSplit(tokens, i + 1, j, k, Step(tokens, i, st));
    }
  }

  lemma GroupSteps(tokens: seq<ScannedToken>, i: nat, k: nat, st: ScanState)
    requires i < k < |tokens| && IsOpen(tokens[i].kind) && IsClose(tokens[k].kind)
    ensures Run(tokens, i, k + 1, st)
         == OnClose(tokens[k].kind.symbol, Run(tokens, i + 1, k, OnOpen(i, tokens[i].kind.symbol, st)))
  {
    RunSplit(tokens, i + 1, k, k + 1, Step(tokens, i, st));
  }

  /** Closing a group right after opening it only consumes the announcement. */
  lemma OpenThenClose(i: nat, open: char, st: ScanState)
    ensures OnClose(MatchingClose(open), OnOpen(i, open, st)) == Consumed(i, st)
  {
    var pushed := OnOpen(i, open, st);
    assert pushed.stack[..|pushed.stack| - 1] == st.stack;
  }

  function Consumed(i: nat, st: ScanState): ScanState {
    if st.pendingOpaqueOpen == Some(i) then st.(pendingOpaqueOpen := None)
    else if st.pendingModuleOpen == Some(i) then st.(pendingModuleOpen := None)
    else st
  }

  lemma ModuleOpenThenClose(i: nat, open: char, lines: DeclarationLines, st: ScanState)
    requires st.pendingModuleOpen == Some(i) && st.pendingOpaqueOpen != Some(i)
    ensures OnClose(MatchingClose(open), OnOpen(i, open, st).(lines := lines)) == st.(pendingModuleOpen := None, lines := lines)
  {
    var pushed := OnOpen(i, open, st);
    assert pushed.stack[..|pushed.stack| - 1] == st.stack;
  }

  lemma MacroLeaf(tokens: seq<ScannedToken>, i: nat, st: ScanState)
    requires i < |tokens| && !BracketAt(tokens, i) && st.opaqueDepth > 0
    ensures Step(tokens, i, st) == st
  {
  }

  /** A group whose inner tokens leave the pushed state alone only consumes its announcement. */
  lemma GroupUnchanged(tokens: seq<ScannedToken>, i: nat, k: nat, st: ScanState)
    requires i < k < |tokens| && IsOpen(tokens[i].kind) && tokens[k].kind == Punct(MatchingClose(tokens[i].kind.symbol))
    requires var pushed := OnOpen(i, tokens[i].kind.symbol, st); Run(tokens, i + 1, k, pushed) == pushed
    ensures Run(tokens, i, k + 1, st) == Consumed(i, st)
  {
    GroupSteps(tokens, i, k, st);
    OpenThenClose(i, tokens[i].kind.symbol, st);
  }

  /** Inside a macro body nothing is recorded and the state comes back unchanged. */
  lemma {:induction false} MacroBodyIsIgnored(tokens: seq<ScannedToken>, i: nat, f: Forest, st: ScanState)
    requires WellFormed(f) && Spans(tokens, i, f)
    requires st.opaqueDepth > 0 && st.pendingModuleOpen.None? && st.pendingOpaqueOpen.None?
    ensures Run(tokens, i, End(i, f), st) == st
    decreases f, 0
  {
    match f
    case Nil =>
    case Leaf(token, rest) =>
      MacroLeaf(tokens, i, st);
      MacroBodyIsIgnored(tokens, i + 1, rest, st);
    case Group(open, inner, close, rest) =>
      var k := CloseIndex(i, inner);
      MacroBodyIsIgnored(tokens, i + 1, inner, OnOpen(i, open.kind.symbol, st));
      GroupUnchanged(tokens, i, k, st);
      MacroRestIsIgnored(tokens, i, k + 1, rest, st);
  }

  lemma {:induction false} MacroRestIsIgnored(tokens: seq<ScannedToken>, i: nat, j: nat, rest: Forest, st: ScanState)
    requires i < j && WellFormed(rest) && Spans(tokens, j, rest) && Run(tokens, i, j, st) == st
    requires st.opaqueDepth > 0 && st.pendingModuleOpen.None? && st.pendingOpaqueOpen.None?
    ensures Run(tokens, i, End(j, rest), st) == st
    decreases rest, 1
  {
    RunSplit(tokens, i, j, End(j, rest), st);
    MacroBodyIsIgnored(tokens, j, rest, st);
  }

  /** The state with only the announced macro opening refreshed. */
  ghost function Passed(st: ScanState, tokens: seq<ScannedToken>, i: nat): ScanState {
    st.(pendingOpaqueOpen := AnnouncedOpaque(tokens, i))
  }

  /** A macro group, read outside macro bodies, changes nothing. */
  lemma MacroGroupIsIgnored(tokens: seq<ScannedToken>, i: nat, k: nat, f: Forest, st: ScanState)
    requires f.Group? && WellFormed(f) && k == CloseIndex(i, f.inner) && k < |tokens|
    requires tokens[i] == f.open && tokens[k] == f.close && Spans(tokens, i + 1, f.inner)
    requires st.opaqueDepth == 0 && st.pendingModuleOpen.None? && st.pendingOpaqueOpen == Some(i)
    ensures Run(tokens, i, k + 1, st) == st.(pendingOpaqueOpen := None)
  {
    MacroBodyIsIgnored(tokens, i + 1, f.inner, OnOpen(i, f.open.kind.symbol, st));
    GroupUnchanged(tokens, i, k, st);
  }

  lemma BlockedLeaf(tokens: seq<ScannedToken>, i: nat, st: ScanState)
    requires i < |tokens| && !BracketAt(tokens, i) && st.opaqueDepth == 0 && !ModuleItemsAllowed(st.stack)
    requires st.pendingOpaqueOpen == AnnouncedOpaque(tokens, i)
    ensures Step(tokens, i, st) == Passed(st, tokens, i + 1)
  {
  }

  /** Inside a block that is not a module nothing is recorded, whatever is nested in it. */
  lemma {:induction false} OtherBodyIsIgnored(
    tokens: seq<ScannedToken>, i: nat, f: Forest, prev2: Option<ScannedToken>, prev1: Option<ScannedToken>, st: ScanState)
    requires WellFormed(f) && Spans(tokens, i, f) && Context(tokens, i, prev2, prev1)
    requires st.opaqueDepth == 0 && !ModuleItemsAllowed(st.stack)
    requires st.pendingModuleOpen.None? && st.pendingOpaqueOpen == AnnouncedOpaque(tokens, i)
    ensures Run(tokens, i, End(i, f), st) == Passed(st, tokens, End(i, f))
    decreases f, 2
  {
    match f
    case Nil =>
    case Leaf(token, rest) =>
      BlockedLeaf(tokens, i, st);
      OtherBodyIsIgnored(tokens, i + 1, rest, prev1, Some(token), Passed(st, tokens, i + 1));
    case Group(open, inner, close, rest) =>
      var k := CloseIndex(i, inner);
      EnterGroup(tokens, i, f);
      BlockedGroup(tokens, i, f, prev2, prev1, st);
      IgnoreRest(tokens, i, k + 1, rest, st);
  }

  /** One group inside such a block, whether it is a macro body or not. */
  lemma {:induction false} BlockedGroup(
    tokens: seq<ScannedToken>, i: nat, f: Forest, prev2: Option<ScannedToken>, prev1: Option<ScannedToken>, st: ScanState)
    requires f.Group? && WellFormed(f) && Spans(tokens, i, f) && Context(tokens, i, prev2, prev1)
    requires st.opaqueDepth == 0 && !ModuleItemsAllowed(st.stack)
    requires st.pendingModuleOpen.None? && st.pendingOpaqueOpen == AnnouncedOpaque(tokens, i)
    ensures Run(tokens, i, CloseIndex(i, f.inner) + 1, st) == st.(pendingOpaqueOpen := None)
    decreases f, 1
  {
    var k := CloseIndex(i, f.inner);
    EnterGroup(tokens, i, f);
    AnnouncedMatchesClassify(tokens, i, prev2, prev1);
    if st.pendingOpaqueOpen == Some(i) {
      MacroGroupIsIgnored(tokens, i, k, f, st);
    } else {
      OtherGroupIsIgnored(tokens, i, k, f, st);
    }
  }

  lemma {:induction false} IgnoreRest(tokens: seq<ScannedToken>, i: nat, j: nat, rest: Forest, st: ScanState)
    requires i < j && WellFormed(rest) && Spans(tokens, j, rest) && BracketAt(tokens, j - 1)
    requires st.opaqueDepth == 0 && !ModuleItemsAllowed(st.stack) && st.pendingModuleOpen.None?
    requires Run(tokens, i, j, st) == st.(pendingOpaqueOpen := None) && AnnouncedOpaque(tokens, j).None?
    ensures Run(tokens, i, End(j, rest), st) == Passed(st, tokens, End(j, rest))
    decreases rest, 3
  {
    RunSplit(tokens, i, j, End(j, rest), st);
    OtherBodyIsIgnored(tokens, j, rest, None, None, st.(pendingOpaqueOpen := None));
  }

  lemma {:induction false} OtherGroupIsIgnored(tokens: seq<ScannedToken>, i: nat, k: nat, f: Forest, st: ScanState)
    requires f.Group? && WellFormed(f) && k == CloseIndex(i, f.inner) && k < |tokens|
    requires tokens[i] == f.open && tokens[k] == f.close && Spans(tokens, i + 1, f.inner)
    requires st.opaqueDepth == 0 && st.pendingModuleOpen.None? && st.pendingOpaqueOpen.None?
    requires AnnouncedOpaque(tokens, i + 1).None? && AnnouncedOpaque(tokens, k).None?
    ensures Run(tokens, i, k + 1, st) == st
    decreases f, 0
  {
    var pushed := OnOpen(i, f.open.kind.symbol, st);
    GroupSteps(tokens, i, k, st);
    assert pushed.stack[|st.stack|] in pushed.stack;
    OtherBodyIsIgnored(tokens, i + 1, f.inner, None, None, pushed);
    OpenThenClose(i, f.open.kind.symbol, st);
  }

  ghost function ModuleOpen(p: Option<PendingModule>): Option<nat> {
    match p case None => None case Some(pending) => Some(pending.openIndex)
  }

  ghost predicate PendingMatches(tokens: seq<ScannedToken>, i: nat, st: ScanState) {
    st.pendingModuleOpen == ModuleOpen(AnnouncedModule(tokens, i)) && st.pendingOpaqueOpen == AnnouncedOpaque(tokens, i)
  }

  ghost function Recorded(st: ScanState, tokens: seq<ScannedToken>, i: nat, lines: DeclarationLines): ScanState {
    st.(lines := Plus(st.lines, lines), pendingModuleOpen := ModuleOpen(AnnouncedModule(tokens, i)),
        pendingOpaqueOpen := AnnouncedOpaque(tokens, i))
  }

  lemma LeafRecords(tokens: seq<ScannedToken>, i: nat, st: ScanState)
    requires i < |tokens| && !BracketAt(tokens, i)
    requires PendingMatches(tokens, i, st) && st.opaqueDepth == 0 && ModuleItemsAllowed(st.stack)
    ensures Step(tokens, i, st) == Recorded(st, tokens, i + 1, LeafLines(tokens[i]))
  {
    var token, next := tokens[i], Step(tokens, i, st);
    assert next.pendingModuleOpen == ModuleOpen(AnnouncedModule(tokens, i + 1));
    assert next.pendingOpaqueOpen == AnnouncedOpaque(tokens, i + 1);
    assert next.lines == Plus(st.lines, LeafLines(token));
  }

  /** Where items are allowed, scanning a forest records exactly the reference lines. */
  lemma {:induction false} ScanRecordsLines(
    tokens: seq<ScannedToken>, i: nat, f: Forest, prev2: Option<ScannedToken>, prev1: Option<ScannedToken>, st: ScanState)
    requires WellFormed(f) && Spans(tokens, i, f) && Context(tokens, i, prev2, prev1)
    requires PendingMatches(tokens, i, st) && st.opaqueDepth == 0 && ModuleItemsAllowed(st.stack)
    ensures Run(tokens, i, End(i, f), st) == Recorded(st, tokens, End(i, f), LinesIn(f, prev2, prev1))
    decreases f, 3
  {
    match f
    case Nil =>
      PlusAssociates(st.lines, NOTHING, NOTHING);
    case Leaf(token, rest) => LeafScan(tokens, i, token, rest, prev2, prev1, st);
    case Group(open, inner, close, rest) => GroupScan(tokens, i, f, prev2, prev1, st);
  }

  lemma {:induction false} LeafScan(
    tokens: seq<ScannedToken>, i: nat, token: ScannedToken, rest: Forest,
    prev2: Option<ScannedToken>, prev1: Option<ScannedToken>, st: ScanState)
    requires WellFormed(Leaf(token, rest)) && Spans(tokens, i, Leaf(token, rest)) && Context(tokens, i, prev2, prev1)
    requires PendingMatches(tokens, i, st) && st.opaqueDepth == 0 && ModuleItemsAllowed(st.stack)
    ensures Run(tokens, i, End(i + 1, rest), st)
         == Recorded(st, tokens, End(i + 1, rest), LinesIn(Leaf(token, rest), prev2, prev1))
    decreases rest, 5
  {
    LeafRecords(tokens, i, st);
    RecordRest(tokens, i, i + 1, rest, prev1, Some(token), LeafLines(token), st);
  }

  lemma {:induction false} GroupScan(
    tokens: seq<ScannedToken>, i: nat, f: Forest, prev2: Option<ScannedToken>, prev1: Option<ScannedToken>, st: ScanState)
    requires f.Group? && WellFormed(f) && Spans(tokens, i, f) && Context(tokens, i, prev2, prev1)
    requires PendingMatches(tokens, i, st) && st.opaqueDepth == 0 && ModuleItemsAllowed(st.stack)
    ensures Run(tokens, i, End(i, f), st) == Recorded(st, tokens, End(i, f), LinesIn(f, prev2, prev1))
    decreases f, 2
  {
    EnterGroup(tokens, i, f);
    GroupRecords(tokens, i, f, prev2, prev1, st);
    RecordRest(tokens, i, CloseIndex(i, f.inner) + 1, f.rest, None, None, GroupLines(prev2, prev1, f), st);
  }

  /** Continues a scan that has recorded `lines` with the remaining siblings. */
  lemma {:induction false} RecordRest(
    tokens: seq<ScannedToken>, i: nat, j: nat, rest: Forest, prev2: Option<ScannedToken>, prev1: Option<ScannedToken>,
    lines: DeclarationLines, st: ScanState)
    requires i < j && WellFormed(rest) && Spans(tokens, j, rest) && Context(tokens, j, prev2, prev1)
    requires st.opaqueDepth == 0 && ModuleItemsAllowed(st.stack)
    requires Run(tokens, i, j, st) == Recorded(st, tokens, j, lines)
    ensures Run(tokens, i, End(j, rest), st)
         == Recorded(st, tokens, End(j, rest), Plus(lines, LinesIn(rest, prev2, prev1)))
    decreases rest, 4
  {
    RunSplit(tokens, i, j, End(j, rest), st);
    ScanRecordsLines(tokens, j, rest, prev2, prev1, Recorded(st, tokens, j, lines));
    PlusAssociates(st.lines, lines, LinesIn(rest, prev2, prev1));
  }

  lemma {:induction false} GroupRecords(
    tokens: seq<ScannedToken>, i: nat, f: Forest, prev2: Option<ScannedToken>, prev1: Option<ScannedToken>, st: ScanState)
    requires f.Group? && WellFormed(f) && Spans(tokens, i, f) && Context(tokens, i, prev2, prev1)
    requires PendingMatches(tokens, i, st) && st.opaqueDepth == 0 && ModuleItemsAllowed(st.stack)
    ensures CloseIndex(i, f.inner) < |tokens|
    ensures Run(tokens, i, CloseIndex(i, f.inner) + 1, st)
         == Recorded(st, tokens, CloseIndex(i, f.inner) + 1, GroupLines(prev2, prev1, f))
    decreases f, 1
  {
    var k := CloseIndex(i, f.inner);
    AnnouncedMatchesClassify(tokens, i, prev2, prev1);
    EnterGroup(tokens, i, f);
    PlusAssociates(st.lines, NOTHING, NOTHING);
    match Classify(prev2, prev1, f.open)
    case OpaqueGroup => MacroGroupIsIgnored(tokens, i, k, f, st);
    case PlainGroup => OtherGroupIsIgnored(tokens, i, k, f, st);
    case ModuleGroup(name, startLine) => ModuleGroupRecords(tokens, i, k, f, st);
  }

  lemma {:induction false} ModuleGroupRecords(tokens: seq<ScannedToken>, i: nat, k: nat, f: Forest, st: ScanState)
    requires f.Group? && WellFormed(f) && k == CloseIndex(i, f.inner) && k < |tokens|
    requires tokens[i] == f.open && tokens[k] == f.close && Spans(tokens, i + 1, f.inner)
    requires st.opaqueDepth == 0 && ModuleItemsAllowed(st.stack)
    requires st.pendingModuleOpen == Some(i) && st.pendingOpaqueOpen.None?
    requires AnnouncedModule(tokens, i + 1).None? && AnnouncedOpaque(tokens, i + 1).None?
    requires AnnouncedModule(tokens, k).None? && AnnouncedOpaque(tokens, k).None?
    ensures Run(tokens, i, k + 1, st) == Recorded(st, tokens, k, LinesIn(f.inner, None, None))
    decreases f, 0
  {
    var pushed := OnOpen(i, f.open.kind.symbol, st);
    GroupSteps(tokens, i, k, st);
    ScanRecordsLines(tokens, i + 1, f.inner, None, None, pushed);
    ModuleOpenThenClose(i, f.open.kind.symbol, Plus(st.lines, LinesIn(f.inner, None, None)), st);
  }

  /** On every forest a keyword is recorded exactly when every block around it is an inline module. */
  lemma ScannerReadsDeclarations(tokens: seq<ScannedToken>, f: Forest)
    requires TreeOf(tokens, f)
    ensures Run(tokens, 0, |tokens|, START).lines == DeclaredLines(f)
  {
    ScanRecordsLines(tokens, 0, f, None, None, START);
    PlusAssociates(LinesIn(f, None, None), NOTHING, NOTHING);
    LinesAreKeywordLines(f, None, None);
  }

  // ---- The scanner's loop ----

  lemma RunNext(tokens: seq<ScannedToken>, i: nat)
    requires i < |tokens|
    ensures Run(tokens, 0, i + 1, START) == Step(tokens, i, Run(tokens, 0, i, START))
  {
    RunSplit(tokens, 0, i, i + 1, START);
  }

  method ScanDeclarationLines(tokens: seq<ScannedToken>) returns (lines: DeclarationLines)
    ensures lines == Run(tokens, 0, |tokens|, START).lines
    ensures forall f :: TreeOf(tokens, f) ==> lines == DeclaredLines(f)
  {
    var enums: seq<nat>, structs: seq<nat>, typeAliases: seq<nat> := [], [], [];
    var stack: seq<Block> := [];
    var opaqueDepth: nat := 0;
    var pendingModuleOpen: Option<nat> := None;
    var pendingOpaqueOpen: Option<nat> := None;
    for index := 0 to |tokens|
      invariant ScanState(DeclarationLines(enums, structs, typeAliases), stack, opaqueDepth, pendingModuleOpen, pendingOpaqueOpen)
             == Run(tokens, 0, index, START)
    {
      RunNext(tokens, index);
      var token := tokens[index];
      match token.kind {
        case Ident(keyword) =>
          if opaqueDepth == 0 && ModuleItemsAllowed(stack) {
            if keyword == "enum" {
              enums := enums + [token.line];
            } else if keyword == "struct" {
              structs := structs + [token.line];
            } else if keyword == "type" {
              typeAliases := typeAliases + [token.line];
            } else if keyword == "mod" && NameAt(tokens, index + 1) && KindAt(tokens, index + 2, Punct('{')) {
              pendingModuleOpen := Some(index + 2);
            }
          }
        case Punct(c) =>
          if c == '!' && opaqueDepth == 0 {
            if OpenAt(tokens, index + 1) {
              pendingOpaqueOpen := Some(index + 1);
            } else if NameAt(tokens, index + 1) && OpenAt(tokens, index + 2) {
              pendingOpaqueOpen := Some(index + 2);
            }
          } else if c in "{([" {
            if pendingOpaqueOpen == Some(index) {
              stack := stack + [MacroBody(MatchingClose(c))];
              opaqueDepth := opaqueDepth + 1;
              pendingOpaqueOpen := None;
            } else if pendingModuleOpen == Some(index) {
              stack := stack + [ModuleItems(MatchingClose(c))];
              pendingModuleOpen := None;
            } else {
              stack := stack + [OtherBlock(MatchingClose(c))];
            }
          } else if c in "})]" && stack != [] {
            var context := stack[|stack| - 1];
            stack := stack[..|stack| - 1];
            if context.MacroBody? && context.close == c {
              opaqueDepth := if opaqueDepth == 0 then 0 else opaqueDepth - 1;
            }
          }
      }
    }
    lines := DeclarationLines(enums, structs, typeAliases);
    forall f | TreeOf(tokens, f) ensures lines == DeclaredLines(f) {
      ScannerReadsDeclarations(tokens, f);
    }
  }
}
