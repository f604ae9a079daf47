/** The block-stack scanner for inline modules (statum-macros/src/source/parser/module_ranges.rs). */
module ModuleRanges {
  import opened Common
  import opened Lexer
  import opened TokenTree
  import opened Sorting

  datatype ModuleRange = ModuleRange(path: string, startLine: nat, endLine: nat, closeLine: nat, depth: nat)

  datatype BlockContext =
    | ModuleBlock(close: char, path: string, startLine: nat, depth: nat)
    | OpaqueBlock(close: char)
    | NormalBlock(close: char)

  function JoinPath(names: seq<string>): string {
    if names == [] then ""
    else if |names| == 1 then names[0]
    else JoinPath(names[..|names| - 1]) + "::" + names[|names| - 1]
  }

  // ---- The reference reading over token trees ----

  /** An inline module: the names on the way to it, the line of its `mod` and the line of its closing brace. */
  datatype InlineModule = InlineModule(names: seq<string>, startLine: nat, closeLine: nat)

  /** The inline modules of a forest below `path`, inner ones before the module that holds them. */
  function Modules(f: Forest, prev2: Option<ScannedToken>, prev1: Option<ScannedToken>, path: seq<string>): seq<InlineModule> {
    match f
    case Nil => []
    case Leaf(token, rest) => Modules(rest, prev1, Some(token), path)
    case Group(open, inner, close, rest) =>
      (match Classify(prev2, prev1, open)
       case OpaqueGroup => []
       case PlainGroup => Modules(inner, None, None, path)
       case ModuleGroup(name, startLine) =>
         Modules(inner, None, None, path + [name]) + [InlineModule(path + [name], startLine, close.line)])
      + Modules(rest, None, None, path)
  }

  function RangeOf(m: InlineModule): ModuleRange {
    ModuleRange(
      JoinPath(m.names), m.startLine, if m.closeLine > m.startLine then m.closeLine - 1 else m.closeLine,
      m.closeLine, |m.names|)
  }

  function RangesOf(ms: seq<InlineModule>): (r: seq<ModuleRange>)
    ensures |r| == |ms| && forall i :: 0 <= i < |ms| ==> r[i] == RangeOf(ms[i])
  {
    Map(m => RangeOf(m), ms)
  }

  function ModulesOf(f: Forest): seq<InlineModule> {
    Modules(f, None, None, [])
  }

  // ---- The final stable sort by depth and start line ----

  predicate KeyBelow(a: ModuleRange, b: ModuleRange) {
    a.depth < b.depth || (a.depth == b.depth && a.startLine <= b.startLine)
  }

  const BY_KEY: (ModuleRange, ModuleRange) -> bool := (a: ModuleRange, b: ModuleRange) => KeyBelow(a, b)

  function SortRanges(ranges: seq<ModuleRange>): seq<ModuleRange> {
    SortBy(BY_KEY, ranges)
  }

  ghost predicate SortedByKey(s: seq<ModuleRange>) {
    forall i, j :: 0 <= i < j < |s| ==> KeyBelow(s[i], s[j])
  }

  /** The sort is a permutation ordered by depth, then start line. */
  lemma SortRangesSorts(ranges: seq<ModuleRange>)
    ensures SortedByKey(SortRanges(ranges))
    ensures multiset(SortRanges(ranges)) == multiset(ranges)
    ensures forall i, j :: 0 <= i < j < |SortRanges(ranges)| ==>
              var a, b := SortRanges(ranges)[i], SortRanges(ranges)[j];
              a.depth < b.depth || (a.depth == b.depth && a.startLine <= b.startLine)
  {
    SortBySorts(BY_KEY, ranges);
    var sorted := SortRanges(ranges);
    forall i, j | 0 <= i < j < |sorted| ensures KeyBelow(sorted[i], sorted[j]) {
      assert BY_KEY(sorted[i], sorted[j]);
    }
  }

  // ---- The scanner as a machine ----

  datatype ScanState = ScanState(
    ranges: seq<ModuleRange>,
    activeModules: seq<string>,
    blockStack: seq<BlockContext>,
    opaqueDepth: nat,
    pendingModule: Option<PendingModule>,
    pendingOpaqueOpen: Option<nat>)

  const INITIAL := ScanState([], [], [], 0, None, None)

  function OnMod(tokens: seq<ScannedToken>, i: nat, st: ScanState): ScanState
    requires i < |tokens|
  {
    if NameAt(tokens, i + 1) && KindAt(tokens, i + 2, Punct('{')) then
      st.(pendingModule := Some(PendingModule(i + 2, tokens[i + 1].kind.name, tokens[i].line)))
    else st
  }

  function OnMark(tokens: seq<ScannedToken>, i: nat, st: ScanState): ScanState {
    if OpenAt(tokens, i + 1) then st.(pendingOpaqueOpen := Some(i + 1))
    else if NameAt(tokens, i + 1) && OpenAt(tokens, i + 2) then st.(pendingOpaqueOpen := Some(i + 2))
    else st
  }

  function OnOpen(i: nat, open: char, st: ScanState): ScanState {
    if st.pendingOpaqueOpen == Some(i) then
      st.(blockStack := st.blockStack + [OpaqueBlock(MatchingClose(open))],
          opaqueDepth := st.opaqueDepth + 1, pendingOpaqueOpen := None)
    else if open == '{' && st.pendingModule.Some? && st.pendingModule.value.openIndex == i then
      var names := st.activeModules + [st.pendingModule.value.name];
      st.(pendingModule := None, activeModules := names,
          blockStack := st.blockStack + [ModuleBlock('}', JoinPath(names), st.pendingModule.value.startLine, |names|)])
    else st.(blockStack := st.blockStack + [NormalBlock(MatchingClose(open))])
  }

  function OnClose(close: char, line: nat, st: ScanState): ScanState {
    if st.blockStack == [] then st
    else
      var context, popped := st.blockStack[|st.blockStack| - 1], st.(blockStack := st.blockStack[..|st.blockStack| - 1]);
      if context.close != close then popped
      else match context
        case ModuleBlock(_, path, startLine, depth) =>
          popped.(ranges := st.ranges + [ModuleRange(path, startLine, if line > startLine then line - 1 else line, line, depth)],
                  activeModules := if st.activeModules == [] then [] else st.activeModules[..|st.activeModules| - 1])
        case OpaqueBlock(_) => popped.(opaqueDepth := if st.opaqueDepth == 0 then 0 else st.opaqueDepth - 1)
        case NormalBlock(_) => popped
  }

  function Step(tokens: seq<ScannedToken>, i: nat, st: ScanState): ScanState
    requires i < |tokens|
  {
    match tokens[i].kind
    case Ident(keyword) => if st.opaqueDepth == 0 && keyword == "mod" then OnMod(tokens, i, st) else st
    case Punct(c) =>
      if c == '!' && st.opaqueDepth == 0 then OnMark(tokens, i, st)
      else if c in "{([" then OnOpen(i, c, st)
      else if c in "})]" then OnClose(c, tokens[i].line, st)
      else st
  }

  /** The state after tokens i..j, starting from `st` before token i. */
  function Run(tokens: seq<ScannedToken>, i: nat, j: nat, st: ScanState): ScanState
    requires i <= j <= |tokens|
    decreases j - i
  {
    if i == j then st else Run(tokens, i + 1, j, Step(tokens, i, st))
  }

  lemma {:induction false} RunSplit(tokens: seq<ScannedToken>, i: nat, j: nat, k: nat, st: ScanState)
    requires i <= j <= k <= |tokens|
    ensures Run(tokens, i, k, st) == Run(tokens, j, k, Run(tokens, i, j, st))
    decreases j - i
  {
    if i == j {
    } else {
      RunSplit(tokens, i + 1, j, k, Step(tokens, i, st));
    }
  }

  // ---- The machine refines the recursive reading ----

  ghost predicate PendingMatches(tokens: seq<ScannedToken>, i: nat, st: ScanState) {
    st.pendingModule == AnnouncedModule(tokens, i) && st.pendingOpaqueOpen == AnnouncedOpaque(tokens, i)
  }

  /** Inside a macro body the scanner only pushes and pops; the state comes back unchanged. */
  lemma {:induction false} OpaqueBodyIsIgnored(tokens: seq<ScannedToken>, i: nat, f: Forest, st: ScanState)
    requires WellFormed(f) && Spans(tokens, i, f)
    requires st.opaqueDepth > 0 && st.pendingModule.None? && st.pendingOpaqueOpen.None?
    ensures Run(tokens, i, End(i, f), st) == st
    decreases f
  {
    match f
    case Nil =>
    case Leaf(token, rest) =>
      OpaqueBodyIsIgnored(tokens, i + 1, rest, st);
    case Group(open, inner, close, rest) =>
      var k, n := CloseIndex(i, inner), End(i, f);
      var pushed := Step(tokens, i, st);
      OpaqueBodyIsIgnored(tokens, i + 1, inner, pushed);
      RunSplit(tokens, i + 1, k, n, pushed);
      assert Step(tokens, k, pushed) == st;
      OpaqueBodyIsIgnored(tokens, k + 1, rest, st);
  }

  /** After a leaf, what is pending is again what has been announced. */
  lemma LeafKeepsPending(tokens: seq<ScannedToken>, i: nat, st: ScanState)
    requires i < |tokens| && !BracketAt(tokens, i)
    requires PendingMatches(tokens, i, st) && st.opaqueDepth == 0
    ensures var next := Step(tokens, i, st);
            && PendingMatches(tokens, i + 1, next)
            && next == st.(pendingModule := next.pendingModule, pendingOpaqueOpen := next.pendingOpaqueOpen)
  {
  }

  lemma JoinPathGrows(names: seq<string>, name: string)
    ensures JoinPath(names + [name]) == if names == [] then name else JoinPath(names) + "::" + name
  {
    assert (names + [name])[..|names|] == names;
  }

  ghost function Collected(st: ScanState, tokens: seq<ScannedToken>, i: nat, found: seq<InlineModule>): ScanState {
    st.(ranges := st.ranges + RangesOf(found),
        pendingModule := AnnouncedModule(tokens, i), pendingOpaqueOpen := AnnouncedOpaque(tokens, i))
  }

  /** Outside macro bodies, scanning a forest records exactly its modules and restores the stack. */
  lemma {:induction false} ScanCollectsModules(
    tokens: seq<ScannedToken>, i: nat, f: Forest, prev2: Option<ScannedToken>, prev1: Option<ScannedToken>, st: ScanState)
    requires WellFormed(f) && Spans(tokens, i, f) && Context(tokens, i, prev2, prev1)
    requires PendingMatches(tokens, i, st) && st.opaqueDepth == 0
    ensures Run(tokens, i, End(i, f), st)
         == Collected(st, tokens, End(i, f), Modules(f, prev2, prev1, st.activeModules))
    decreases f, 2
  {
    match f
    case Nil =>
      assert st.ranges + RangesOf([]) == st.ranges;
    case Leaf(token, rest) =>
      LeafKeepsPending(tokens, i, st);
      var next, n := Step(tokens, i, st), End(i, f);
      ScanCollectsModules(tokens, i + 1, rest, prev1, Some(token), next);
      assert Run(tokens, i, n, st) == Run(tokens, i + 1, n, next);
      assert Modules(f, prev2, prev1, st.activeModules) == Modules(rest, prev1, Some(token), st.activeModules);
    case Group(open, inner, close, rest) =>
      var k := CloseIndex(i, inner);
      EnterGroup(tokens, i, f);
      var found := GroupModules(prev2, prev1, st.activeModules, f);
      GroupScan(tokens, i, f, prev2, prev1, st);
      ScanAfterGroup(tokens, i, k + 1, rest, found, st);
      assert Modules(f, prev2, prev1, st.activeModules) == found + Modules(rest, None, None, st.activeModules);
  }

  lemma CollectedTwice(st: ScanState, tokens: seq<ScannedToken>, i: nat, j: nat, a: seq<InlineModule>, b: seq<InlineModule>)
    ensures Collected(Collected(st, tokens, i, a), tokens, j, b) == Collected(st, tokens, j, a + b)
  {
    assert st.ranges + RangesOf(a) + RangesOf(b) == st.ranges + RangesOf(a + b);
  }

  lemma {:induction false} ScanAfterGroup(
    tokens: seq<ScannedToken>, i: nat, j: nat, rest: Forest, found: seq<InlineModule>, st: ScanState)
    requires i < j && WellFormed(rest) && Spans(tokens, j, rest) && BracketAt(tokens, j - 1) && st.opaqueDepth == 0
    requires Run(tokens, i, j, st) == Collected(st, tokens, j, found)
    ensures Run(tokens, i, End(j, rest), st)
         == Collected(st, tokens, End(j, rest), found + Modules(rest, None, None, st.activeModules))
    decreases rest, 3
  {
    RunSplit(tokens, i, j, End(j, rest), st);
    ScanCollectsModules(tokens, j, rest, None, None, Collected(st, tokens, j, found));
    CollectedTwice(st, tokens, j, End(j, rest), found, Modules(rest, None, None, st.activeModules));
  }

  /** The modules a single group contributes. */
  ghost function GroupModules(
    prev2: Option<ScannedToken>, prev1: Option<ScannedToken>, path: seq<string>, f: Forest): seq<InlineModule>
    requires f.Group?
  {
    match Classify(prev2, prev1, f.open)
    case OpaqueGroup => []
    case PlainGroup => Modules(f.inner, None, None, path)
    case ModuleGroup(name, startLine) =>
      Modules(f.inner, None, None, path + [name]) + [InlineModule(path + [name], startLine, f.close.line)]
  }

  lemma GroupSteps(tokens: seq<ScannedToken>, i: nat, k: nat, st: ScanState)
    requires i < k < |tokens| && IsOpen(tokens[i].kind) && IsClose(tokens[k].kind)
    ensures Run(tokens, i, k + 1, st)
         == OnClose(tokens[k].kind.symbol, tokens[k].line, Run(tokens, i + 1, k, OnOpen(i, tokens[i].kind.symbol, st)))
  {
    RunSplit(tokens, i + 1, k, k + 1, Step(tokens, i, st));
  }

  lemma {:induction false} GroupScan(
    tokens: seq<ScannedToken>, i: nat, f: Forest, prev2: Option<ScannedToken>, prev1: Option<ScannedToken>, st: ScanState)
    requires f.Group? && WellFormed(f) && Spans(tokens, i, f) && Context(tokens, i, prev2, prev1)
    requires PendingMatches(tokens, i, st) && st.opaqueDepth == 0
    ensures CloseIndex(i, f.inner) < |tokens|
    ensures Run(tokens, i, CloseIndex(i, f.inner) + 1, st)
         == Collected(st, tokens, CloseIndex(i, f.inner) + 1, GroupModules(prev2, prev1, st.activeModules, f))
    decreases f, 1
  {
    var k := CloseIndex(i, f.inner);
    AnnouncedMatchesClassify(tokens, i, prev2, prev1);
    EnterGroup(tokens, i, f);
    GroupSteps(tokens, i, k, st);
    match Classify(prev2, prev1, f.open)
    case OpaqueGroup =>
      OpaqueGroupScan(tokens, i, k, f, st);
    case PlainGroup =>
      PlainGroupScan(tokens, i, k, f, st);
    case ModuleGroup(name, startLine) =>
      ModuleGroupScan(tokens, i, k, f, name, startLine, st);
  }

  lemma OpaqueGroupScan(tokens: seq<ScannedToken>, i: nat, k: nat, f: Forest, st: ScanState)
    requires f.Group? && WellFormed(f) && k == CloseIndex(i, f.inner) && k < |tokens|
    requires tokens[i] == f.open && tokens[k] == f.close && Spans(tokens, i + 1, f.inner)
    requires st.opaqueDepth == 0 && st.pendingModule.None? && st.pendingOpaqueOpen == Some(i)
    requires AnnouncedModule(tokens, k).None? && AnnouncedOpaque(tokens, k).None?
    ensures OnClose(f.close.kind.symbol, f.close.line, Run(tokens, i + 1, k, OnOpen(i, f.open.kind.symbol, st)))
         == Collected(st, tokens, k, [])
  {
    var pushed := OnOpen(i, f.open.kind.symbol, st);
    OpaqueBodyIsIgnored(tokens, i + 1, f.inner, pushed);
    assert st.ranges + RangesOf([]) == st.ranges;
    assert pushed.blockStack[..|pushed.blockStack| - 1] == st.blockStack;
  }

  lemma {:induction false} PlainGroupScan(tokens: seq<ScannedToken>, i: nat, k: nat, f: Forest, st: ScanState)
    requires f.Group? && WellFormed(f) && k == CloseIndex(i, f.inner) && k < |tokens|
    requires tokens[i] == f.open && tokens[k] == f.close && Spans(tokens, i + 1, f.inner)
    requires st.opaqueDepth == 0 && st.pendingModule.None? && st.pendingOpaqueOpen.None?
    requires AnnouncedModule(tokens, i + 1).None? && AnnouncedOpaque(tokens, i + 1).None?
    ensures OnClose(f.close.kind.symbol, f.close.line, Run(tokens, i + 1, k, OnOpen(i, f.open.kind.symbol, st)))
         == Collected(st, tokens, k, Modules(f.inner, None, None, st.activeModules))
    decreases f, 0
  {
    var pushed := OnOpen(i, f.open.kind.symbol, st);
    ScanCollectsModules(tokens, i + 1, f.inner, None, None, pushed);
    assert pushed.blockStack[..|pushed.blockStack| - 1] == st.blockStack;
  }

  lemma {:induction false} ModuleGroupScan(
    tokens: seq<ScannedToken>, i: nat, k: nat, f: Forest, name: string, startLine: nat, st: ScanState)
    requires f.Group? && WellFormed(f) && k == CloseIndex(i, f.inner) && k < |tokens|
    requires tokens[i] == f.open && tokens[k] == f.close && Spans(tokens, i + 1, f.inner) && f.open.kind.symbol == '{'
    requires st.opaqueDepth == 0 && st.pendingModule == Some(PendingModule(i, name, startLine)) && st.pendingOpaqueOpen.None?
    requires AnnouncedModule(tokens, i + 1).None? && AnnouncedOpaque(tokens, i + 1).None?
    ensures OnClose(f.close.kind.symbol, f.close.line, Run(tokens, i + 1, k, OnOpen(i, f.open.kind.symbol, st)))
         == Collected(st, tokens, k, Modules(f.inner, None, None, st.activeModules + [name])
                                     + [InlineModule(st.activeModules + [name], startLine, f.close.line)])
    decreases f, 0
  {
    var pushed := OnOpen(i, f.open.kind.symbol, st);
    ScanCollectsModules(tokens, i + 1, f.inner, None, None, pushed);
    var nested := Modules(f.inner, None, None, pushed.activeModules);
    var self := InlineModule(st.activeModules + [name], startLine, f.close.line);
    assert st.ranges + RangesOf(nested) + [RangeOf(self)] == st.ranges + RangesOf(nested + [self]);
    assert pushed.activeModules[..|pushed.activeModules| - 1] == st.activeModules;
    assert pushed.blockStack[..|pushed.blockStack| - 1] == st.blockStack;
  }

  /** On every forest the scanner's ranges are the sorted modules of the recursive reading. */
  lemma ScannerReadsModules(tokens: seq<ScannedToken>, f: Forest)
    requires TreeOf(tokens, f)
    ensures Run(tokens, 0, |tokens|, INITIAL).ranges == RangesOf(ModulesOf(f))
  {
    ScanCollectsModules(tokens, 0, f, None, None, INITIAL);
    assert [] + RangesOf(ModulesOf(f)) == RangesOf(ModulesOf(f));
  }

  // ---- The scanner's loop ----

  lemma RunNext(tokens: seq<ScannedToken>, i: nat)
    requires i < |tokens|
    ensures Run(tokens, 0, i + 1, INITIAL) == Step(tokens, i, Run(tokens, 0, i, INITIAL))
  {
    RunSplit(tokens, 0, i, i + 1, INITIAL);
  }

  lemma EveryTreeIsRead(tokens: seq<ScannedToken>)
    ensures forall f :: TreeOf(tokens, f) ==> Run(tokens, 0, |tokens|, INITIAL).ranges == RangesOf(ModulesOf(f))
  {
    forall f | TreeOf(tokens, f) ensures Run(tokens, 0, |tokens|, INITIAL).ranges == RangesOf(ModulesOf(f)) {
      ScannerReadsModules(tokens, f);
    }
  }

  method ScanInlineModuleRanges(tokens: seq<ScannedToken>) returns (ranges: seq<ModuleRange>)
    ensures ranges == SortRanges(Run(tokens, 0, |tokens|, INITIAL).ranges)
    ensures forall f :: TreeOf(tokens, f) ==> ranges == SortRanges(RangesOf(ModulesOf(f)))
  {
    ranges := [];
    var activeModules: seq<string> := [];
    var blockStack: seq<BlockContext> := [];
    var opaqueDepth: nat := 0;
    var pendingModule: Option<PendingModule> := None;
    var pendingOpaqueOpen: Option<nat> := None;
    for index := 0 to |tokens|
      invariant ScanState(ranges, activeModules, blockStack, opaqueDepth, pendingModule, pendingOpaqueOpen)
             == Run(tokens, 0, index, INITIAL)
    {
      RunNext(tokens, index);
      var token := tokens[index];
      match token.kind {
        case Ident(keyword) =>
          if opaqueDepth == 0 && keyword == "mod" {
            if NameAt(tokens, index + 1) && KindAt(tokens, index + 2, Punct('{')) {
              pendingModule := Some(PendingModule(index + 2, tokens[index + 1].kind.name, token.line));
            }
          }
        case Punct(c) =>
          if c == '!' && opaqueDepth == 0 {
            if OpenAt(tokens, index + 1) {
              pendingOpaqueOpen := Some(index + 1);
            } else if NameAt(tokens, index + 1) && OpenAt(tokens, index + 2) {
              pendingOpaqueOpen := Some(index + 2);
            }
          } else if c in "{([" {
            if pendingOpaqueOpen == Some(index) {
              blockStack := blockStack + [OpaqueBlock(MatchingClose(c))];
              opaqueDepth := opaqueDepth + 1;
              pendingOpaqueOpen := None;
            } else if c == '{' && pendingModule.Some? && pendingModule.value.openIndex == index {
              var pending := pendingModule.value;
              pendingModule := None;
              var path := if activeModules == [] then pending.name else JoinPath(activeModules) + "::" + pending.name;
              JoinPathGrows(activeModules, pending.name);
              var depth := |activeModules| + 1;
              activeModules := activeModules + [pending.name];
              blockStack := blockStack + [ModuleBlock('}', path, pending.startLine, depth)];
            } else {
              blockStack := blockStack + [NormalBlock(MatchingClose(c))];
            }
          } else if c in "})]" && blockStack != [] {
            var context := blockStack[|blockStack| - 1];
            blockStack := blockStack[..|blockStack| - 1];
            match context {
              case ModuleBlock(expected, path, startLine, depth) =>
                if expected == c {
                  var endLine := if token.line > startLine then token.line - 1 else token.line;
                  ranges := ranges + [ModuleRange(path, startLine, endLine, token.line, depth)];
                  if activeModules != [] {
                    activeModules := activeModules[..|activeModules| - 1];
                  }
                }
              case OpaqueBlock(expected) =>
                if expected == c {
                  opaqueDepth := if opaqueDepth == 0 then 0 else opaqueDepth - 1;
                }
              case NormalBlock(expected) =>
            }
          }
      }
    }
    EveryTreeIsRead(tokens);
    ranges := SortRanges(ranges);
  }

  // ---- Shape of the modules ----

  /** Lines do not decrease through the forest and stay within [lo, hi]. */
  ghost predicate Ordered(f: Forest, lo: nat, hi: nat) {
    match f
    case Nil => lo <= hi
    case Leaf(token, rest) => lo <= token.line && Ordered(rest, token.line, hi)
    case Group(open, inner, close, rest) =>
      lo <= open.line && Ordered(inner, open.line, close.line) && Ordered(rest, close.line, hi)
  }

  lemma {:induction false} OrderedBounds(f: Forest, lo: nat, hi: nat)
    requires Ordered(f, lo, hi)
    ensures lo <= hi
    decreases f
  {
    match f
    case Nil =>
    case Leaf(token, rest) => OrderedBounds(rest, token.line, hi);
    case Group(open, inner, close, rest) =>
      OrderedBounds(inner, open.line, close.line);
      OrderedBounds(rest, close.line, hi);
  }

  lemma {:induction false} NondecreasingIsOrdered(tokens: seq<ScannedToken>, i: nat, f: Forest, lo: nat, hi: nat)
    requires LinesNondecreasing(tokens) && Spans(tokens, i, f) && lo <= hi
    requires i < |tokens| ==> lo <= tokens[i].line
    requires i < End(i, f) ==> tokens[End(i, f) - 1].line <= hi
    ensures Ordered(f, lo, hi)
    decreases f
  {
    match f
    case Nil =>
    case Leaf(token, rest) =>
      NondecreasingIsOrdered(tokens, i + 1, rest, token.line, hi);
    case Group(open, inner, close, rest) =>
      var k := CloseIndex(i, inner);
      NondecreasingIsOrdered(tokens, i + 1, inner, open.line, close.line);
      NondecreasingIsOrdered(tokens, k + 1, rest, close.line, hi);
  }

  ghost function FirstLine(prev2: Option<ScannedToken>, prev1: Option<ScannedToken>, lo: nat): nat {
    if prev2.Some? then prev2.value.line else if prev1.Some? then prev1.value.line else lo
  }

  ghost predicate ContextLines(prev2: Option<ScannedToken>, prev1: Option<ScannedToken>, lo: nat) {
    && (prev1.Some? ==> prev1.value.line <= lo)
    && (prev2.Some? ==> prev1.Some? && prev2.value.line <= prev1.value.line)
  }

  ghost predicate ProperPrefix<T>(a: seq<T>, b: seq<T>) {
    a < b
  }

  /** A module lies within the lines of its forest, below the path it was found under. */
  lemma {:induction false} ModuleBounds(
    f: Forest, prev2: Option<ScannedToken>, prev1: Option<ScannedToken>, path: seq<string>, lo: nat, hi: nat, m: InlineModule)
    requires Ordered(f, lo, hi) && ContextLines(prev2, prev1, lo)
    requires m in Modules(f, prev2, prev1, path)
    ensures FirstLine(prev2, prev1, lo) <= m.startLine <= m.closeLine <= hi
    ensures ProperPrefix(path, m.names)
    decreases f
  {
    match f
    case Nil =>
    case Leaf(token, rest) =>
      ModuleBounds(rest, prev1, Some(token), path, token.line, hi, m);
    case Group(open, inner, close, rest) =>
      OrderedBounds(inner, open.line, close.line);
      OrderedBounds(rest, close.line, hi);
      if m in Modules(rest, None, None, path) {
        ModuleBounds(rest, None, None, path, close.line, hi, m);
      } else {
        var kind := Classify(prev2, prev1, open);
        var below := if kind.ModuleGroup? then path + [kind.name] else path;
        if m in Modules(inner, None, None, below) {
          ModuleBounds(inner, None, None, below, open.line, close.line, m);
        }
      }
  }

  ghost predicate Encloses(outer: InlineModule, inner: InlineModule) {
    ProperPrefix(outer.names, inner.names) && outer.startLine <= inner.startLine && inner.closeLine <= outer.closeLine
  }

  /** Two modules, the first listed earlier: nested in the second, or closed before the second starts. */
  ghost predicate NestedOrApart(earlier: InlineModule, later: InlineModule) {
    Encloses(later, earlier) || earlier.closeLine <= later.startLine
  }

  ghost predicate Laminar(ms: seq<InlineModule>) {
    forall i, j :: 0 <= i < j < |ms| ==> NestedOrApart(ms[i], ms[j])
  }

  lemma LaminarConcat(a: seq<InlineModule>, b: seq<InlineModule>)
    requires Laminar(a) && Laminar(b)
    requires forall x, y :: x in a && y in b ==> NestedOrApart(x, y)
    ensures Laminar(a + b)
  {
    forall i, j | 0 <= i < j < |a + b| ensures NestedOrApart((a + b)[i], (a + b)[j]) {
      if i < |a| <= j {
        assert a[i] in a && b[j - |a|] in b;
      }
    }
  }

  /** When lines do not decrease, module ranges never overlap without nesting. */
  lemma {:induction false} ModulesAreLaminar(
    f: Forest, prev2: Option<ScannedToken>, prev1: Option<ScannedToken>, path: seq<string>, lo: nat, hi: nat)
    requires Ordered(f, lo, hi) && ContextLines(prev2, prev1, lo)
    ensures Laminar(Modules(f, prev2, prev1, path))
    decreases f
  {
    match f
    case Nil =>
    case Leaf(token, rest) =>
      ModulesAreLaminar(rest, prev1, Some(token), path, token.line, hi);
    case Group(open, inner, close, rest) =>
      OrderedBounds(inner, open.line, close.line);
      var kind := Classify(prev2, prev1, open);
      var below := if kind.ModuleGroup? then path + [kind.name] else path;
      var nested, others := Modules(inner, None, None, below), Modules(rest, None, None, path);
      ModulesAreLaminar(inner, None, None, below, open.line, close.line);
      ModulesAreLaminar(rest, None, None, path, close.line, hi);
      forall x | x in nested ensures open.line <= x.startLine <= x.closeLine <= close.line && ProperPrefix(below, x.names) {
        ModuleBounds(inner, None, None, below, open.line, close.line, x);
      }
      forall y | y in others ensures close.line <= y.startLine {
        ModuleBounds(rest, None, None, path, close.line, hi, y);
      }
      match kind {
        case OpaqueGroup =>
          assert Modules(f, prev2, prev1, path) == others;
        case PlainGroup =>
          LaminarConcat(nested, others);
        case ModuleGroup(name, startLine) =>
          var self := InlineModule(below, startLine, close.line);
          LaminarConcat(nested, [self]);
          LaminarConcat(nested + [self], others);
      }
  }

  lemma LaminarModules(tokens: seq<ScannedToken>, f: Forest)
    requires TreeOf(tokens, f) && LinesNondecreasing(tokens)
    ensures Laminar(ModulesOf(f))
  {
    var hi := LastLine(tokens);
    NondecreasingIsOrdered(tokens, 0, f, 0, hi);
    ModulesAreLaminar(f, None, None, [], 0, hi);
  }

  ghost function LastLine(tokens: seq<ScannedToken>): nat {
    if tokens == [] then 0 else tokens[|tokens| - 1].line
  }

  /** A nested module's path is the path of a listed enclosing module plus its own name. */
  lemma {:induction false} ParentIsListed(
    f: Forest, prev2: Option<ScannedToken>, prev1: Option<ScannedToken>, path: seq<string>, lo: nat, hi: nat, m: InlineModule)
    returns (parent: InlineModule)
    requires Ordered(f, lo, hi) && ContextLines(prev2, prev1, lo)
    requires m in Modules(f, prev2, prev1, path) && |m.names| > |path| + 1
    ensures parent in Modules(f, prev2, prev1, path) && Encloses(parent, m)
    ensures m.names == parent.names + [m.names[|m.names| - 1]]
    decreases f
  {
    match f
    case Nil =>
    case Leaf(token, rest) =>
      parent := ParentIsListed(rest, prev1, Some(token), path, token.line, hi, m);
    case Group(open, inner, close, rest) =>
      OrderedBounds(inner, open.line, close.line);
      var kind := Classify(prev2, prev1, open);
      var below := if kind.ModuleGroup? then path + [kind.name] else path;
      if m in Modules(rest, None, None, path) {
        parent := ParentIsListed(rest, None, None, path, close.line, hi, m);
      } else if |m.names| > |below| + 1 {
        parent := ParentIsListed(inner, None, None, below, open.line, close.line, m);
      } else {
        ModuleBounds(inner, None, None, below, open.line, close.line, m);
        parent := InlineModule(below, kind.startLine, close.line);
        assert m.names == below + [m.names[|below|]];
      }
  }
}
