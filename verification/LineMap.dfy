/** The per-line module map and its lookup (statum-macros/src/source/parser/line_map.rs, mod.rs). */
module LineMap {
  import opened Common
  import opened Lexer
  import opened TokenTree
  import opened ModuleRanges
  import opened Sorting
  import opened Text
  import Aliases

  datatype LineModulePath = Unset | Exact(path: string, depth: nat) | Ambiguous

  datatype LineCoverage = LineCoverage(path: string, depth: nat, closeBoundary: bool)

  // ---- Which ranges cover a line ----

  predicate Covers(range: ModuleRange, line: nat) {
    range.startLine != 0 && range.startLine <= line <= range.endLine
  }

  function CoverageOf(range: ModuleRange, line: nat): LineCoverage {
    LineCoverage(range.path, range.depth, line == range.closeLine)
  }

  function CoveragesOf(ranges: seq<ModuleRange>, line: nat): seq<LineCoverage> {
    if ranges == [] then []
    else
      var last := ranges[|ranges| - 1];
      CoveragesOf(ranges[..|ranges| - 1], line) + if Covers(last, line) then [CoverageOf(last, line)] else []
  }

  lemma {:induction false} CoverageMembers(ranges: seq<ModuleRange>, line: nat, c: LineCoverage)
    ensures c in CoveragesOf(ranges, line) <==> exists r :: r in ranges && Covers(r, line) && c == CoverageOf(r, line)
  {
    if ranges == [] {
    } else {
      var front, last := ranges[..|ranges| - 1], ranges[|ranges| - 1];
      CoverageMembers(front, line, c);
      assert ranges == front + [last];
    }
  }

  method AddLineRange(coverages: array<seq<LineCoverage>>, range: ModuleRange)
    modifies coverages
    ensures forall i :: 0 <= i < coverages.Length ==>
              coverages[i] == old(coverages[i]) + if Covers(range, i + 1) then [CoverageOf(range, i + 1)] else []
  {
    if range.startLine == 0 || range.endLine < range.startLine {
      return;
    }
    for line := range.startLine to range.endLine + 1
      invariant forall i :: 0 <= i < coverages.Length ==>
        coverages[i] == old(coverages[i]) + if range.startLine <= i + 1 < line then [CoverageOf(range, i + 1)] else []
    {
      if line - 1 < coverages.Length {
        coverages[line - 1] := coverages[line - 1] + [LineCoverage(range.path, range.depth, line == range.closeLine)];
      }
    }
  }

  // ---- Resolving the coverages of one line ----

  function MaxDepth(coverages: seq<LineCoverage>): nat
    requires coverages != []
  {
    var last := coverages[|coverages| - 1].depth;
    if |coverages| == 1 then last
    else
      var front := MaxDepth(coverages[..|coverages| - 1]);
      if front > last then front else last
  }

  const BY_PATH: (LineCoverage, LineCoverage) -> bool :=
    (a: LineCoverage, b: LineCoverage) => TextAtMost(a.path, b.path)

  /** Drops each element whose path equals that of the element kept before it. */
  function DedupByPath(coverages: seq<LineCoverage>): seq<LineCoverage> {
    if |coverages| <= 1 then coverages
    else
      var front := DedupByPath(coverages[..|coverages| - 1]);
      var last := coverages[|coverages| - 1];
      if front != [] && front[|front| - 1].path == last.path then front else front + [last]
  }

  function Deepest(coverages: seq<LineCoverage>, depth: nat): seq<LineCoverage> {
    Filter((c: LineCoverage) => c.depth == depth, coverages)
  }

  function ResolveLineCoverage(coverages: seq<LineCoverage>): LineModulePath {
    if coverages == [] then Unset
    else
      var deepest := DedupByPath(SortBy(BY_PATH, Deepest(coverages, MaxDepth(coverages))));
      if |deepest| != 1 then Ambiguous
      else if (exists c :: c in coverages && c.path != deepest[0].path) && deepest[0].closeBoundary then Ambiguous
      else Exact(deepest[0].path, deepest[0].depth)
  }

  lemma {:induction false} MaxDepthIsMax(coverages: seq<LineCoverage>)
    requires coverages != []
    ensures forall c :: c in coverages ==> c.depth <= MaxDepth(coverages)
    ensures exists c :: c in coverages && c.depth == MaxDepth(coverages)
  {
    var front, last := coverages[..|coverages| - 1], coverages[|coverages| - 1];
    assert last in coverages;
    if |coverages| <= 1 {
    } else {
      MaxDepthIsMax(front);
      forall c | c in coverages ensures c.depth <= MaxDepth(coverages) {
        assert c in front || c == last;
      }
      var c :| c in front && c.depth == MaxDepth(front);
      assert c in coverages;
    }
  }

  /** When all paths agree, sorting changes nothing. */
  lemma OnePathSorts(coverages: seq<LineCoverage>, path: string)
    requires forall c :: c in coverages ==> c.path == path
    ensures SortBy(BY_PATH, coverages) == coverages
  {
    TextOrder(path, path, path);
    forall i, j | 0 <= i < j < |coverages| ensures BY_PATH(coverages[i], coverages[j]) {
      assert coverages[i] in coverages && coverages[j] in coverages;
    }
    SortedStays(BY_PATH, coverages);
  }

  /** When all paths agree, deduplication keeps the first coverage. */
  lemma {:induction false} OnePathDedups(coverages: seq<LineCoverage>, path: string)
    requires coverages != [] && forall c :: c in coverages ==> c.path == path
    ensures DedupByPath(coverages) == [coverages[0]]
  {
    assert coverages[0] in coverages && coverages[|coverages| - 1] in coverages;
    if |coverages| <= 1 {
    } else {
      OnePathDedups(coverages[..|coverages| - 1], path);
    }
  }

  /** A single deepest path with no closing line on it decides the line. */
  lemma DominantCoverage(coverages: seq<LineCoverage>, path: string, depth: nat)
    requires exists c :: c in coverages && c.depth == depth
    requires forall c :: c in coverages ==> c.depth < depth || (c.depth == depth && c.path == path)
    requires forall c :: c in coverages ==> !c.closeBoundary
    ensures ResolveLineCoverage(coverages) == Exact(path, depth)
  {
    MaxDepthIsMax(coverages);
    var deepest := Deepest(coverages, depth);
    var c :| c in coverages && c.depth == depth;
    assert c in deepest;
    OnePathSorts(deepest, path);
    OnePathDedups(deepest, path);
    assert deepest[0] in deepest;
  }

  /** The first of the coverages with the greatest depth. */
  ghost predicate FirstDeepest(coverages: seq<LineCoverage>, k: nat) {
    && k < |coverages|
    && (forall c :: c in coverages ==> c.depth <= coverages[k].depth)
    && forall j :: 0 <= j < k ==> coverages[j].depth < coverages[k].depth
  }

  /** All coverages as deep as `top` have its path, and all coverages at all do when a module closes there. */
  ghost predicate Decides(coverages: seq<LineCoverage>, top: LineCoverage) {
    && (forall c :: c in coverages && c.depth == top.depth ==> c.path == top.path)
    && (top.closeBoundary ==> forall c :: c in coverages ==> c.path == top.path)
  }

  lemma {:induction false} FirstDeepestExists(coverages: seq<LineCoverage>) returns (k: nat)
    requires coverages != []
    ensures FirstDeepest(coverages, k) && coverages[k].depth == MaxDepth(coverages)
  {
    MaxDepthIsMax(coverages);
    k := 0;
    while coverages[k].depth < MaxDepth(coverages)
      invariant 0 <= k < |coverages|
      invariant forall j :: 0 <= j < k ==> coverages[j].depth < MaxDepth(coverages)
      decreases |coverages| - k
    {
      assert exists c :: c in coverages[k + 1..] && c.depth == MaxDepth(coverages) by {
        var c :| c in coverages && c.depth == MaxDepth(coverages);
        var j :| 0 <= j < |coverages| && coverages[j] == c;
        assert coverages[k + 1..][j - k - 1] == c;
      }
      k := k + 1;
    }
    assert coverages[k] in coverages;
  }

  lemma {:induction false} FilterStartsAt<T(!new)>(keep: T -> bool, s: seq<T>, k: nat)
    requires k < |s| && keep(s[k]) && forall j :: 0 <= j < k ==> !keep(s[j])
    ensures Filter(keep, s) != [] && Filter(keep, s)[0] == s[k]
  {
    if k == 0 {
    } else {
      FilterStartsAt(keep, s[1..], k - 1);
    }
  }

  lemma {:induction false} DedupKeepsPaths(coverages: seq<LineCoverage>, c: LineCoverage)
    requires c in coverages
    ensures exists d :: d in DedupByPath(coverages) && d.path == c.path
  {
    if |coverages| <= 1 {
    } else {
      var front, last := coverages[..|coverages| - 1], coverages[|coverages| - 1];
      var kept := DedupByPath(front);
      assert coverages == front + [last];
      if c in front {
        DedupKeepsPaths(front, c);
        var d :| d in kept && d.path == c.path;
        assert d in DedupByPath(coverages);
      } else if kept != [] && kept[|kept| - 1].path == last.path {
        assert kept[|kept| - 1] in DedupByPath(coverages);
      } else {
        assert last in DedupByPath(coverages);
      }
    }
  }

  lemma PathsSort(coverages: seq<LineCoverage>)
    ensures multiset(SortBy(BY_PATH, coverages)) == multiset(coverages)
  {
    forall a: LineCoverage, b: LineCoverage, c: LineCoverage
      ensures BY_PATH(a, b) || BY_PATH(b, a)
      ensures BY_PATH(a, b) && BY_PATH(b, c) ==> BY_PATH(a, c)
    {
      TextOrder(a.path, b.path, c.path);
    }
    SortBySorts(BY_PATH, coverages);
  }

  lemma OneLeftAgrees(sorted: seq<LineCoverage>, c: LineCoverage)
    requires |DedupByPath(sorted)| == 1 && c in multiset(sorted)
    ensures c.path == DedupByPath(sorted)[0].path
  {
    DedupKeepsPaths(sorted, c);
  }

  ghost predicate OnePath(coverages: seq<LineCoverage>) {
    coverages != [] && forall c :: c in coverages ==> c.path == coverages[0].path
  }

  /** Sorting and deduplication leave one coverage exactly when there is one path, and then the first coverage. */
  lemma OnePathLeft(coverages: seq<LineCoverage>)
    requires coverages != []
    ensures if OnePath(coverages) then DedupByPath(SortBy(BY_PATH, coverages)) == [coverages[0]]
            else |DedupByPath(SortBy(BY_PATH, coverages))| != 1
  {
    if OnePath(coverages) {
      OnePathSorts(coverages, coverages[0].path);
      OnePathDedups(coverages, coverages[0].path);
    } else {
      var c :| c in coverages && c.path != coverages[0].path;
      var sorted := SortBy(BY_PATH, coverages);
      PathsSort(coverages);
      assert c in multiset(coverages) && coverages[0] in multiset(coverages);
      if |DedupByPath(sorted)| == 1 {
        OneLeftAgrees(sorted, c);
        OneLeftAgrees(sorted, coverages[0]);
      }
    }
  }

  /** A covered line is decided by its first deepest coverage, or ambiguous; a line without coverage is unset. */
  lemma ResolvesExactly(coverages: seq<LineCoverage>, k: nat)
    requires FirstDeepest(coverages, k)
    ensures ResolveLineCoverage(coverages)
         == if Decides(coverages, coverages[k]) then Exact(coverages[k].path, coverages[k].depth) else Ambiguous
  {
    MaxDepthIsMax(coverages);
    var depth := coverages[k].depth;
    assert coverages[k] in coverages;
    assert MaxDepth(coverages) == depth;
    var deepest := Deepest(coverages, depth);
    FilterStartsAt((c: LineCoverage) => c.depth == depth, coverages, k);
    assert deepest[0] == coverages[k];
    OnePathLeft(deepest);
    assert OnePath(deepest) <==> forall c :: c in coverages && c.depth == depth ==> c.path == coverages[k].path;
  }

  lemma OnlyUncoveredLinesAreUnset(coverages: seq<LineCoverage>)
    ensures ResolveLineCoverage(coverages) == Unset <==> coverages == []
    ensures coverages != [] ==> exists k :: FirstDeepest(coverages, k)
  {
    if coverages != [] {
      var k := FirstDeepestExists(coverages);
      ResolvesExactly(coverages, k);
    }
  }

  method GreatestDepth(coverages: seq<LineCoverage>) returns (maxDepth: nat)
    requires coverages != []
    ensures maxDepth == MaxDepth(coverages)
  {
    maxDepth := coverages[0].depth;
    assert coverages[..1] == [coverages[0]];
    for i := 1 to |coverages|
      invariant maxDepth == MaxDepth(coverages[..i])
    {
      assert coverages[..i + 1][..i] == coverages[..i];
      if coverages[i].depth >= maxDepth {
        maxDepth := coverages[i].depth;
      }
    }
    assert coverages[..|coverages|] == coverages;
  }

  method OverlapsOtherPath(coverages: seq<LineCoverage>, path: string) returns (overlaps: bool)
    ensures overlaps <==> exists c :: c in coverages && c.path != path
  {
    overlaps := false;
    for i := 0 to |coverages|
      invariant overlaps <==> exists k :: 0 <= k < i && coverages[k].path != path
    {
      overlaps := overlaps || coverages[i].path != path;
    }
  }

  method Resolve(coverages: seq<LineCoverage>) returns (result: LineModulePath)
    ensures result == ResolveLineCoverage(coverages)
  {
    if coverages == [] {
      return Unset;
    }
    var maxDepth := GreatestDepth(coverages);
    var deepest := DedupByPath(SortBy(BY_PATH, Deepest(coverages, maxDepth)));
    if |deepest| != 1 {
      return Ambiguous;
    }
    var overlaps := OverlapsOtherPath(coverages, deepest[0].path);
    if overlaps && deepest[0].closeBoundary {
      return Ambiguous;
    }
    return Exact(deepest[0].path, deepest[0].depth);
  }

  // ---- The map of a whole text ----

  ghost function RangesIn(tables: CharTables, content: seq<char>): seq<ModuleRange> {
    var tokens := TokensOf(tables, content);
    SortRanges(Run(tokens, 0, |tokens|, INITIAL).ranges)
  }

  ghost function LineModules(tables: CharTables, content: seq<char>): (r: seq<LineModulePath>)
    ensures |r| == LineCount(content)
    ensures forall i :: 0 <= i < |r| ==> r[i] == ResolveLineCoverage(CoveragesOf(RangesIn(tables, content), i + 1))
  {
    seq(LineCount(content), i requires i >= 0 => ResolveLineCoverage(CoveragesOf(RangesIn(tables, content), i + 1)))
  }

  method CollectCoverages(ranges: seq<ModuleRange>, lineCount: nat) returns (coverages: array<seq<LineCoverage>>)
    ensures fresh(coverages) && coverages.Length == lineCount
    ensures forall i :: 0 <= i < lineCount ==> coverages[i] == CoveragesOf(ranges, i + 1)
  {
    coverages := new seq<LineCoverage>[lineCount](i => []);
    for k := 0 to |ranges|
      invariant forall i :: 0 <= i < lineCount ==> coverages[i] == CoveragesOf(ranges[..k], i + 1)
    {
      assert ranges[..k + 1][..k] == ranges[..k];
      AddLineRange(coverages, ranges[k]);
    }
    assert ranges[..|ranges|] == ranges;
  }

  method ResolveAll(coverages: array<seq<LineCoverage>>) returns (lines: seq<LineModulePath>)
    ensures |lines| == coverages.Length
    ensures forall i :: 0 <= i < |lines| ==> lines[i] == ResolveLineCoverage(coverages[i])
  {
    lines := [];
    for i := 0 to coverages.Length
      invariant |lines| == i
      invariant forall j :: 0 <= j < i ==> lines[j] == ResolveLineCoverage(coverages[j])
    {
      var line := Resolve(coverages[i]);
      lines := lines + [line];
    }
  }

  method BuildLineModulePaths(tables: CharTables, content: seq<char>) returns (lines: seq<LineModulePath>)
    requires ValidTables(tables)
    ensures lines == LineModules(tables, content)
  {
    var lineCount := LineCount(content);
    var tokens := TokenizeSource(tables, content);
    var ranges := ScanInlineModuleRanges(tokens);
    var coverages := CollectCoverages(ranges, lineCount);
    lines := ResolveAll(coverages);
    assert lines == LineModules(tables, content);
  }

  function ComposeModulePath(base: string, nested: string): string {
    if base == "crate" then nested else base + "::" + nested
  }

  /** `nested` written below `base`. */
  ghost predicate WrittenBelow(base: string, nested: string, path: string) {
    path == if base == "crate" then nested else base + "::" + nested
  }

  /** The path of a module below `base`: behind the base unless that is the crate root, then every name in order. */
  ghost predicate NamesModule(answer: string, base: string, names: seq<string>) {
    && WrittenBelow(base, JoinPath(names), answer)
    && (Aliases.PlainNames(names) ==> Aliases.LeadsFrom(base, names, answer) && Aliases.Ascend(answer, |names|) == Some(base))
  }

  lemma WrittenBelowExtends(base: string, nested: string, path: string, name: string)
    requires WrittenBelow(base, nested, path)
    ensures WrittenBelow(base, nested + "::" + name, path + "::" + name)
  {
    if base != "crate" {
      assert base + "::" + (nested + "::" + name) == (base + "::" + nested) + "::" + name;
    }
  }

  lemma {:induction false} JoinPathDescends(base: string, names: seq<string>)
    requires Aliases.PlainNames(names) && names != []
    ensures WrittenBelow(base, JoinPath(names), Aliases.Descend(base, names))
    decreases |names|
  {
    var front, last := names[..|names| - 1], names[|names| - 1];
    var parent := Aliases.Descend(base, front);
    assert Aliases.Descend(base, names) == Aliases.ChildModulePath(parent, last);
    if front == [] {
    } else {
      assert forall n :: n in front ==> n in names;
      JoinPathDescends(base, front);
      Aliases.DescendWritesBase(base, front);
      WrittenBelowExtends(base, JoinPath(front), parent, last);
    }
  }

  lemma ComposedPathNames(base: string, names: seq<string>)
    requires names != []
    ensures NamesModule(ComposeModulePath(base, JoinPath(names)), base, names)
  {
    if Aliases.PlainNames(names) {
      JoinPathDescends(base, names);
      Aliases.DescendLeadsFrom(base, names);
      Aliases.AscendUndoesDescend(base, names);
    }
  }

  function ResolveModulePathFromLines(base: string, lines: seq<LineModulePath>, lineNumber: nat): Option<string> {
    if lineNumber == 0 || lineNumber > |lines| then Some(base)
    else match lines[lineNumber - 1]
      case Exact(path, _) => Some(ComposeModulePath(base, path))
      case Unset => Some(base)
      case Ambiguous => None
  }

  // ---- What the map says ----

  /** The module is open on the line and neither starts nor closes there. */
  ghost predicate OpenOn(m: InlineModule, line: nat) {
    m.startLine < line < m.closeLine
  }

  ghost predicate Boundary(ms: seq<InlineModule>, line: nat) {
    exists m :: m in ms && (m.startLine == line || m.closeLine == line)
  }

  /** Every module open on the line holds `m` or is `m`. */
  ghost predicate Innermost(ms: seq<InlineModule>, m: InlineModule, line: nat) {
    m in ms && OpenOn(m, line) && forall x :: x in ms && OpenOn(x, line) ==> x.names <= m.names
  }

  ghost predicate LinesPositive(ms: seq<InlineModule>) {
    forall m :: m in ms ==> 1 <= m.startLine <= m.closeLine
  }

  /** In a laminar list, the first listed module open on a line is the innermost one. */
  lemma FirstOpenIsInnermost(ms: seq<InlineModule>, line: nat) returns (m: InlineModule)
    requires Laminar(ms) && exists x :: x in ms && OpenOn(x, line)
    ensures Innermost(ms, m, line)
    ensures forall x :: x in ms && OpenOn(x, line) && x != m ==> |x.names| < |m.names|
  {
    var x :| x in ms && OpenOn(x, line);
    var k :| 0 <= k < |ms| && ms[k] == x;
    var i := 0;
    while i < k && !OpenOn(ms[i], line)
      invariant 0 <= i <= k
      invariant forall j :: 0 <= j < i ==> !OpenOn(ms[j], line)
    {
      i := i + 1;
    }
    m := ms[i];
    forall y | y in ms && OpenOn(y, line) ensures y.names <= m.names && (y == m || |y.names| < |m.names|) {
      var j :| 0 <= j < |ms| && ms[j] == y;
      if i < j {
        assert NestedOrApart(ms[i], ms[j]);
      }
    }
  }

  lemma InnermostIsUnique(ms: seq<InlineModule>, a: InlineModule, b: InlineModule, line: nat)
    requires Innermost(ms, a, line) && Innermost(ms, b, line)
    ensures a.names == b.names
  {
    assert a.names <= b.names && b.names <= a.names;
  }

  lemma RangeCoversWhenOpen(m: InlineModule, line: nat)
    requires 1 <= m.startLine <= m.closeLine && line != m.startLine && line != m.closeLine
    ensures Covers(RangeOf(m), line) <==> OpenOn(m, line)
  {
  }

  /** A module covers its lines up to the one before its closing brace; its closing line only when it is its only line. */
  lemma RangeCoverage(m: InlineModule, line: nat)
    requires 1 <= m.startLine <= m.closeLine
    ensures Covers(RangeOf(m), line) <==> m.startLine <= line < m.closeLine || m.startLine == line == m.closeLine
    ensures Covers(RangeOf(m), line) ==> (CoverageOf(RangeOf(m), line).closeBoundary <==> m.startLine == m.closeLine)
  {
  }

  lemma SortedRangesMembers(ms: seq<InlineModule>, r: ModuleRange)
    ensures r in SortRanges(RangesOf(ms)) <==> exists m :: m in ms && r == RangeOf(m)
  {
    SortRangesSorts(RangesOf(ms));
    assert r in SortRanges(RangesOf(ms)) <==> r in multiset(SortRanges(RangesOf(ms)));
    assert r in RangesOf(ms) <==> r in multiset(RangesOf(ms));
    if r in RangesOf(ms) {
      var i :| 0 <= i < |ms| && RangesOf(ms)[i] == r;
      assert ms[i] in ms;
    }
    if m :| m in ms && r == RangeOf(m) {
      var i :| 0 <= i < |ms| && ms[i] == m;
      assert RangesOf(ms)[i] == r;
    }
  }

  /** A line with no open module and no boundary has no coverage. */
  lemma NoOpenModuleIsUnset(ms: seq<InlineModule>, line: nat)
    requires LinesPositive(ms) && !Boundary(ms, line)
    requires forall m :: m in ms ==> !OpenOn(m, line)
    ensures ResolveLineCoverage(CoveragesOf(SortRanges(RangesOf(ms)), line)) == Unset
  {
    var ranges := SortRanges(RangesOf(ms));
    var coverages := CoveragesOf(ranges, line);
    if coverages != [] {
      CoverageMembers(ranges, line, coverages[0]);
      var r :| r in ranges && Covers(r, line) && coverages[0] == CoverageOf(r, line);
      SortedRangesMembers(ms, r);
      var m :| m in ms && r == RangeOf(m);
      RangeCoversWhenOpen(m, line);
      assert false;
    }
  }

  /** A line inside modules and away from boundaries gets exactly the innermost one. */
  lemma InnermostIsExact(ms: seq<InlineModule>, m: InlineModule, line: nat)
    requires LinesPositive(ms) && Laminar(ms) && !Boundary(ms, line) && Innermost(ms, m, line)
    ensures ResolveLineCoverage(CoveragesOf(SortRanges(RangesOf(ms)), line)) == Exact(JoinPath(m.names), |m.names|)
  {
    var ranges := SortRanges(RangesOf(ms));
    var coverages := CoveragesOf(ranges, line);
    var first := FirstOpenIsInnermost(ms, line);
    InnermostIsUnique(ms, m, first, line);
    forall c | c in coverages
      ensures !c.closeBoundary && (c.depth < |m.names| || (c.depth == |m.names| && c.path == JoinPath(m.names)))
    {
      CoverageMembers(ranges, line, c);
      var r :| r in ranges && Covers(r, line) && c == CoverageOf(r, line);
      SortedRangesMembers(ms, r);
      var x :| x in ms && r == RangeOf(x);
      RangeCoversWhenOpen(x, line);
    }
    SortedRangesMembers(ms, RangeOf(m));
    RangeCoversWhenOpen(m, line);
    CoverageMembers(ranges, line, CoverageOf(RangeOf(m), line));
    DominantCoverage(coverages, JoinPath(m.names), |m.names|);
  }

  lemma ModuleLinesPositive(tokens: seq<ScannedToken>, f: Forest, hi: nat)
    requires TreeOf(tokens, f) && LinesNondecreasing(tokens) && 1 <= hi
    requires forall k :: 0 <= k < |tokens| ==> 1 <= tokens[k].line <= hi
    ensures LinesPositive(ModulesOf(f))
    ensures forall m :: m in ModulesOf(f) ==> m.names != [] && m.closeLine <= hi
  {
    NondecreasingIsOrdered(tokens, 0, f, 1, hi);
    forall m | m in ModulesOf(f) ensures 1 <= m.startLine <= m.closeLine <= hi && m.names != [] {
      ModuleBounds(f, None, None, [], 1, hi, m);
    }
  }

  /** The token tree of a balanced text, with everything the line map needs to know about it. */
  lemma TextModules(tables: CharTables, content: seq<char>, f: Forest)
    requires TreeOf(TokensOf(tables, content), f)
    ensures RangesIn(tables, content) == SortRanges(RangesOf(ModulesOf(f)))
    ensures Laminar(ModulesOf(f)) && LinesPositive(ModulesOf(f))
    ensures forall m :: m in ModulesOf(f) ==> m.names != [] && m.closeLine <= LineCount(content)
  {
    var tokens := TokensOf(tables, content);
    ScannerReadsModules(tokens, f);
    TokenLines(tables, content);
    LaminarModules(tokens, f);
    ModuleLinesPositive(tokens, f, LineCount(content));
  }

  /** The lookup on a line answers with the path of the module called `names` below the base. */
  ghost predicate AnswersModule(tables: CharTables, content: seq<char>, base: string, line: nat, names: seq<string>) {
    var answer := ResolveModulePathFromLines(base, LineModules(tables, content), line);
    answer.Some? && names != [] && NamesModule(answer.value, base, names)
  }

  lemma InnermostAnswers(tables: CharTables, content: seq<char>, f: Forest, base: string, line: nat, m: InlineModule)
    requires TreeOf(TokensOf(tables, content), f)
    requires !Boundary(ModulesOf(f), line) && Innermost(ModulesOf(f), m, line)
    ensures AnswersModule(tables, content, base, line, m.names)
  {
    TextModules(tables, content, f);
    InnermostIsExact(ModulesOf(f), m, line);
    assert LineModules(tables, content)[line - 1] == Exact(JoinPath(m.names), |m.names|);
    ComposedPathNames(base, m.names);
  }

  lemma OutsideAnswersBase(tables: CharTables, content: seq<char>, f: Forest, base: string, line: nat)
    requires TreeOf(TokensOf(tables, content), f)
    requires !Boundary(ModulesOf(f), line) && forall m :: m in ModulesOf(f) ==> !OpenOn(m, line)
    ensures ResolveModulePathFromLines(base, LineModules(tables, content), line) == Some(base)
  {
    TextModules(tables, content, f);
    if 1 <= line <= LineCount(content) {
      NoOpenModuleIsUnset(ModulesOf(f), line);
    }
  }

  /**
   * For every text with balanced tokens, on every line where no inline module starts or closes,
   * the lookup gives the innermost open module, or the base module when none is open.
   */
  lemma LineMapIsInnermost(tables: CharTables, content: seq<char>, f: Forest, base: string, line: nat)
    requires TreeOf(TokensOf(tables, content), f)
    requires !Boundary(ModulesOf(f), line)
    ensures (exists m :: Innermost(ModulesOf(f), m, line)) <==> exists m :: m in ModulesOf(f) && OpenOn(m, line)
    ensures forall m | Innermost(ModulesOf(f), m, line) :: AnswersModule(tables, content, base, line, m.names)
    ensures (forall m :: m in ModulesOf(f) ==> !OpenOn(m, line)) ==>
              ResolveModulePathFromLines(base, LineModules(tables, content), line) == Some(base)
  {
    TextModules(tables, content, f);
    if exists m :: m in ModulesOf(f) && OpenOn(m, line) {
      var m := FirstOpenIsInnermost(ModulesOf(f), line);
    } else {
      OutsideAnswersBase(tables, content, f, base, line);
    }
    forall m | Innermost(ModulesOf(f), m, line) ensures AnswersModule(tables, content, base, line, m.names) {
      InnermostAnswers(tables, content, f, base, line, m);
    }
  }
}
