/** Token trees: the recursive reading of a token sequence that the block-stack scanners are compared with. */
module TokenTree {
  import opened Common
  import opened Lexer

  /** A forest of sibling tokens and bracketed groups. */
  datatype Forest =
    | Nil
    | Leaf(token: ScannedToken, rest: Forest)
    | Group(open: ScannedToken, inner: Forest, close: ScannedToken, rest: Forest)

  predicate IsOpen(k: TokenKind) {
    k.Punct? && k.symbol in "{(["
  }

  predicate IsClose(k: TokenKind) {
    k.Punct? && k.symbol in "})]"
  }

  predicate WellFormed(f: Forest) {
    match f
    case Nil => true
    case Leaf(token, rest) => !IsOpen(token.kind) && !IsClose(token.kind) && WellFormed(rest)
    case Group(open, inner, close, rest) =>
      IsOpen(open.kind) && close.kind == Punct(MatchingClose(open.kind.symbol)) && WellFormed(inner) && WellFormed(rest)
  }

  // ---- Where a forest lies in a token sequence ----

  /** The position just behind a forest that starts at `i`. */
  ghost function End(i: nat, f: Forest): (r: nat)
    ensures r >= i
    decreases f
  {
    match f
    case Nil => i
    case Leaf(token, rest) => End(i + 1, rest)
    case Group(open, inner, close, rest) => End(End(i + 1, inner) + 1, rest)
  }

  /** Position of the closing bracket of a group that opens at `i`. */
  ghost function CloseIndex(i: nat, inner: Forest): (r: nat)
    ensures r > i
  {
    End(i + 1, inner)
  }

  /** The forest is what stands in the tokens from `i` on. */
  ghost predicate Spans(tokens: seq<ScannedToken>, i: nat, f: Forest)
    ensures Spans(tokens, i, f) ==> End(i, f) <= |tokens|
    decreases f
  {
    match f
    case Nil => i <= |tokens|
    case Leaf(token, rest) => i < |tokens| && tokens[i] == token && Spans(tokens, i + 1, rest)
    case Group(open, inner, close, rest) =>
      var k := CloseIndex(i, inner);
      && i < |tokens| && tokens[i] == open && Spans(tokens, i + 1, inner)
      && k < |tokens| && tokens[k] == close && Spans(tokens, k + 1, rest)
  }

  /** The tokens are the forest written out, from the first to the last. */
  ghost predicate TreeOf(tokens: seq<ScannedToken>, f: Forest) {
    WellFormed(f) && Spans(tokens, 0, f) && End(0, f) == |tokens|
  }

  // ---- Balanced sequences are exactly the forests written out ----

  /** Every bracket from `i` on closes the innermost open one; `open` holds the closers still expected. */
  predicate BalancedFrom(tokens: seq<ScannedToken>, i: nat, open: seq<char>)
    requires i <= |tokens|
    decreases |tokens| - i
  {
    if i == |tokens| then open == []
    else
      var k := tokens[i].kind;
      if IsOpen(k) then BalancedFrom(tokens, i + 1, open + [MatchingClose(k.symbol)])
      else if IsClose(k) then open != [] && open[|open| - 1] == k.symbol && BalancedFrom(tokens, i + 1, open[..|open| - 1])
      else BalancedFrom(tokens, i + 1, open)
  }

  predicate Balanced(tokens: seq<ScannedToken>) {
    BalancedFrom(tokens, 0, [])
  }

  /** Position `k` is the end when no closer is expected, and otherwise the innermost expected closer. */
  ghost predicate StopsAt(tokens: seq<ScannedToken>, k: nat, open: seq<char>) {
    if open == [] then k == |tokens|
    else
      && k < |tokens| && tokens[k].kind == Punct(open[|open| - 1])
      && BalancedFrom(tokens, k + 1, open[..|open| - 1])
  }

  lemma PopPushed(tokens: seq<ScannedToken>, k: nat, open: seq<char>, close: char)
    requires StopsAt(tokens, k, open + [close])
    ensures k < |tokens| && tokens[k].kind == Punct(close) && BalancedFrom(tokens, k + 1, open)
  {
    assert (open + [close])[..|open|] == open;
  }

  /** Reads sibling trees up to the expected closer, or to the end when none is expected. */
  lemma {:induction false} ReadForest(tokens: seq<ScannedToken>, i: nat, open: seq<char>) returns (f: Forest)
    requires i <= |tokens| && BalancedFrom(tokens, i, open)
    ensures WellFormed(f) && Spans(tokens, i, f) && StopsAt(tokens, End(i, f), open)
    decreases |tokens| - i
  {
    if i == |tokens| {
      f := Nil;
    } else {
      var t := tokens[i];
      if IsOpen(t.kind) {
        var inner := ReadForest(tokens, i + 1, open + [MatchingClose(t.kind.symbol)]);
        var k := CloseIndex(i, inner);
        PopPushed(tokens, k, open, MatchingClose(t.kind.symbol));
        var siblings := ReadForest(tokens, k + 1, open);
        f := Group(t, inner, tokens[k], siblings);
      } else if IsClose(t.kind) {
        f := Nil;
      } else {
        var siblings := ReadForest(tokens, i + 1, open);
        f := Leaf(t, siblings);
      }
    }
  }

  lemma {:induction false} ForestBalances(tokens: seq<ScannedToken>, i: nat, f: Forest, open: seq<char>)
    requires WellFormed(f) && Spans(tokens, i, f)
    ensures BalancedFrom(tokens, i, open) <==> BalancedFrom(tokens, End(i, f), open)
    decreases f
  {
    match f
    case Nil =>
    case Leaf(token, rest) => ForestBalances(tokens, i + 1, rest, open);
    case Group(o, inner, c, rest) =>
      var nested := open + [MatchingClose(o.kind.symbol)];
      assert nested[..|nested| - 1] == open;
      ForestBalances(tokens, i + 1, inner, nested);
      ForestBalances(tokens, CloseIndex(i, inner) + 1, rest, open);
  }

  /** A token sequence is balanced exactly when it is some forest written out. */
  lemma BalancedIsForest(tokens: seq<ScannedToken>)
    ensures Balanced(tokens) <==> exists f :: TreeOf(tokens, f)
  {
    if Balanced(tokens) {
      var f := ReadForest(tokens, 0, []);
      assert TreeOf(tokens, f);
    }
    if f :| TreeOf(tokens, f) {
      ForestBalances(tokens, 0, f, []);
    }
  }

  // ---- What opens a group ----

  datatype GroupKind = OpaqueGroup | ModuleGroup(name: string, startLine: nat) | PlainGroup

  predicate IsMark(t: Option<ScannedToken>) {
    t.Some? && t.value.kind == Punct('!')
  }

  predicate IsName(t: Option<ScannedToken>) {
    t.Some? && t.value.kind.Ident?
  }

  /**
   * Reads a group by the two sibling tokens before it: `!` or `! name` makes it a macro body,
   * `mod name` before a brace makes it an inline module.
   */
  function Classify(prev2: Option<ScannedToken>, prev1: Option<ScannedToken>, open: ScannedToken): GroupKind {
    if IsMark(prev1) || (IsMark(prev2) && IsName(prev1)) then OpaqueGroup
    else if open.kind == Punct('{') && IsName(prev2) && prev2.value.kind.name == "mod" && IsName(prev1) then
      ModuleGroup(prev1.value.kind.name, prev2.value.line)
    else PlainGroup
  }

  // ---- Lookahead of the scanners, stated on the token sequence ----

  predicate KindAt(tokens: seq<ScannedToken>, i: int, k: TokenKind) {
    0 <= i < |tokens| && tokens[i].kind == k
  }

  predicate NameAt(tokens: seq<ScannedToken>, i: int) {
    0 <= i < |tokens| && tokens[i].kind.Ident?
  }

  predicate OpenAt(tokens: seq<ScannedToken>, i: int) {
    0 <= i < |tokens| && IsOpen(tokens[i].kind)
  }

  predicate BracketAt(tokens: seq<ScannedToken>, i: int) {
    0 <= i < |tokens| && (IsOpen(tokens[i].kind) || IsClose(tokens[i].kind))
  }

  /** The opening bracket that a `!` before position `i` has announced and that is still to come. */
  function AnnouncedOpaque(tokens: seq<ScannedToken>, i: nat): Option<nat> {
    if KindAt(tokens, i - 1, Punct('!')) && OpenAt(tokens, i) then Some(i)
    else if KindAt(tokens, i - 1, Punct('!')) && NameAt(tokens, i) && OpenAt(tokens, i + 1) then Some(i + 1)
    else if KindAt(tokens, i - 2, Punct('!')) && NameAt(tokens, i - 1) && OpenAt(tokens, i) then Some(i)
    else None
  }

  datatype PendingModule = PendingModule(openIndex: nat, name: string, startLine: nat)

  /** The module brace that a `mod` before position `i` has announced and that is still to come. */
  function AnnouncedModule(tokens: seq<ScannedToken>, i: nat): Option<PendingModule> {
    if KindAt(tokens, i - 1, Ident("mod")) && NameAt(tokens, i) && KindAt(tokens, i + 1, Punct('{')) then
      Some(PendingModule(i + 1, tokens[i].kind.name, tokens[i - 1].line))
    else if KindAt(tokens, i - 2, Ident("mod")) && NameAt(tokens, i - 1) && KindAt(tokens, i, Punct('{')) then
      Some(PendingModule(i, tokens[i - 1].kind.name, tokens[i - 2].line))
    else None
  }

  /** `prev2` and `prev1` are the sibling tokens just before position `i`; a bracket or the start ends them. */
  ghost predicate Context(tokens: seq<ScannedToken>, i: nat, prev2: Option<ScannedToken>, prev1: Option<ScannedToken>) {
    && i <= |tokens|
    && (prev1.Some? ==> i >= 1 && tokens[i - 1] == prev1.value && !BracketAt(tokens, i - 1))
    && (prev1.None? ==> prev2.None? && (i == 0 || BracketAt(tokens, i - 1)))
    && (prev2.Some? ==> i >= 2 && tokens[i - 2] == prev2.value && !BracketAt(tokens, i - 2))
    && (prev1.Some? && prev2.None? ==> i == 1 || BracketAt(tokens, i - 2))
  }

  /** What was announced for position `i` is what the sibling tokens say about the group there. */
  lemma AnnouncedMatchesClassify(
    tokens: seq<ScannedToken>, i: nat, prev2: Option<ScannedToken>, prev1: Option<ScannedToken>)
    requires Context(tokens, i, prev2, prev1) && OpenAt(tokens, i)
    ensures AnnouncedOpaque(tokens, i) == Some(i) <==> Classify(prev2, prev1, tokens[i]).OpaqueGroup?
    ensures AnnouncedOpaque(tokens, i).Some? ==> AnnouncedOpaque(tokens, i) == Some(i)
    ensures Classify(prev2, prev1, tokens[i]).ModuleGroup? ==>
              var kind := Classify(prev2, prev1, tokens[i]);
              AnnouncedModule(tokens, i) == Some(PendingModule(i, kind.name, kind.startLine)) && tokens[i].kind.symbol == '{'
    ensures !Classify(prev2, prev1, tokens[i]).ModuleGroup? ==> AnnouncedModule(tokens, i).None?
  {
  }

  /** What a group standing at `i` says about the tokens around and inside it. */
  lemma EnterGroup(tokens: seq<ScannedToken>, i: nat, f: Forest)
    requires f.Group? && WellFormed(f) && Spans(tokens, i, f)
    ensures var k := CloseIndex(i, f.inner);
            && k < |tokens| && tokens[i] == f.open && tokens[k] == f.close
            && IsOpen(f.open.kind) && f.close.kind == Punct(MatchingClose(f.open.kind.symbol))
            && Spans(tokens, i + 1, f.inner) && Spans(tokens, k + 1, f.rest) && End(i, f) == End(k + 1, f.rest)
            && Context(tokens, i + 1, None, None) && Context(tokens, k + 1, None, None)
            && AnnouncedOpaque(tokens, i + 1).None? && AnnouncedModule(tokens, i + 1).None?
            && AnnouncedOpaque(tokens, k).None? && AnnouncedModule(tokens, k).None?
            && AnnouncedOpaque(tokens, k + 1).None? && AnnouncedModule(tokens, k + 1).None?
  {
  }

}
