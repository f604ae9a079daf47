/** The hand-written Rust tokenizer with line tracking (statum-macros/src/source/scan.rs). */
module Lexer {
  import opened Common
  import opened Text

  datatype TokenKind = Ident(name: string) | Punct(symbol: char)

  datatype ScannedToken = ScannedToken(kind: TokenKind, line: nat)

  /** The Unicode character tables the tokenizer consults. */
  datatype CharTables = CharTables(alphabetic: char -> bool, alphanumeric: char -> bool)

  /** A line break is not alphanumeric; nothing else about the tables matters. */
  ghost predicate ValidTables(tables: CharTables) {
    !tables.alphanumeric('\n')
  }

  predicate IsIdentStart(tables: CharTables, c: char) {
    c == '_' || tables.alphabetic(c)
  }

  predicate IsIdentContinue(tables: CharTables, c: char) {
    c == '_' || tables.alphanumeric(c)
  }

  function MatchingClose(open: char): char {
    match open
    case '{' => '}'
    case '(' => ')'
    case '[' => ']'
    case _ => open
  }

  predicate At(chars: seq<char>, i: nat, c: char) {
    i < |chars| && chars[i] == c
  }

  // ---- Lines ----

  /** Line breaks in chars[a..b]. */
  function Newlines(chars: seq<char>, a: nat, b: nat): nat
    requires a <= b <= |chars|
  {
    if a == b then 0 else Newlines(chars, a, b - 1) + if chars[b - 1] == '\n' then 1 else 0
  }

  lemma {:induction false} NewlinesSplit(chars: seq<char>, a: nat, b: nat, c: nat)
    requires a <= b <= c <= |chars|
    ensures Newlines(chars, a, c) == Newlines(chars, a, b) + Newlines(chars, b, c)
  {
    if b == c {
    } else {
      NewlinesSplit(chars, a, b, c - 1);
    }
  }

  lemma {:induction false} NoNewlines(chars: seq<char>, a: nat, b: nat)
    requires a <= b <= |chars|
    requires forall k :: a <= k < b ==> chars[k] != '\n'
    ensures Newlines(chars, a, b) == 0
  {
    if a == b {
    } else {
      NoNewlines(chars, a, b - 1);
    }
  }

  /** The 1-based line of position `i`. */
  function LineAt(chars: seq<char>, i: nat): nat
    requires i <= |chars|
  {
    1 + Newlines(chars, 0, i)
  }

  /** Number of lines of a text, at least one; a final line break starts no further line. */
  function LineCount(chars: seq<char>): (lines: nat)
    ensures lines == if chars == [] then 1 else LineAt(chars, |chars| - 1)
  {
    var n := Newlines(chars, 0, |chars|) + if chars != [] && chars[|chars| - 1] != '\n' then 1 else 0;
    if n == 0 then 1 else n
  }

  lemma LineOfCharIsCounted(chars: seq<char>, i: nat)
    requires i < |chars| && chars[i] != '\n'
    ensures LineAt(chars, i) <= LineCount(chars)
  {
    NewlinesSplit(chars, 0, i, |chars|);
    if chars[|chars| - 1] == '\n' {
      NewlinesSplit(chars, i, |chars| - 1, |chars|);
    }
  }

  lemma LinesGrow(chars: seq<char>, i: nat, j: nat)
    requires i <= j <= |chars|
    ensures LineAt(chars, i) <= LineAt(chars, j)
  {
    NewlinesSplit(chars, 0, i, j);
  }

  // ---- Where each lexeme ends ----

  function LineCommentEnd(chars: seq<char>, i: nat): (end: nat)
    requires i <= |chars|
    ensures i <= end <= |chars|
    ensures forall k :: i <= k < end ==> chars[k] != '\n'
    ensures end < |chars| ==> chars[end] == '\n'
    decreases |chars| - i
  {
    if i < |chars| && chars[i] != '\n' then LineCommentEnd(chars, i + 1) else i
  }

  /** End of a block comment with `depth` comments open at `i`; the end of the text closes all. */
  function BlockCommentEnd(chars: seq<char>, i: nat, depth: nat): (end: nat)
    requires i <= |chars| && depth > 0
    ensures i <= end <= |chars|
    decreases |chars| - i
  {
    if i == |chars| then i
    else if chars[i] == '/' && At(chars, i + 1, '*') then BlockCommentEnd(chars, i + 2, depth + 1)
    else if chars[i] == '*' && At(chars, i + 1, '/') then
      if depth == 1 then i + 2 else BlockCommentEnd(chars, i + 2, depth - 1)
    else BlockCommentEnd(chars, i + 1, depth)
  }

  /**
   * The text from `i` to `end` is the rest of one comment, with its closing mark: comments inside it
   * are whole, and nothing else in it closes or opens one.
   */
  ghost predicate CommentBody(chars: seq<char>, i: nat, end: nat)
    decreases |chars| - i
  {
    && i < end <= |chars|
    && if At(chars, i, '/') && At(chars, i + 1, '*') then
         exists inner :: i + 2 < inner < end && CommentBody(chars, i + 2, inner) && CommentBody(chars, inner, end)
       else if At(chars, i, '*') && At(chars, i + 1, '/') then end == i + 2
       else CommentBody(chars, i + 1, end)
  }

  /** Behind a whole comment one comment less is open. */
  lemma {:induction false} CommentBodyEnds(chars: seq<char>, i: nat, end: nat, depth: nat)
    requires depth > 0 && CommentBody(chars, i, end)
    ensures BlockCommentEnd(chars, i, depth) == if depth == 1 then end else BlockCommentEnd(chars, end, depth - 1)
    decreases |chars| - i
  {
    if At(chars, i, '/') && At(chars, i + 1, '*') {
      var inner :| i + 2 < inner < end && CommentBody(chars, i + 2, inner) && CommentBody(chars, inner, end);
      CommentBodyEnds(chars, i + 2, inner, depth + 1);
      CommentBodyEnds(chars, inner, end, depth);
    } else if At(chars, i, '*') && At(chars, i + 1, '/') {
    } else {
      CommentBodyEnds(chars, i + 1, end, depth);
    }
  }

  /** No whole comment body starts at `i`. */
  ghost predicate NeverCloses(chars: seq<char>, i: nat) {
    forall end :: !CommentBody(chars, i, end)
  }

  lemma {:induction false} OpenCommentRunsOut(chars: seq<char>, i: nat, depth: nat)
    requires depth > 0 && i <= |chars| && NeverCloses(chars, i)
    ensures BlockCommentEnd(chars, i, depth) == |chars|
    decreases |chars| - i
  {
    if i == |chars| {
    } else if At(chars, i, '/') && At(chars, i + 1, '*') {
      if NeverCloses(chars, i + 2) {
        OpenCommentRunsOut(chars, i + 2, depth + 1);
      } else {
        var inner: nat :| CommentBody(chars, i + 2, inner);
        CommentBodyEnds(chars, i + 2, inner, depth + 1);
        assert NeverCloses(chars, inner) by {
          assert forall end :: CommentBody(chars, inner, end) ==> CommentBody(chars, i, end);
        }
        OpenCommentRunsOut(chars, inner, depth);
      }
    } else {
      assert CommentBody(chars, i, i + 2) || !At(chars, i, '*') || !At(chars, i + 1, '/');
      var next := i + 1;
      assert forall end :: CommentBody(chars, next, end) ==> CommentBody(chars, i, end);
      OpenCommentRunsOut(chars, next, depth);
    }
  }

  /** A block comment ends where the comment grammar says, or with the text when it is never closed. */
  lemma BlockCommentEndMeans(chars: seq<char>, i: nat)
    requires i <= |chars|
    ensures forall end :: CommentBody(chars, i, end) ==> BlockCommentEnd(chars, i, 1) == end
    ensures NeverCloses(chars, i) ==> BlockCommentEnd(chars, i, 1) == |chars|
  {
    forall end | CommentBody(chars, i, end) ensures BlockCommentEnd(chars, i, 1) == end {
      CommentBodyEnds(chars, i, end, 1);
    }
    if NeverCloses(chars, i) {
      OpenCommentRunsOut(chars, i, 1);
    }
  }

  /** End of a quoted literal: just past the first unescaped terminator, or the end of the text. */
  function QuotedEnd(chars: seq<char>, i: nat, terminator: char, escaped: bool): (end: nat)
    requires i <= |chars|
    ensures i <= end <= |chars|
    decreases |chars| - i
  {
    if i == |chars| then i
    else if escaped then QuotedEnd(chars, i + 1, terminator, false)
    else if chars[i] == '\\' then QuotedEnd(chars, i + 1, terminator, true)
    else if chars[i] == terminator then i + 1
    else QuotedEnd(chars, i + 1, terminator, false)
  }

  /** Number of backslashes directly before `k`, not counting any before `from`. */
  ghost function BackslashRun(chars: seq<char>, from: nat, k: nat): nat
    requires from <= k <= |chars|
  {
    if from < k && chars[k - 1] == '\\' then BackslashRun(chars, from, k - 1) + 1 else 0
  }

  /** An odd run of backslashes leaves one over to escape what follows. */
  ghost predicate Escaped(chars: seq<char>, from: nat, k: nat)
    requires from <= k <= |chars|
  {
    BackslashRun(chars, from, k) % 2 == 1
  }

  ghost predicate Closes(chars: seq<char>, from: nat, terminator: char, k: nat) {
    from <= k < |chars| && chars[k] == terminator && !Escaped(chars, from, k)
  }

  /** `end` lies just past the first terminator that is not escaped, or at the end of a text without one. */
  ghost predicate EndsLiteral(chars: seq<char>, from: nat, terminator: char, end: nat) {
    && from <= end <= |chars|
    && (end < |chars| ==> from < end && Closes(chars, from, terminator, end - 1))
    && forall k :: from <= k < end - 1 ==> !Closes(chars, from, terminator, k)
  }

  lemma {:induction false} QuotedEndFrom(chars: seq<char>, from: nat, i: nat, terminator: char)
    requires terminator != '\\' && from <= i <= |chars|
    requires forall k :: from <= k < i ==> !Closes(chars, from, terminator, k)
    ensures EndsLiteral(chars, from, terminator, QuotedEnd(chars, i, terminator, Escaped(chars, from, i)))
    decreases |chars| - i
  {
    if i == |chars| {
    } else if Closes(chars, from, terminator, i) {
    } else {
      QuotedEndFrom(chars, from, i + 1, terminator);
    }
  }

  /** A quoted literal ends at its first terminator behind an even run of backslashes. */
  lemma QuotedEndMeans(chars: seq<char>, from: nat, terminator: char, end: nat)
    requires terminator != '\\' && from <= |chars|
    ensures end == QuotedEnd(chars, from, terminator, false) <==>
            EndsLiteral(chars, from, terminator, end)
  {
    QuotedEndFrom(chars, from, from, terminator);
  }

  function HashRunEnd(chars: seq<char>, i: nat): (end: nat)
    ensures i <= end && (i <= |chars| ==> end <= |chars|)
    ensures forall k :: i <= k < end ==> At(chars, k, '#')
    ensures !At(chars, end, '#')
    decreases |chars| - i
  {
    if At(chars, i, '#') then HashRunEnd(chars, i + 1) else i
  }

  /** A quote at `i` followed by at least `hashes` hash signs. */
  ghost predicate ClosesRaw(chars: seq<char>, i: nat, hashes: nat) {
    At(chars, i, '"') && forall k :: i < k <= i + hashes ==> At(chars, k, '#')
  }

  /** End of a raw string body: past the first quote followed by `hashes` hash signs. */
  ghost function RawEnd(chars: seq<char>, i: nat, hashes: nat): (end: nat)
    requires i <= |chars|
    ensures i <= end <= |chars|
    decreases |chars| - i
  {
    if i == |chars| then i
    else if ClosesRaw(chars, i, hashes) then
      assert hashes > 0 ==> At(chars, i + hashes, '#');
      i + 1 + hashes
    else RawEnd(chars, i + 1, hashes)
  }

  ghost predicate HashRun(chars: seq<char>, start: nat, end: nat) {
    forall k :: start <= k < end ==> At(chars, k, '#')
  }

  /** `end` lies behind the first quote with all its hash signs, or at the end of a text without one. */
  ghost predicate EndsRaw(chars: seq<char>, from: nat, hashes: nat, end: nat) {
    && from <= end <= |chars|
    && (end < |chars| ==> from + hashes < end && chars[end - 1 - hashes] == '"' && HashRun(chars, end - hashes, end))
    && forall k :: from <= k && k + 1 + hashes < end && chars[k] == '"' ==> !HashRun(chars, k + 1, k + 1 + hashes)
  }

  lemma {:induction false} RawEndMeans(chars: seq<char>, i: nat, hashes: nat)
    requires i <= |chars|
    ensures EndsRaw(chars, i, hashes, RawEnd(chars, i, hashes))
    decreases |chars| - i
  {
    assert forall k: nat :: At(chars, k, '"') && HashRun(chars, k + 1, k + 1 + hashes) ==> ClosesRaw(chars, k, hashes);
    if i == |chars| || ClosesRaw(chars, i, hashes) {
    } else {
      RawEndMeans(chars, i + 1, hashes);
    }
  }

  function IdentEnd(tables: CharTables, chars: seq<char>, i: nat): (end: nat)
    requires i <= |chars|
    ensures i <= end <= |chars|
    ensures forall k :: i <= k < end ==> IsIdentContinue(tables, chars[k])
    ensures end < |chars| ==> !IsIdentContinue(tables, chars[end])
    decreases |chars| - i
  {
    if i < |chars| && IsIdentContinue(tables, chars[i]) then IdentEnd(tables, chars, i + 1) else i
  }

  predicate IsRawStringStart(chars: seq<char>, i: nat) {
    At(chars, i, 'r') && At(chars, HashRunEnd(chars, i + 1), '"')
  }

  /** A closing quote comes before any line break or unescaped whitespace. */
  predicate CharLiteralFrom(chars: seq<char>, i: nat, escaped: bool)
    decreases |chars| - i
  {
    if i >= |chars| || chars[i] == '\n' then false
    else if escaped then CharLiteralFrom(chars, i + 1, false)
    else if chars[i] == '\\' then CharLiteralFrom(chars, i + 1, true)
    else if chars[i] == '\'' then true
    else if IsWhitespace(chars[i]) then false
    else CharLiteralFrom(chars, i + 1, false)
  }

  /** Nothing before the closing quote at `k` ends the attempt: no line break, and no whitespace but an escaped one. */
  ghost predicate CharLiteralCloses(chars: seq<char>, from: nat, k: nat) {
    && Closes(chars, from, '\'', k)
    && forall j :: from <= j < k ==> chars[j] != '\n' && (IsWhitespace(chars[j]) ==> Escaped(chars, from, j))
  }

  ghost predicate QuotesChar(chars: seq<char>, from: nat) {
    exists k :: CharLiteralCloses(chars, from, k)
  }

  lemma {:induction false} CharLiteralFromStep(chars: seq<char>, from: nat, i: nat)
    requires from <= i <= |chars|
    requires forall k :: from <= k < i ==> !Closes(chars, from, '\'', k)
    requires forall j :: from <= j < i ==> chars[j] != '\n' && (IsWhitespace(chars[j]) ==> Escaped(chars, from, j))
    ensures CharLiteralFrom(chars, i, Escaped(chars, from, i)) <==> exists k :: i <= k && CharLiteralCloses(chars, from, k)
    decreases |chars| - i
  {
    if i == |chars| || chars[i] == '\n' {
    } else if Closes(chars, from, '\'', i) {
      assert CharLiteralCloses(chars, from, i);
    } else if IsWhitespace(chars[i]) && !Escaped(chars, from, i) {
    } else {
      CharLiteralFromStep(chars, from, i + 1);
    }
  }

  /** A quote starts a character literal exactly when an unescaped quote follows before any line break or bare whitespace. */
  lemma CharLiteralFromMeans(chars: seq<char>, from: nat)
    ensures CharLiteralFrom(chars, from, false) <==> QuotesChar(chars, from)
  {
    if from <= |chars| {
      CharLiteralFromStep(chars, from, from);
    }
  }

  // ---- The sequence of lexemes ----

  datatype Lexeme = Trivia(end: nat) | Token(kind: TokenKind, end: nat)

  ghost function RawStringEnd(chars: seq<char>, i: nat): (end: nat)
    requires IsRawStringStart(chars, i)
    ensures i < end <= |chars|
  {
    var quote := HashRunEnd(chars, i + 1);
    RawEnd(chars, quote + 1, quote - (i + 1))
  }

  /** The lexeme that starts at `i`. */
  ghost function NextLexeme(tables: CharTables, chars: seq<char>, i: nat): (lexeme: Lexeme)
    requires i < |chars|
    ensures i < lexeme.end <= |chars|
    ensures lexeme.Token? ==> chars[i] != '\n'
    ensures lexeme.Token? ==> match lexeme.kind
                              case Punct(c) => c == chars[i] && c in "{}()[]!"
                              case Ident(name) => name == chars[i..lexeme.end]
  {
    var c := chars[i];
    if IsWhitespace(c) then Trivia(i + 1)
    else if c == '/' && At(chars, i + 1, '/') then Trivia(LineCommentEnd(chars, i + 2))
    else if c == '/' && At(chars, i + 1, '*') then Trivia(BlockCommentEnd(chars, i + 2, 1))
    else if c == '"' then Trivia(QuotedEnd(chars, i + 1, '"', false))
    else if c == '\'' && CharLiteralFrom(chars, i + 1, false) then Trivia(QuotedEnd(chars, i + 1, '\'', false))
    else if c == 'b' && At(chars, i + 1, '"') then Trivia(QuotedEnd(chars, i + 2, '"', false))
    else if c == 'b' && At(chars, i + 1, '\'') && CharLiteralFrom(chars, i + 2, false) then
      Trivia(QuotedEnd(chars, i + 2, '\'', false))
    else if c == 'b' && IsRawStringStart(chars, i + 1) then Trivia(RawStringEnd(chars, i + 1))
    else if c == 'r' && IsRawStringStart(chars, i) then Trivia(RawStringEnd(chars, i))
    else if c == 'r' && At(chars, i + 1, '#') && i + 2 < |chars| && IsIdentStart(tables, chars[i + 2]) then
      var end := IdentEnd(tables, chars, i + 2);
      Token(Ident(chars[i..end]), end)
    else if c == 'b' || IsIdentStart(tables, c) then
      var end := IdentEnd(tables, chars, i + 1);
      Token(Ident(chars[i..end]), end)
    else if c in "{}()[]!" then Token(Punct(c), i + 1)
    else Trivia(i + 1)
  }

  // ---- What the lexemes are ----

  ghost predicate LineBreakEnds(chars: seq<char>, from: nat, end: nat) {
    && from <= end <= |chars| && (forall k :: from <= k < end ==> chars[k] != '\n')
    && (end < |chars| ==> chars[end] == '\n')
  }

  /** An `r` with any number of hash signs behind it, up to the quote. */
  ghost predicate RawPrefix(chars: seq<char>, i: nat, quote: nat) {
    && i < quote && At(chars, i, 'r') && At(chars, quote, '"')
    && forall k :: i < k < quote ==> At(chars, k, '#')
  }

  lemma RawStartMeans(chars: seq<char>, i: nat)
    ensures IsRawStringStart(chars, i) <==> exists quote :: RawPrefix(chars, i, quote)
    ensures forall quote :: RawPrefix(chars, i, quote) ==> quote == HashRunEnd(chars, i + 1)
  {
    var end := HashRunEnd(chars, i + 1);
    forall quote | RawPrefix(chars, i, quote) ensures quote == end {
      assert i < quote < end ==> At(chars, quote, '#');
      assert i < end < quote ==> At(chars, end, '#');
    }
    assert IsRawStringStart(chars, i) ==> RawPrefix(chars, i, end);
  }

  /** A string, byte string, raw string or raw byte string starts at `i`, its opening quote at `quote`. */
  ghost predicate StringStarts(chars: seq<char>, i: nat, quote: nat) {
    || (quote == i && At(chars, i, '"'))
    || (quote == i + 1 && At(chars, i, 'b') && At(chars, quote, '"'))
    || RawPrefix(chars, i, quote)
    || (At(chars, i, 'b') && RawPrefix(chars, i + 1, quote))
  }

  /** A character or byte literal starts at `i`, its opening quote at `quote`. */
  ghost predicate CharStarts(chars: seq<char>, i: nat, quote: nat) {
    && (quote == i || (quote == i + 1 && At(chars, i, 'b')))
    && At(chars, quote, '\'') && QuotesChar(chars, quote + 1)
  }

  ghost predicate LiteralStarts(chars: seq<char>, i: nat) {
    exists quote :: StringStarts(chars, i, quote) || CharStarts(chars, i, quote)
  }

  lemma ByteLexemes(tables: CharTables, chars: seq<char>, i: nat)
    requires PlainTables(tables) && At(chars, i, 'b')
    ensures NextLexeme(tables, chars, i).Token? <==> !LiteralStarts(chars, i)
  {
    RawStartMeans(chars, i + 1);
    CharLiteralFromMeans(chars, i + 2);
    assert At(chars, i + 1, '"') ==> StringStarts(chars, i, i + 1);
    var end := HashRunEnd(chars, i + 2);
    assert IsRawStringStart(chars, i + 1) ==> StringStarts(chars, i, end);
    assert CharStarts(chars, i, i + 1) <==> At(chars, i + 1, '\'') && QuotesChar(chars, i + 2);
  }

  /** The characters with a meaning of their own are neither letters nor digits, `b` and `r` are letters, whitespace is not. */
  ghost predicate PlainTables(tables: CharTables) {
    && (forall c :: c in "{}()[]!#/\"'" ==> !IsIdentContinue(tables, c) && !IsIdentStart(tables, c))
    && IsIdentStart(tables, 'b') && IsIdentStart(tables, 'r')
    && forall c :: IsWhitespace(c) ==> !IsIdentStart(tables, c)
  }

  /** A token starts exactly at a bracket, a bang or the first character of an identifier that no literal claims. */
  lemma TokenStarts(tables: CharTables, chars: seq<char>, i: nat)
    requires PlainTables(tables) && i < |chars|
    ensures NextLexeme(tables, chars, i).Token? <==>
            || chars[i] in "{}()[]!"
            || (IsIdentStart(tables, chars[i]) && !LiteralStarts(chars, i))
  {
    RawStartMeans(chars, i);
    RawStartMeans(chars, i + 1);
    CharLiteralFromMeans(chars, i + 1);
    CharLiteralFromMeans(chars, i + 2);
    var c := chars[i];
    if c == 'b' {
      ByteLexemes(tables, chars, i);
    } else if c == 'r' {
      assert RawPrefix(chars, i, HashRunEnd(chars, i + 1)) ==> StringStarts(chars, i, HashRunEnd(chars, i + 1));
    } else if c == '"' {
      assert StringStarts(chars, i, i);
    } else if c in "{}()[]!" {
      assert !IsWhitespace(c) && !IsIdentStart(tables, c);
    } else {
      assert c != '/' && c != '\'' ==> (IsIdentStart(tables, c) ==> !IsWhitespace(c));
    }
  }

  lemma CommentsEnd(chars: seq<char>, i: nat)
    requires i < |chars|
    ensures At(chars, i, '/') && At(chars, i + 1, '/') ==> LineBreakEnds(chars, i + 2, LineCommentEnd(chars, i + 2))
    ensures At(chars, i, '/') && At(chars, i + 1, '*') ==>
              var end := BlockCommentEnd(chars, i + 2, 1);
              CommentBody(chars, i + 2, end) || (NeverCloses(chars, i + 2) && end == |chars|)
  {
    if i + 2 <= |chars| {
      BlockCommentEndMeans(chars, i + 2);
    }
  }

  lemma StringEnds(tables: CharTables, chars: seq<char>, i: nat, quote: nat, end: nat)
    requires PlainTables(tables) && i < |chars| && NextLexeme(tables, chars, i) == Trivia(end) && StringStarts(chars, i, quote)
    ensures if RawPrefix(chars, i, quote) then EndsRaw(chars, quote + 1, quote - (i + 1), end)
            else if RawPrefix(chars, i + 1, quote) then EndsRaw(chars, quote + 1, quote - (i + 2), end)
            else EndsLiteral(chars, quote + 1, '"', end)
  {
    RawStartMeans(chars, i);
    RawStartMeans(chars, i + 1);
    if RawPrefix(chars, i, quote) {
      RawEndMeans(chars, quote + 1, quote - (i + 1));
    } else if RawPrefix(chars, i + 1, quote) {
      RawEndMeans(chars, quote + 1, quote - (i + 2));
    } else {
      QuotedEndMeans(chars, quote + 1, '"', end);
    }
  }

  lemma CharEnds(tables: CharTables, chars: seq<char>, i: nat, quote: nat, end: nat)
    requires PlainTables(tables) && i < |chars| && NextLexeme(tables, chars, i) == Trivia(end) && CharStarts(chars, i, quote)
    ensures EndsLiteral(chars, quote + 1, '\'', end)
  {
    CharLiteralFromMeans(chars, quote + 1);
    QuotedEndMeans(chars, quote + 1, '\'', end);
  }

  lemma StrayEnds(tables: CharTables, chars: seq<char>, i: nat)
    requires i < |chars| && NextLexeme(tables, chars, i).Trivia? && !LiteralStarts(chars, i)
    requires !(At(chars, i, '/') && (At(chars, i + 1, '/') || At(chars, i + 1, '*')))
    ensures NextLexeme(tables, chars, i).end == i + 1
  {
    RawStartMeans(chars, i);
    RawStartMeans(chars, i + 1);
    CharLiteralFromMeans(chars, i + 1);
    CharLiteralFromMeans(chars, i + 2);
    assert !StringStarts(chars, i, i) && !CharStarts(chars, i, i);
    assert !StringStarts(chars, i, i + 1) && !CharStarts(chars, i, i + 1);
    assert !StringStarts(chars, i, HashRunEnd(chars, i + 1)) && !StringStarts(chars, i, HashRunEnd(chars, i + 2));
  }

  /** Where whatever is no token ends, by how it starts; a stray character is passed over alone. */
  lemma TriviaEnds(tables: CharTables, chars: seq<char>, i: nat, end: nat)
    requires PlainTables(tables) && i < |chars| && NextLexeme(tables, chars, i) == Trivia(end)
    ensures At(chars, i, '/') && At(chars, i + 1, '/') ==> LineBreakEnds(chars, i + 2, end)
    ensures At(chars, i, '/') && At(chars, i + 1, '*') ==>
              CommentBody(chars, i + 2, end) || (NeverCloses(chars, i + 2) && end == |chars|)
    ensures forall quote: nat :: StringStarts(chars, i, quote) ==>
              if RawPrefix(chars, i, quote) then EndsRaw(chars, quote + 1, quote - (i + 1), end)
              else if RawPrefix(chars, i + 1, quote) then EndsRaw(chars, quote + 1, quote - (i + 2), end)
              else EndsLiteral(chars, quote + 1, '"', end)
    ensures forall quote: nat :: CharStarts(chars, i, quote) ==> EndsLiteral(chars, quote + 1, '\'', end)
    ensures !LiteralStarts(chars, i) && !(At(chars, i, '/') && (At(chars, i + 1, '/') || At(chars, i + 1, '*'))) ==> end == i + 1
  {
    CommentsEnd(chars, i);
    forall quote: nat | StringStarts(chars, i, quote)
      ensures if RawPrefix(chars, i, quote) then EndsRaw(chars, quote + 1, quote - (i + 1), end)
              else if RawPrefix(chars, i + 1, quote) then EndsRaw(chars, quote + 1, quote - (i + 2), end)
              else EndsLiteral(chars, quote + 1, '"', end)
    {
      StringEnds(tables, chars, i, quote, end);
    }
    forall quote: nat | CharStarts(chars, i, quote) ensures EndsLiteral(chars, quote + 1, '\'', end) {
      CharEnds(tables, chars, i, quote, end);
    }
    if !LiteralStarts(chars, i) && !(At(chars, i, '/') && (At(chars, i + 1, '/') || At(chars, i + 1, '*'))) {
      StrayEnds(tables, chars, i);
    }
  }

  /** An identifier takes every identifier character it can, behind an `r#` that has a name to mark. */
  lemma IdentifierEnds(tables: CharTables, chars: seq<char>, i: nat, name: string, end: nat)
    requires PlainTables(tables) && i < |chars| && NextLexeme(tables, chars, i) == Token(Ident(name), end)
    ensures i < end <= |chars| && name == chars[i..end]
    ensures var from := if At(chars, i, 'r') && At(chars, i + 1, '#') && i + 2 < |chars| && IsIdentStart(tables, chars[i + 2])
                        then i + 2 else i + 1;
            && (forall k :: from <= k < end ==> IsIdentContinue(tables, chars[k]))
            && (end < |chars| ==> !IsIdentContinue(tables, chars[end]))
  {
  }

  datatype Placed = Placed(kind: TokenKind, start: nat, end: nat)

  /** The tokens from `i` on, each with its extent in the text. */
  ghost function TokensFrom(tables: CharTables, chars: seq<char>, i: nat): seq<Placed>
    requires i <= |chars|
    decreases |chars| - i
  {
    if i == |chars| then []
    else match NextLexeme(tables, chars, i)
      case Trivia(end) => TokensFrom(tables, chars, end)
      case Token(kind, end) => [Placed(kind, i, end)] + TokensFrom(tables, chars, end)
  }

  ghost function Scanned(chars: seq<char>, token: Placed): ScannedToken {
    ScannedToken(token.kind, if token.start <= |chars| then LineAt(chars, token.start) else 0)
  }

  /** Each token with the line its extent starts on. */
  ghost function WithLines(chars: seq<char>, placed: seq<Placed>): seq<ScannedToken> {
    Map((token: Placed) => Scanned(chars, token), placed)
  }

  ghost function TokensOf(tables: CharTables, chars: seq<char>): seq<ScannedToken> {
    WithLines(chars, TokensFrom(tables, chars, 0))
  }

  /** A token keeps its text, starts after `from`, and ends before the next token starts. */
  lemma {:induction false} TokensAreOrdered(tables: CharTables, chars: seq<char>, from: nat, k: nat)
    requires from <= |chars| && k < |TokensFrom(tables, chars, from)|
    ensures var t := TokensFrom(tables, chars, from)[k];
            && from <= t.start < t.end <= |chars|
            && chars[t.start] != '\n'
            && (match t.kind
                case Punct(c) => t.end == t.start + 1 && c == chars[t.start]
                case Ident(name) => name == chars[t.start..t.end])
    ensures k + 1 < |TokensFrom(tables, chars, from)| ==>
              TokensFrom(tables, chars, from)[k].end <= TokensFrom(tables, chars, from)[k + 1].start
    decreases |chars| - from
  {
    var lexeme := NextLexeme(tables, chars, from);
    var rest := TokensFrom(tables, chars, lexeme.end);
    if lexeme.Trivia? {
      TokensAreOrdered(tables, chars, lexeme.end, k);
    } else if k > 0 {
      assert TokensFrom(tables, chars, from)[k] == rest[k - 1];
      TokensAreOrdered(tables, chars, lexeme.end, k - 1);
      if k + 1 < |rest| + 1 {
        assert TokensFrom(tables, chars, from)[k + 1] == rest[k];
      }
    } else if |rest| > 0 {
      assert TokensFrom(tables, chars, from)[1] == rest[0];
      TokensAreOrdered(tables, chars, lexeme.end, 0);
    }
  }

  ghost predicate LinesNondecreasing(tokens: seq<ScannedToken>) {
    forall i, j :: 0 <= i <= j < |tokens| ==> tokens[i].line <= tokens[j].line
  }

  /** Token lines never go back, start at 1 and stay within the line count of the text. */
  lemma TokenLines(tables: CharTables, chars: seq<char>)
    ensures LinesNondecreasing(TokensOf(tables, chars))
    ensures forall k :: 0 <= k < |TokensOf(tables, chars)| ==> 1 <= TokensOf(tables, chars)[k].line <= LineCount(chars)
  {
    var placed, tokens := TokensFrom(tables, chars, 0), TokensOf(tables, chars);
    forall k | 0 <= k < |tokens| ensures 1 <= tokens[k].line <= LineCount(chars) {
      TokensAreOrdered(tables, chars, 0, k);
      LineOfCharIsCounted(chars, placed[k].start);
    }
    forall i, j | 0 <= i <= j < |tokens| ensures tokens[i].line <= tokens[j].line {
      LinesBetweenTokens(tables, chars, i, j);
    }
  }

  lemma {:induction false} LinesBetweenTokens(tables: CharTables, chars: seq<char>, i: nat, j: nat)
    requires i <= j < |TokensOf(tables, chars)|
    ensures TokensOf(tables, chars)[i].line <= TokensOf(tables, chars)[j].line
    decreases j
  {
    if i == j {
    } else {
      var placed := TokensFrom(tables, chars, 0);
      LinesBetweenTokens(tables, chars, i, j - 1);
      TokensAreOrdered(tables, chars, 0, j - 1);
      TokensAreOrdered(tables, chars, 0, j);
      LinesGrow(chars, placed[j - 1].start, placed[j].start);
    }
  }

  // ---- The tokenizer's loops ----

  method SkipBlockComment(chars: seq<char>, start: nat, line: nat) returns (index: nat, currentLine: nat)
    requires At(chars, start, '/') && At(chars, start + 1, '*')
    ensures index == BlockCommentEnd(chars, start + 2, 1)
    ensures currentLine == line + Newlines(chars, start, index)
  {
    index := start + 2;
    var depth := 1;
    currentLine := line;
    NoNewlines(chars, start, index);
    while index < |chars|
      invariant start + 2 <= index <= |chars| && depth >= 1
      invariant BlockCommentEnd(chars, index, depth) == BlockCommentEnd(chars, start + 2, 1)
      invariant currentLine == line + Newlines(chars, start, index)
    {
      if chars[index] == '/' && At(chars, index + 1, '*') {
        depth := depth + 1;
        index := index + 2;
      } else if chars[index] == '*' && At(chars, index + 1, '/') {
        depth := depth - 1;
        index := index + 2;
        if depth == 0 {
          break;
        }
      } else if chars[index] == '\n' {
        currentLine := currentLine + 1;
        index := index + 1;
      } else {
        index := index + 1;
      }
    }
  }

  method SkipQuotedLiteral(chars: seq<char>, start: nat, line: nat, terminator: char) returns (index: nat, currentLine: nat)
    requires start < |chars| && chars[start] != '\n'
    ensures index == QuotedEnd(chars, start + 1, terminator, false)
    ensures terminator != '\\' ==> EndsLiteral(chars, start + 1, terminator, index)
    ensures currentLine == line + Newlines(chars, start, index)
  {
    index := start + 1;
    currentLine := line;
    if terminator != '\\' {
      QuotedEndMeans(chars, index, terminator, QuotedEnd(chars, index, terminator, false));
    }
    var escaped := false;
    while index < |chars|
      invariant start + 1 <= index <= |chars|
      invariant QuotedEnd(chars, index, terminator, escaped) == QuotedEnd(chars, start + 1, terminator, false)
      invariant currentLine == line + Newlines(chars, start, index)
    {
      var ch := chars[index];
      if ch == '\n' {
        currentLine := currentLine + 1;
      }
      if escaped {
        escaped := false;
        index := index + 1;
        continue;
      }
      if ch == '\\' {
        escaped := true;
        index := index + 1;
      } else if ch == terminator {
        index := index + 1;
        break;
      } else {
        index := index + 1;
      }
    }
  }

  /** The inner loop that looks for the closing hash signs of a raw string. */
  method MatchHashes(chars: seq<char>, start: nat, hashes: nat) returns (cursor: nat, matched: nat)
    requires start <= |chars|
    ensures matched <= hashes && cursor == start + matched <= |chars|
    ensures matched == hashes <==> HashRun(chars, start, start + hashes)
  {
    cursor, matched := start, 0;
    while matched < hashes && At(chars, cursor, '#')
      invariant matched <= hashes && cursor == start + matched <= |chars|
      invariant HashRun(chars, start, cursor)
    {
      matched := matched + 1;
      cursor := cursor + 1;
    }
  }

  /** Raw strings may carry a byte mark before the `r`. */
  function AfterByteMark(chars: seq<char>, start: nat): nat {
    if At(chars, start, 'b') then start + 1 else start
  }

  lemma HashesHoldNoNewline(chars: seq<char>, start: nat, end: nat)
    requires start < end <= |chars| && chars[start] != '\n' && HashRun(chars, start + 1, end)
    ensures Newlines(chars, start, end) == 0
  {
    forall k | start <= k < end ensures chars[k] != '\n' {
      assert start < k ==> At(chars, k, '#');
    }
    NoNewlines(chars, start, end);
  }

  /** The `b`, the `r`, the hash signs and the quote before the text of a raw string. */
  lemma PrefixHoldsNoNewline(chars: seq<char>, start: nat, mark: nat, end: nat)
    requires start <= mark && mark + 2 <= end <= |chars| && HashRun(chars, mark + 1, end - 1)
    requires forall k :: start <= k <= mark ==> chars[k] != '\n'
    requires chars[end - 1] != '\n'
    ensures Newlines(chars, start, end) == 0
  {
    forall k | start <= k < end ensures chars[k] != '\n' {
      assert mark < k < end - 1 ==> At(chars, k, '#');
    }
    NoNewlines(chars, start, end);
  }

  method SkipRawStringLiteral(chars: seq<char>, start: nat, line: nat) returns (index: nat, currentLine: nat)
    requires IsRawStringStart(chars, AfterByteMark(chars, start))
    ensures index == RawStringEnd(chars, AfterByteMark(chars, start))
    ensures currentLine == line + Newlines(chars, start, index)
  {
    index := start;
    currentLine := line;
    if At(chars, index, 'b') {
      index := index + 1;
    }
    ghost var mark := index;
    index := index + 1;
    var hashes := 0;
    while At(chars, index, '#')
      invariant mark < index && hashes == index - (mark + 1)
      invariant HashRun(chars, mark + 1, index)
      invariant HashRunEnd(chars, index) == HashRunEnd(chars, mark + 1)
      decreases |chars| - index
    {
      hashes := hashes + 1;
      index := index + 1;
    }
    if !At(chars, index, '"') {
      return;
    }
    index := index + 1;
    PrefixHoldsNoNewline(chars, start, mark, index);
    var end, endLine := SkipRawBody(chars, index, line, hashes);
    NewlinesSplit(chars, start, index, end);
    return end, endLine;
  }

  /** The text of a raw string, up to the closing quote with its hash signs or the end of the source. */
  method SkipRawBody(chars: seq<char>, start: nat, line: nat, hashes: nat) returns (index: nat, currentLine: nat)
    requires start <= |chars|
    ensures index == RawEnd(chars, start, hashes)
    ensures currentLine == line + Newlines(chars, start, index)
  {
    index := start;
    currentLine := line;
    while index < |chars|
      invariant start <= index <= |chars|
      invariant RawEnd(chars, index, hashes) == RawEnd(chars, start, hashes)
      invariant currentLine == line + Newlines(chars, start, index)
    {
      var ch := chars[index];
      if ch == '\n' {
        currentLine := currentLine + 1;
        index := index + 1;
        continue;
      }
      if ch == '"' {
        var cursor, matched := MatchHashes(chars, index + 1, hashes);
        if matched == hashes {
          HashesHoldNoNewline(chars, index, cursor);
          NewlinesSplit(chars, start, index, cursor);
          index := cursor;
          break;
        }
      }
      index := index + 1;
    }
  }

  method IsCharLiteralStart(chars: seq<char>, start: nat) returns (result: bool)
    ensures result == CharLiteralFrom(chars, start + 1, false)
  {
    var index := start + 1;
    var escaped := false;
    while index < |chars|
      invariant CharLiteralFrom(chars, index, escaped) == CharLiteralFrom(chars, start + 1, false)
      decreases |chars| - index
    {
      var ch := chars[index];
      if ch == '\n' {
        return false;
      }
      if escaped {
        escaped := false;
        index := index + 1;
        continue;
      }
      if ch == '\\' {
        escaped := true;
        index := index + 1;
      } else if ch == '\'' {
        return true;
      } else if IsWhitespace(ch) {
        return false;
      } else {
        index := index + 1;
      }
    }
    return false;
  }

  /** Reads identifier characters from `start + skip`; raw identifiers skip their prefix. */
  method ReadIdentifier(tables: CharTables, chars: seq<char>, start: nat, skip: nat) returns (ident: string, index: nat)
    requires start + skip <= |chars|
    ensures index == IdentEnd(tables, chars, start + skip)
    ensures ident == chars[start..index]
  {
    index := start + skip;
    while index < |chars| && IsIdentContinue(tables, chars[index])
      invariant start + skip <= index <= |chars|
      invariant IdentEnd(tables, chars, index) == IdentEnd(tables, chars, start + skip)
    {
      index := index + 1;
    }
    ident := chars[start..index];
  }

  method SkipLineComment(chars: seq<char>, start: nat) returns (index: nat)
    requires start <= |chars|
    ensures index == LineCommentEnd(chars, start)
  {
    index := start;
    while index < |chars| && chars[index] != '\n'
      invariant start <= index <= |chars|
      invariant LineCommentEnd(chars, index) == LineCommentEnd(chars, start)
    {
      index := index + 1;
    }
  }

  /** One step of the tokenizer: the lexeme at `index`, with the line count carried across it. */
  method ScanLexeme(tables: CharTables, chars: seq<char>, index: nat, line: nat) returns (lexeme: Lexeme, nextLine: nat)
    requires ValidTables(tables) && index < |chars|
    ensures lexeme == NextLexeme(tables, chars, index)
    ensures nextLine == line + Newlines(chars, index, lexeme.end)
  {
    var ch := chars[index];
    nextLine := line;
    NoNewlines(chars, index, index);
    if ch == '\n' {
      return Trivia(index + 1), line + 1;
    }
    if IsWhitespace(ch) {
      return Trivia(index + 1), line;
    }
    if ch == '/' && At(chars, index + 1, '/') {
      var end := SkipLineComment(chars, index + 2);
      NoNewlines(chars, index, end);
      return Trivia(end), line;
    }
    if ch == '/' && At(chars, index + 1, '*') {
      var end;
      end, nextLine := SkipBlockComment(chars, index, line);
      return Trivia(end), nextLine;
    }
    if ch == '"' {
      var end;
      end, nextLine := SkipQuotedLiteral(chars, index, line, '"');
      return Trivia(end), nextLine;
    }
    if ch == '\'' {
      var charLiteral := IsCharLiteralStart(chars, index);
      if charLiteral {
        var end;
        end, nextLine := SkipQuotedLiteral(chars, index, line, '\'');
        return Trivia(end), nextLine;
      }
    }
    if ch == 'b' {
      lexeme, nextLine := ScanByteLexeme(tables, chars, index, line);
      return;
    }
    if ch == 'r' && IsRawStringStart(chars, index) {
      var end;
      end, nextLine := SkipRawStringLiteral(chars, index, line);
      return Trivia(end), nextLine;
    }
    if ch == 'r' && At(chars, index + 1, '#') && index + 2 < |chars| && IsIdentStart(tables, chars[index + 2]) {
      var ident, end := ReadIdentifier(tables, chars, index, 2);
      NoNewlines(chars, index, end);
      return Token(Ident(ident), end), line;
    }
    if IsIdentStart(tables, ch) {
      var ident, end := ReadIdentifier(tables, chars, index, 1);
      NoNewlines(chars, index, end);
      return Token(Ident(ident), end), line;
    }
    if ch in "{}()[]!" {
      return Token(Punct(ch), index + 1), line;
    }
    return Trivia(index + 1), line;
  }

  /** The `b` branch: byte strings, byte characters, raw byte strings, or an identifier. */
  method ScanByteLexeme(tables: CharTables, chars: seq<char>, index: nat, line: nat) returns (lexeme: Lexeme, nextLine: nat)
    requires ValidTables(tables) && At(chars, index, 'b')
    ensures lexeme == NextLexeme(tables, chars, index)
    ensures nextLine == line + Newlines(chars, index, lexeme.end)
  {
    NoNewlines(chars, index, index + 1);
    var charLiteral := false;
    if At(chars, index + 1, '\'') {
      charLiteral := IsCharLiteralStart(chars, index + 1);
    }
    var end;
    if At(chars, index + 1, '"') {
      end, nextLine := SkipQuotedLiteral(chars, index + 1, line, '"');
    } else if At(chars, index + 1, '\'') && charLiteral {
      end, nextLine := SkipQuotedLiteral(chars, index + 1, line, '\'');
    } else if IsRawStringStart(chars, index + 1) {
      end, nextLine := SkipRawStringLiteral(chars, index + 1, line);
    } else {
      var ident;
      ident, end := ReadIdentifier(tables, chars, index, 1);
      NoNewlines(chars, index, end);
      return Token(Ident(ident), end), line;
    }
    NewlinesSplit(chars, index, index + 1, end);
    return Trivia(end), nextLine;
  }

  lemma TakeToken(tables: CharTables, chars: seq<char>, placed: seq<Placed>, index: nat)
    requires index < |chars| && NextLexeme(tables, chars, index).Token?
    ensures var lexeme := NextLexeme(tables, chars, index);
            var longer := placed + [Placed(lexeme.kind, index, lexeme.end)];
            && longer + TokensFrom(tables, chars, lexeme.end) == placed + TokensFrom(tables, chars, index)
            && WithLines(chars, longer) == WithLines(chars, placed) + [ScannedToken(lexeme.kind, LineAt(chars, index))]
  {
  }

  /** Every step strictly advances, and the carried line is the line of the current position. */
  method TokenizeSource(tables: CharTables, chars: seq<char>) returns (tokens: seq<ScannedToken>)
    requires ValidTables(tables)
    ensures tokens == TokensOf(tables, chars)
  {
    tokens := [];
    var index, line := 0, 1;
    ghost var placed: seq<Placed> := [];
    while index < |chars|
      invariant 0 <= index <= |chars|
      invariant line == LineAt(chars, index)
      invariant placed + TokensFrom(tables, chars, index) == TokensFrom(tables, chars, 0)
      invariant tokens == WithLines(chars, placed)
    {
      var lexeme, nextLine := ScanLexeme(tables, chars, index, line);
      NewlinesSplit(chars, 0, index, lexeme.end);
      if lexeme.Token? {
        TakeToken(tables, chars, placed, index);
        tokens := tokens + [ScannedToken(lexeme.kind, line)];
        placed := placed + [Placed(lexeme.kind, index, lexeme.end)];
      }
      index, line := lexeme.end, nextLine;
    }
    assert placed + [] == placed;
  }
}
