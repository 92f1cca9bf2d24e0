/**
 The EndBASIC tokenizer: a single pass over the input that turns characters into tokens.

 Every scanning function is pure. It receives the whole input `s` and the index of the next
 character to look at, and returns the token it recognised together with the index right after
 the last character it consumed, so the next token is always read from there. Positions are
 character offsets into `s`. Malformed input never stops the tokenizer: it yields a `Bad` token
 and resumes at the next separator.

 A `Consume…` function is called once the token's first character, at index `start`, has been
 taken off the input; it continues reading at `start + 1`.
 */
module Lexer {
  import opened Options
  import opened CharOps
  import opened Strings
  import opened Tokens
  import Ast

  /** A recognised token and the index of the first character after it. */
  datatype Scan = Scan(span: TokenSpan, next: nat)

  /**
   After a `Bad` token whose first character is at `start`, the input resumes at a separator or
   at the end, and, unless the input ran out, nothing the bad token swallowed was a separator:
   the tokenizer stops at the very first separator after the offending character.
   */
  predicate Resyncs(s: seq<char>, start: nat, r: Scan)
    requires start <= r.next <= |s|
  {
    r.span.token.Bad? ==>
      && AtSeparator(s, r.next)
      && (r.next < |s| ==> NoSeparatorIn(s, start, r.next))
  }

  /**
   The stronger form every malformed number, symbol and label meets: after a `Bad` token whose
   first character is at `start`, the input resumes at a separator or at the end, and nothing
   the bad token swallowed was a separator, whether or not the input ran out.
   */
  predicate ResyncsAtFirst(s: seq<char>, start: nat, r: Scan)
    requires start <= r.next <= |s|
  {
    r.span.token.Bad? ==> AtSeparator(s, r.next) && NoSeparatorIn(s, start, r.next)
  }

  /**
   Produces a `Bad` token with message `msg` for the token starting at `start`, after an
   unexpected character was consumed, and skips the rest of the malformed token: everything from
   `i` up to the next separator. The length counts one character for the token so far plus every
   character skipped.
   */
  function HandleBadRead(msg: string, s: seq<char>, start: nat, i: nat): (r: Scan)
    requires start < i <= |s|
    ensures i <= r.next <= |s| && AtSeparator(s, r.next) && NoSeparatorIn(s, i, r.next)
    ensures r.span == TokenSpan(Bad(msg), start, 1 + (r.next - i))
  {
    var n := SeparatorFrom(s, i);
    Scan(TokenSpan(Bad(msg), start, 1 + (n - i)), n)
  }

  function BadIntegerMessage(text: string): string {
    "Bad integer " + text + ": number too large to fit in target type"
  }

  /** `s[a..b]` may be part of a numeric literal: digits and dots only. */
  predicate NumberCharsIn(s: seq<char>, a: nat, b: nat)
    requires a <= b <= |s|
  {
    forall k :: a <= k < b ==> IsAsciiDigit(s[k]) || s[k] == '.'
  }

  predicate DigitsIn(s: seq<char>, a: nat, b: nat)
    requires a <= b <= |s|
  {
    forall k :: a <= k < b ==> IsAsciiDigit(s[k])
  }

  /** Consumes a number whose first digit is `s[start]`. */
  function ConsumeNumber(s: seq<char>, start: nat): (r: Scan)
    requires start < |s| && IsAsciiDigit(s[start])
    ensures start < r.next <= |s| && AtSeparator(s, r.next) && ResyncsAtFirst(s, start, r)
    ensures r.span.pos == start && !r.span.token.Eof? && !r.span.token.Eol?
  {
    ScanNumber(s, start, start + 1, false)
  }

  /**
   Scans the rest of a numeric literal whose characters so far are `s[start..j]`; `foundDot`
   says whether one of them is the decimal point.
   */
  function ScanNumber(s: seq<char>, start: nat, j: nat, foundDot: bool): (r: Scan)
    requires start < j <= |s| && NumberCharsIn(s, start, j)
    requires !foundDot ==> DigitsIn(s, start, j)
    ensures j <= r.next <= |s| && AtSeparator(s, r.next) && ResyncsAtFirst(s, start, r)
    ensures r.span.pos == start && !r.span.token.Eof? && !r.span.token.Eol?
    decreases |s| - j
  {
    // A dot or a digit is never a separator, so testing for separators first is equivalent to
    // the order dot, digit, separator, anything else.
    if j == |s| || IsSeparator(s[j]) then FinishNumber(s, start, j, foundDot)
    else if s[j] == '.' then
      if foundDot then HandleBadRead("Too many dots in numeric literal", s, start, j + 1)
      else ScanNumber(s, start, j + 1, true)
    else if IsAsciiDigit(s[j]) then ScanNumber(s, start, j + 1, foundDot)
    else HandleBadRead("Unexpected character in numeric literal: " + [s[j]], s, start, j + 1)
  }

  /** Turns the complete numeric literal `s[start..j]`, followed by a separator or the end, into a token. */
  function FinishNumber(s: seq<char>, start: nat, j: nat, foundDot: bool): (r: Scan)
    requires start < j <= |s| && AtSeparator(s, j) && NumberCharsIn(s, start, j)
    requires !foundDot ==> DigitsIn(s, start, j)
    ensures r.next == j && ResyncsAtFirst(s, start, r)
    ensures r.span.pos == start && !r.span.token.Eof? && !r.span.token.Eol?
  {
    var text := s[start..j];
    if foundDot then
      if s[j - 1] == '.' then HandleBadRead("Unknown character: .", s, start, j)
      else Scan(TokenSpan(Double(text), start, ByteLen(text)), j)
    else if DigitsValue(text) <= MaxInt32 then
      Scan(TokenSpan(Integer(DigitsValue(text)), start, ByteLen(text)), j)
    else HandleBadRead(BadIntegerMessage(text), s, start, j)
  }

  /** Consumes a relational operator whose first character `s[start]` is `<` or `>`. */
  function ConsumeOperator(s: seq<char>, start: nat): (r: Scan)
    requires start < |s| && (s[start] == '<' || s[start] == '>')
    ensures start < r.next <= |s| && r.span.pos == start
    ensures r.span.token in {Less, LessEqual, NotEqual, Greater, GreaterEqual}
  {
    var j := start + 1;
    if s[start] == '<' && j < |s| && s[j] == '>' then Scan(TokenSpan(NotEqual, start, 2), j + 1)
    else if s[start] == '<' && j < |s| && s[j] == '=' then Scan(TokenSpan(LessEqual, start, 2), j + 1)
    else if s[start] == '<' then Scan(TokenSpan(Less, start, 1), j)
    else if j < |s| && s[j] == '=' then Scan(TokenSpan(GreaterEqual, start, 2), j + 1)
    else Scan(TokenSpan(Greater, start, 1), j)
  }

  /** The type a sigil character annotates a symbol with. */
  function SigilType(c: char): Option<Ast.VarType> {
    match c
    case '?' => Some(Ast.Boolean)
    case '#' => Some(Ast.Double)
    case '%' => Some(Ast.Integer)
    case '$' => Some(Ast.Text)
    case _ => None
  }

  /**
   Consumes a symbol or keyword whose first character is `s[start]`. The word may be followed by
   one sigil, which gives the symbol its type and ends it. A word spelling `REM` in any case
   starts a comment instead.
   */
  function ConsumeSymbol(s: seq<char>, start: nat): (r: Scan)
    requires start < |s| && IsWord(s[start])
    ensures start < r.next <= |s| && ResyncsAtFirst(s, start, r)
    ensures r.span.token.Eof? ==> r.next == |s| && r.span == TokenSpan(Eof, |s|, 0)
    ensures !r.span.token.Eof? && !r.span.token.Eol? ==> r.span.pos == start
  {
    var n := WordFrom(s, start + 1);
    if n < |s| && !IsSeparator(s[n]) && SigilType(s[n]).None? then
      HandleBadRead("Unexpected character in symbol: " + [s[n]], s, start, n + 1)
    else
      var sigil := if n < |s| && SigilType(s[n]).Some? then 1 else 0;
      var vtype := if sigil == 1 then SigilType(s[n]).value else Ast.Auto;
      var word := s[start..n];
      if Upper(word) == "REM" then ConsumeRestOfLine(s, n + sigil)
      else Scan(TokenSpan(WordToken(word, vtype), start, ByteLen(word) + sigil), n + sigil)
  }

  /**
   The token a word other than `REM` stands for: the reserved word its upper-case form spells,
   or else a symbol that keeps the word's own spelling and the type `vtype` of its sigil.
   */
  function WordToken(word: string, vtype: Ast.VarType): (tok: Token)
    ensures tok.Symbol? || IsKeyword(tok)
  {
    match Keyword(Upper(word))
    case Some(k) => KeywordIsDisplayed(Upper(word)); k
    case None => Symbol(Ast.VarRef(word, vtype))
  }

  /** Consumes a string literal whose opening double quote is `s[start]`. */
  function ConsumeText(s: seq<char>, start: nat): (r: Scan)
    requires start < |s|
    ensures start < r.next <= |s| && Resyncs(s, start, r)
    ensures r.span.pos == start && (r.span.token.Text? || r.span.token.Bad?)
  {
    ScanText(s, start, start + 1, [], false)
  }

  /**
   Scans the rest of a string literal from `s[j]`. `acc` holds the contents read so far and
   `escaping` says whether the previous character was a backslash, which makes the next one
   literal.
   */
  function ScanText(s: seq<char>, start: nat, j: nat, acc: string, escaping: bool): (r: Scan)
    requires start < j <= |s|
    ensures j <= r.next <= |s|
    ensures r.span.token.Bad? ==> r.next == |s| && r.span.length == 1
    ensures r.span.pos == start && (r.span.token.Text? || r.span.token.Bad?)
    decreases |s| - j
  {
    if j == |s| then HandleBadRead("Incomplete string due to EOF: " + acc, s, start, j)
    else if escaping then ScanText(s, start, j + 1, acc + [s[j]], false)
    else if s[j] == '\\' then ScanText(s, start, j + 1, acc, true)
    else if s[j] == '"' then Scan(TokenSpan(Text(acc), start, ByteLen(acc) + 2), j + 1)
    else ScanText(s, start, j + 1, acc + [s[j]], false)
  }

  /** Consumes a label whose `@` is `s[start]`. */
  function ConsumeLabel(s: seq<char>, start: nat): (r: Scan)
    requires start < |s| && s[start] == '@'
    ensures start < r.next <= |s| && AtSeparator(s, r.next) && ResyncsAtFirst(s, start, r)
    ensures r.span.pos == start && (r.span.token.Label? || r.span.token.Bad?)
  {
    var n := WordFrom(s, start + 1);
    if n < |s| && !IsSeparator(s[n]) then
      HandleBadRead("Unexpected character in label: " + [s[n]], s, start, n + 1)
    else if n == start + 1 then Scan(TokenSpan(Bad("Empty label name"), start, 1), n)
    else
      var name := s[start + 1..n];
      Scan(TokenSpan(Label(name), start, ByteLen(name) + 1), n)
  }

  /**
   Skips a comment: everything from `s[i]` up to the end of the line. Returns the `Eol` that
   ends it, positioned on the newline, or `Eof` when the input ends first.
   */
  function ConsumeRestOfLine(s: seq<char>, i: nat): (r: Scan)
    requires i <= |s|
    ensures i <= r.next <= |s|
    ensures r.span.token == Eol || r.span.token == Eof
    ensures r.span.token == Eof ==>
      && r.span == TokenSpan(Eof, |s|, 0) && r.next == |s|
      && forall k :: i <= k < |s| ==> s[k] != '\n'
    ensures r.span.token == Eol ==>
      && r.span.length == 1 && i <= r.span.pos < |s| && r.next == r.span.pos + 1
      && s[r.span.pos] == '\n' && forall k :: i <= k < r.span.pos ==> s[k] != '\n'
  {
    var n := NewlineFrom(s, i);
    if n == |s| then Scan(TokenSpan(Eof, |s|, 0), |s|) else Scan(TokenSpan(Eol, n, 1), n + 1)
  }

  /** Recognises the token whose first character is `s[k]`, which is not a space. */
  function Dispatch(s: seq<char>, k: nat): (r: Scan)
    requires k < |s| && !IsSpace(s[k])
    ensures k < r.next <= |s|
    ensures r.span.token.Bad? ==> !IsSeparator(s[k]) && Resyncs(s, k, r)
    ensures !r.span.token.Eof? && !r.span.token.Eol? ==> r.span.pos == k
    ensures r.span.token.Eof? ==> r.next == |s| && r.span == TokenSpan(Eof, |s|, 0)
  {
    match s[k]
    case '\n' | ':' => Scan(TokenSpan(Eol, k, 1), k + 1)
    case '\'' => ConsumeRestOfLine(s, k + 1)
    case '"' => ConsumeText(s, k)
    case ';' => Scan(TokenSpan(Semicolon, k, 1), k + 1)
    case ',' => Scan(TokenSpan(Comma, k, 1), k + 1)
    case '(' => Scan(TokenSpan(LeftParen, k, 1), k + 1)
    case ')' => Scan(TokenSpan(RightParen, k, 1), k + 1)
    case '+' => Scan(TokenSpan(Plus, k, 1), k + 1)
    case '-' => Scan(TokenSpan(Minus, k, 1), k + 1)
    case '*' => Scan(TokenSpan(Multiply, k, 1), k + 1)
    case '/' => Scan(TokenSpan(Divide, k, 1), k + 1)
    case '^' => Scan(TokenSpan(Exponent, k, 1), k + 1)
    case '=' => Scan(TokenSpan(Equal, k, 1), k + 1)
    case '<' | '>' => ConsumeOperator(s, k)
    case '@' => ConsumeLabel(s, k)
    case _ =>
      if IsAsciiDigit(s[k]) then ConsumeNumber(s, k)
      else if IsWord(s[k]) then ConsumeSymbol(s, k)
      else HandleBadRead("Unknown character: " + [s[k]], s, k, k + 1)
  }

  /**
   Reads the token of `s` that starts at or after index `i`: skips spaces, then recognises one
   token. `Eof` comes only once the input is exhausted (possibly by a comment) and has length 0;
   every other token consumes at least one character, so repeated reads always make progress.
   */
  function Read(s: seq<char>, i: nat): (r: Scan)
    requires i <= |s|
    ensures i <= r.next <= |s| && i <= r.span.pos
    ensures r.span.token == Eof ==> r.next == |s| && r.span == TokenSpan(Eof, |s|, 0)
    ensures r.span.token != Eof ==> i < r.next && r.span.pos < r.next
    ensures r.span.token.Bad? ==>
      && r.span.pos < r.next && AtSeparator(s, r.next)
      && (r.next < |s| ==> NoSeparatorIn(s, r.span.pos, r.next))
  {
    var k := SpaceFrom(s, i);
    if k == |s| then Scan(TokenSpan(Eof, |s|, 0), |s|) else Dispatch(s, k)
  }

  /** A tokenizer over a stream: the whole input and the index of the next unread character. */
  datatype Lexer = Lexer(input: seq<char>, pos: nat) {
    predicate Valid() {
      pos <= |input|
    }
  }

  function NewLexer(s: seq<char>): (l: Lexer)
    ensures l.Valid()
  {
    Lexer(s, 0)
  }

  /** Reads the next token of the stream and advances past it. */
  function NextToken(l: Lexer): (r: (TokenSpan, Lexer))
    requires l.Valid()
    ensures r.1.Valid() && r.1.input == l.input && l.pos <= r.1.pos
    ensures r.0.token == Eof ==> r.1.pos == |l.input| && r.0 == TokenSpan(Eof, |l.input|, 0)
    ensures r.0.token != Eof ==> l.pos <= r.0.pos < r.1.pos
  {
    var sc := Read(l.input, l.pos);
    (sc.span, Lexer(l.input, sc.next))
  }

  /** All tokens of the stream, up to and including the first `Eof`. */
  function Tokenize(l: Lexer): (ts: seq<TokenSpan>)
    requires l.Valid()
    ensures |ts| > 0 && ts[|ts| - 1] == TokenSpan(Eof, |l.input|, 0)
    ensures forall i :: 0 <= i < |ts| - 1 ==> ts[i].token != Eof
    ensures forall i :: 0 <= i < |ts| ==> l.pos <= ts[i].pos
    ensures forall i :: 0 <= i < |ts| - 1 ==> ts[i].pos < ts[i + 1].pos
    decreases |l.input| - l.pos
  {
    var r := NextToken(l);
    if r.0.token == Eof then [r.0] else [r.0] + Tokenize(r.1)
  }
}
