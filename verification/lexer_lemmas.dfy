/**
 What the EndBASIC tokenizer promises about each kind of token, stated over `Read` at an
 arbitrary index of an arbitrary input: a token is recognised by the characters that start at
 that index, whatever comes before them, and reading resumes right after it.
 */
module LexerLemmas {
  import opened Options
  import opened CharOps
  import opened Strings
  import opened Tokens
  import opened Lexer
  import Ast

  // ----- Where a token starts -----

  /** Spaces before a token are skipped; they only move where reading starts. */
  lemma ReadSkipsSpace(s: seq<char>, i: nat)
    requires i < |s| && IsSpace(s[i])
    ensures Read(s, i) == Read(s, i + 1)
  {
  }

  /** Reading from a non-space character recognises the token that starts right there. */
  lemma ReadAtToken(s: seq<char>, k: nat)
    requires k < |s| && !IsSpace(s[k])
    ensures Read(s, k) == Dispatch(s, k)
  {
  }

  /** Only spaces, or nothing, left: the stream is over. */
  lemma ReadAtEnd(s: seq<char>, i: nat)
    requires i <= |s| && forall k :: i <= k < |s| ==> IsSpace(s[k])
    ensures Read(s, i) == Scan(TokenSpan(Eof, |s|, 0), |s|)
  {
    SpaceFromIs(s, i, |s|);
  }

  /** A word character that is not a digit starts a symbol or a keyword. */
  lemma DispatchSymbol(s: seq<char>, k: nat)
    requires k < |s| && IsWord(s[k]) && !IsAsciiDigit(s[k])
    ensures Read(s, k) == ConsumeSymbol(s, k)
  {
    assert !IsSeparator(s[k]) && s[k] != '"' && s[k] != '@';
    ReadAtToken(s, k);
  }

  /** A digit starts a number. */
  lemma DispatchNumber(s: seq<char>, k: nat)
    requires k < |s| && IsAsciiDigit(s[k])
    ensures Read(s, k) == ConsumeNumber(s, k)
  {
    assert !IsSeparator(s[k]) && s[k] != '"' && s[k] != '@';
    ReadAtToken(s, k);
  }

  /** A double quote starts a string literal. */
  lemma DispatchText(s: seq<char>, k: nat)
    requires k < |s| && s[k] == '"'
    ensures Read(s, k) == ConsumeText(s, k)
  {
    ReadAtToken(s, k);
  }

  /** An `@` starts a label. */
  lemma DispatchLabel(s: seq<char>, k: nat)
    requires k < |s| && s[k] == '@'
    ensures Read(s, k) == ConsumeLabel(s, k)
  {
    ReadAtToken(s, k);
  }

  /** `<` and `>` start a relational operator. */
  lemma DispatchOperator(s: seq<char>, k: nat)
    requires k < |s| && (s[k] == '<' || s[k] == '>')
    ensures Read(s, k) == ConsumeOperator(s, k)
  {
    ReadAtToken(s, k);
  }

  // ----- Words: keywords and symbols -----

  /** A word that can start a symbol or keyword: word characters, the first not a digit. */
  predicate SymbolWordIn(s: seq<char>, i: nat, n: nat)
    requires i <= n <= |s|
  {
    i < n && AllWordIn(s, i, n) && !IsAsciiDigit(s[i])
  }

  /** The symbol scanner takes the whole word `s[i..n]`, which is pure ASCII. */
  lemma SymbolWordEnds(s: seq<char>, i: nat, n: nat)
    requires i <= n <= |s| && SymbolWordIn(s, i, n) && (n == |s| || !IsWord(s[n]))
    ensures WordFrom(s, i + 1) == n
    ensures ByteLen(s[i..n]) == n - i
  {
    WordFromIs(s, i + 1, n);
    assert AllWord(s[i..n]);
    WordIsAscii(s[i..n]);
    AsciiByteLen(s[i..n]);
  }

  /**
   A word ended by a separator or by the end of the input yields the keyword its upper-case form
   spells, whatever the case it was written in, and otherwise a symbol of type `Auto` that keeps
   the original spelling. The token spans exactly the word.
   */
  lemma ConsumeWord(s: seq<char>, i: nat, n: nat)
    requires i <= n <= |s| && SymbolWordIn(s, i, n) && AtSeparator(s, n)
    requires Upper(s[i..n]) != "REM"
    ensures Keyword(Upper(s[i..n])).Some? ==>
      ConsumeSymbol(s, i) == Scan(TokenSpan(Keyword(Upper(s[i..n])).value, i, n - i), n)
    ensures Keyword(Upper(s[i..n])).None? ==>
      ConsumeSymbol(s, i) == Scan(TokenSpan(Symbol(Ast.VarRef(s[i..n], Ast.Auto)), i, n - i), n)
  {
    SymbolWordEnds(s, i, n);
  }

  /**
   A sigil right after a word ends the symbol whatever follows and adds exactly one to its
   length. It gives a symbol its type (`?` boolean, `#` double, `%` integer, `$` text); a
   reserved word keeps its keyword token and the sigil is dropped.
   */
  lemma ConsumeTypedWord(s: seq<char>, i: nat, n: nat)
    requires i <= n < |s| && SymbolWordIn(s, i, n) && SigilType(s[n]).Some?
    requires Upper(s[i..n]) != "REM"
    ensures Keyword(Upper(s[i..n])).None? ==>
      ConsumeSymbol(s, i) == Scan(TokenSpan(Symbol(Ast.VarRef(s[i..n], SigilType(s[n]).value)), i, n - i + 1), n + 1)
    ensures Keyword(Upper(s[i..n])).Some? ==>
      ConsumeSymbol(s, i) == Scan(TokenSpan(Keyword(Upper(s[i..n])).value, i, n - i + 1), n + 1)
  {
    SymbolWordEnds(s, i, n);
  }

  /** The four sigils and the types they stand for. */
  lemma SigilTypes()
    ensures SigilType('?') == Some(Ast.Boolean) && SigilType('#') == Some(Ast.Double)
    ensures SigilType('%') == Some(Ast.Integer) && SigilType('$') == Some(Ast.Text)
    ensures forall c :: SigilType(c).Some? <==> c in "?#%$"
  {
  }

  /** Two spellings of the same reserved word that differ only in case give the same token. */
  lemma KeywordsIgnoreCase(s: seq<char>, i: nat, n: nat, s': seq<char>, i': nat, n': nat)
    requires i <= n <= |s| && SymbolWordIn(s, i, n) && AtSeparator(s, n)
    requires i' <= n' <= |s'| && SymbolWordIn(s', i', n') && AtSeparator(s', n')
    requires Upper(s[i..n]) == Upper(s'[i'..n']) && Keyword(Upper(s[i..n])).Some?
    ensures ConsumeSymbol(s, i).span.token == ConsumeSymbol(s', i').span.token
    ensures IsKeyword(ConsumeSymbol(s, i).span.token)
  {
    RemIsNotAToken();
    ConsumeWord(s, i, n);
    ConsumeWord(s', i', n');
    KeywordIsDisplayed(Upper(s[i..n]));
  }

  /** `TRUE` and `FALSE`, in any case, are boolean literals rather than symbols. */
  lemma BooleanLiterals(s: seq<char>, i: nat, n: nat)
    requires i <= n <= |s| && SymbolWordIn(s, i, n) && AtSeparator(s, n)
    ensures Upper(s[i..n]) == "TRUE" ==> ConsumeSymbol(s, i).span.token == Boolean(true)
    ensures Upper(s[i..n]) == "FALSE" ==> ConsumeSymbol(s, i).span.token == Boolean(false)
  {
    if Upper(s[i..n]) == "TRUE" {
      assert Keyword("TRUE") == Some(Boolean(true));
      ConsumeWord(s, i, n);
    } else if Upper(s[i..n]) == "FALSE" {
      assert Keyword("FALSE") == Some(Boolean(false));
      ConsumeWord(s, i, n);
    }
  }

  // ----- Comments -----

  /** What a comment that starts at `i` yields: the `Eol` of its line, or `Eof` on the last line. */
  predicate CommentEndsLine(s: seq<char>, i: nat, r: Scan)
    requires i <= |s|
  {
    && ((forall k :: i <= k < |s| ==> s[k] != '\n') ==> r == Scan(TokenSpan(Eof, |s|, 0), |s|))
    && (forall m :: i <= m < |s| && s[m] == '\n' && (forall k :: i <= k < m ==> s[k] != '\n') ==>
          r == Scan(TokenSpan(Eol, m, 1), m + 1))
  }

  lemma RestOfLine(s: seq<char>, i: nat)
    requires i <= |s|
    ensures CommentEndsLine(s, i, ConsumeRestOfLine(s, i))
  {
    forall m | i <= m < |s| && s[m] == '\n' && (forall k :: i <= k < m ==> s[k] != '\n')
      ensures ConsumeRestOfLine(s, i) == Scan(TokenSpan(Eol, m, 1), m + 1)
    {
      NewlineFromIs(s, i, m);
    }
    if forall k :: i <= k < |s| ==> s[k] != '\n' {
      NewlineFromIs(s, i, |s|);
    }
  }

  /**
   `REM`, in any case and with or without a sigil, comments out the rest of the line, colons
   included: the token returned is the `Eol` at the end of the line, positioned on the newline,
   or `Eof` when the comment is on the last line.
   */
  lemma ConsumeRem(s: seq<char>, i: nat, n: nat)
    requires i <= n <= |s| && SymbolWordIn(s, i, n) && Upper(s[i..n]) == "REM"
    requires AtSeparator(s, n) || SigilType(s[n]).Some?
    ensures CommentEndsLine(s, n, ConsumeSymbol(s, i))
  {
    SymbolWordEnds(s, i, n);
    RestOfLine(s, n);
    if n < |s| && SigilType(s[n]).Some? {
      assert s[n] != '\n';
      RestOfLine(s, n + 1);
    }
  }

  /** A `'` comments out the rest of the line just like `REM`. */
  lemma ReadQuoteComment(s: seq<char>, k: nat)
    requires k < |s| && s[k] == '\''
    ensures CommentEndsLine(s, k + 1, Read(s, k))
  {
    ReadAtToken(s, k);
    RestOfLine(s, k + 1);
  }

  // ----- Numbers -----

  /** Digits extend the number being scanned without changing anything else. */
  lemma {:induction false} ScanDigits(s: seq<char>, start: nat, j: nat, n: nat, foundDot: bool)
    requires start < j <= n <= |s| && NumberCharsIn(s, start, j) && DigitsIn(s, j, n)
    requires !foundDot ==> DigitsIn(s, start, j)
    ensures ScanNumber(s, start, j, foundDot) == ScanNumber(s, start, n, foundDot)
    decreases n
  {
    if j < n {
      ScanDigits(s, start, j, n - 1, foundDot);
      ScanDigit(s, start, n - 1, foundDot);
    }
  }

  /** One digit extends the number being scanned. */
  lemma ScanDigit(s: seq<char>, start: nat, j: nat, foundDot: bool)
    requires start < j < |s| && NumberCharsIn(s, start, j) && IsAsciiDigit(s[j])
    requires !foundDot ==> DigitsIn(s, start, j)
    ensures NumberCharsIn(s, start, j + 1) && (!foundDot ==> DigitsIn(s, start, j + 1))
    ensures ScanNumber(s, start, j, foundDot) == ScanNumber(s, start, j + 1, foundDot)
  {
    assert !IsSeparator(s[j]) && s[j] != '.';
  }

  /** The first dot after a run of digits is taken into the literal and remembered. */
  lemma ScanDot(s: seq<char>, start: nat, d: nat)
    requires start < d < |s| && DigitsIn(s, start, d) && s[d] == '.'
    ensures NumberCharsIn(s, start, d + 1)
    ensures ScanNumber(s, start, d, false) == ScanNumber(s, start, d + 1, true)
  {
    assert !IsSeparator(s[d]);
  }

  /** The text `s[a..b]` of a literal made of digits and dots is plain ASCII. */
  lemma NumberTextLength(s: seq<char>, a: nat, b: nat)
    requires a <= b <= |s| && NumberCharsIn(s, a, b)
    ensures ByteLen(s[a..b]) == b - a
  {
    assert IsAscii(s[a..b]);
    AsciiByteLen(s[a..b]);
  }

  /**
   A run of digits ended by a separator or by the end of the input is an integer that spans the
   digits, as long as its value fits in 32 bits; a larger value is a bad token of length 1 that
   ends at the same place.
   */
  lemma ConsumeInteger(s: seq<char>, i: nat, n: nat)
    requires i < n <= |s| && DigitsIn(s, i, n) && AtSeparator(s, n)
    ensures AllDigits(s[i..n])
    ensures DigitsValue(s[i..n]) <= MaxInt32 ==>
      ConsumeNumber(s, i) == Scan(TokenSpan(Integer(DigitsValue(s[i..n])), i, n - i), n)
    ensures DigitsValue(s[i..n]) > MaxInt32 ==>
      ConsumeNumber(s, i) ==
        Scan(TokenSpan(Bad("Bad integer " + s[i..n] + ": number too large to fit in target type"), i, 1), n)
  {
    assert AllDigits(s[i..n]);
    ScanDigits(s, i, i + 1, n, false);
    NumberTextLength(s, i, n);
    SeparatorFromIs(s, n, n);
  }

  /** Digits, one dot and more digits make a double literal that keeps its spelling. */
  lemma ConsumeDouble(s: seq<char>, i: nat, d: nat, n: nat)
    requires i < d && d + 1 < n <= |s| && AtSeparator(s, n)
    requires DigitsIn(s, i, d) && s[d] == '.' && DigitsIn(s, d + 1, n)
    ensures ConsumeNumber(s, i) == Scan(TokenSpan(Double(s[i..n]), i, n - i), n)
  {
    ScanDigits(s, i, i + 1, d, false);
    ScanDot(s, i, d);
    ScanDigits(s, i, d + 1, n, true);
    NumberTextLength(s, i, n);
  }

  /**
   A number ending in a dot is rejected as an unknown `.` character, the same error a dot with
   no digit before it gets. Nothing after the dot is skipped, since a separator or the end of the
   input follows it.
   */
  lemma TrailingDot(s: seq<char>, i: nat, d: nat)
    requires i < d < |s| && DigitsIn(s, i, d) && s[d] == '.' && AtSeparator(s, d + 1)
    ensures ConsumeNumber(s, i) == Scan(TokenSpan(Bad("Unknown character: ."), i, 1), d + 1)
  {
    ScanDigits(s, i, i + 1, d, false);
    SeparatorFromIs(s, d + 1, d + 1);
  }

  /**
   A second dot makes the whole literal bad. The characters after it are skipped up to the next
   separator; the length counts one for the literal plus the skipped characters.
   */
  lemma TooManyDots(s: seq<char>, i: nat, d: nat, e: nat, n: nat)
    requires i < d < e < n <= |s| && AtSeparator(s, n)
    requires DigitsIn(s, i, d) && s[d] == '.' && DigitsIn(s, d + 1, e) && s[e] == '.'
    requires NoSeparatorIn(s, e + 1, n)
    ensures ConsumeNumber(s, i) == Scan(TokenSpan(Bad("Too many dots in numeric literal"), i, n - e), n)
  {
    ScanDigits(s, i, i + 1, d, false);
    ScanDot(s, i, d);
    ScanDigits(s, i, d + 1, e, true);
    assert !IsSeparator(s[e]);
    SeparatorFromIs(s, e + 1, n);
  }

  /**
   Any other character inside a numeric literal makes it bad; like a second dot, the offending
   character and everything after it up to the next separator are swallowed.
   */
  lemma NumberBadCharacter(s: seq<char>, i: nat, m: nat, n: nat)
    requires i < m < n <= |s| && AtSeparator(s, n) && DigitsIn(s, i, m)
    requires !IsSeparator(s[m]) && !IsAsciiDigit(s[m]) && s[m] != '.'
    requires NoSeparatorIn(s, m + 1, n)
    ensures ConsumeNumber(s, i) ==
      Scan(TokenSpan(Bad("Unexpected character in numeric literal: " + [s[m]]), i, n - m), n)
  {
    ScanDigits(s, i, i + 1, m, false);
    SeparatorFromIs(s, m + 1, n);
  }

  /** The same holds for a bad character after the decimal point, as in `1.5x`. */
  lemma NumberBadCharacterAfterDot(s: seq<char>, i: nat, d: nat, m: nat, n: nat)
    requires i < d < m < n <= |s| && AtSeparator(s, n)
    requires DigitsIn(s, i, d) && s[d] == '.' && DigitsIn(s, d + 1, m)
    requires !IsSeparator(s[m]) && !IsAsciiDigit(s[m]) && s[m] != '.'
    requires NoSeparatorIn(s, m + 1, n)
    ensures ConsumeNumber(s, i) ==
      Scan(TokenSpan(Bad("Unexpected character in numeric literal: " + [s[m]]), i, n - m), n)
  {
    ScanDigits(s, i, i + 1, d, false);
    ScanDot(s, i, d);
    ScanDigits(s, i, d + 1, m, true);
    SeparatorFromIs(s, m + 1, n);
  }

  // ----- Recovery from malformed input -----

  /**
   A character that cannot start any token yields a bad token that swallows everything up to
   the next separator, so the token after it is read from that separator on.
   */
  lemma ReadUnknownCharacter(s: seq<char>, k: nat, n: nat)
    requires k < n <= |s| && AtSeparator(s, n) && NoSeparatorIn(s, k + 1, n)
    requires !IsSeparator(s[k]) && !IsWord(s[k]) && s[k] != '"' && s[k] != '@'
    ensures Read(s, k) == Scan(TokenSpan(Bad("Unknown character: " + [s[k]]), k, n - k), n)
  {
    ReadAtToken(s, k);
    SeparatorFromIs(s, k + 1, n);
  }

  /**
   A character that cannot continue a word, right after one, makes the symbol bad; the rest up
   to the next separator is skipped.
   */
  lemma BadSymbol(s: seq<char>, i: nat, m: nat, n: nat)
    requires i <= m < n <= |s| && SymbolWordIn(s, i, m) && AtSeparator(s, n)
    requires !IsWord(s[m]) && !IsSeparator(s[m]) && SigilType(s[m]).None?
    requires NoSeparatorIn(s, m + 1, n)
    ensures ConsumeSymbol(s, i) ==
      Scan(TokenSpan(Bad("Unexpected character in symbol: " + [s[m]]), i, n - m), n)
  {
    WordFromIs(s, i + 1, m);
    SeparatorFromIs(s, m + 1, n);
  }

  // ----- Strings -----

  /** Spelling of `x` inside a string literal: `"` and `\` are preceded by a backslash. */
  function Escape(x: string): (e: string)
    ensures |e| >= |x|
  {
    if x == [] then []
    else if x[0] == '"' || x[0] == '\\' then ['\\', x[0]] + Escape(x[1..])
    else [x[0]] + Escape(x[1..])
  }

  /**
   The string scanner undoes `Escape`: a backslash is dropped and makes the next character
   literal, and the first unescaped quote closes the string.
   */
  lemma {:induction false} ScanEscaped(s: seq<char>, start: nat, j: nat, acc: string, x: string)
    requires start < j && j + |Escape(x)| < |s|
    requires s[j..j + |Escape(x)|] == Escape(x) && s[j + |Escape(x)|] == '"'
    ensures ScanText(s, start, j, acc, false) ==
      Scan(TokenSpan(Text(acc + x), start, ByteLen(acc + x) + 2), j + |Escape(x)| + 1)
    decreases x
  {
    var e := Escape(x);
    if x == [] {
      assert acc + x == acc;
    } else {
      var e' := Escape(x[1..]);
      assert acc + x == (acc + [x[0]]) + x[1..];
      if x[0] == '"' || x[0] == '\\' {
        assert e == ['\\', x[0]] + e';
        assert s[j] == e[0] && s[j + 1] == e[1];
        assert s[j + 2..j + 2 + |e'|] == e[2..];
        assert ScanText(s, start, j + 1, acc, true) == ScanText(s, start, j + 2, acc + [x[0]], false);
      } else {
        assert e == [x[0]] + e';
        assert s[j] == e[0];
        assert s[j + 1..j + 1 + |e'|] == e[1..];
      }
      ScanEscaped(s, start, j + |e| - |e'|, acc + [x[0]], x[1..]);
    }
  }

  /**
   A quoted string reads back as its contents, without the quotes and the escaping
   backslashes. Its length is the contents' length in bytes plus 2.
   */
  lemma ConsumeQuoted(s: seq<char>, k: nat, x: string)
    requires k + |Escape(x)| + 1 < |s| && s[k] == '"'
    requires s[k + 1..k + 1 + |Escape(x)|] == Escape(x) && s[k + 1 + |Escape(x)|] == '"'
    ensures ConsumeText(s, k) == Scan(TokenSpan(Text(x), k, ByteLen(x) + 2), k + |Escape(x)| + 2)
  {
    ScanEscaped(s, k, k + 1, [], x);
    assert [] + x == x;
  }

  /** Running out of input inside a string gives a bad token carrying what was read so far. */
  lemma {:induction false} ScanEscapedToEof(s: seq<char>, start: nat, j: nat, acc: string, x: string)
    requires start < j && j + |Escape(x)| == |s| && s[j..] == Escape(x)
    ensures ScanText(s, start, j, acc, false) ==
      Scan(TokenSpan(Bad("Incomplete string due to EOF: " + acc + x), start, 1), |s|)
    decreases x
  {
    var e := Escape(x);
    if x == [] {
      assert acc + x == acc;
    } else {
      var e' := Escape(x[1..]);
      assert "Incomplete string due to EOF: " + acc + x ==
        "Incomplete string due to EOF: " + (acc + [x[0]]) + x[1..];
      if x[0] == '"' || x[0] == '\\' {
        assert e == ['\\', x[0]] + e';
        assert s[j] == e[0] && s[j + 1] == e[1];
        assert s[j + 2..] == e[2..];
        assert ScanText(s, start, j + 1, acc, true) == ScanText(s, start, j + 2, acc + [x[0]], false);
      } else {
        assert e == [x[0]] + e';
        assert s[j] == e[0];
        assert s[j + 1..] == e[1..];
      }
      ScanEscapedToEof(s, start, j + |e| - |e'|, acc + [x[0]], x[1..]);
    }
  }

  /** A string left open at the end of the input is a bad token of length 1 that ends the input. */
  lemma UnterminatedText(s: seq<char>, k: nat, x: string)
    requires k < |s| && s[k] == '"' && s[k + 1..] == Escape(x)
    ensures ConsumeText(s, k) == Scan(TokenSpan(Bad("Incomplete string due to EOF: " + x), k, 1), |s|)
  {
    ScanEscapedToEof(s, k, k + 1, [], x);
    assert "Incomplete string due to EOF: " + [] + x == "Incomplete string due to EOF: " + x;
  }

  /**
   The body of a string literal as written between its quotes: every backslash is followed by
   the character it makes literal, and no other character is a double quote.
   */
  predicate Body(e: string)
    decreases |e|
  {
    if |e| == 0 then true
    else if e[0] == '\\' then |e| >= 2 && Body(e[2..])
    else e[0] != '"' && Body(e[1..])
  }

  /** The contents a literal body stands for: each backslash is dropped and the character after it kept. */
  function Unescape(e: string): (x: string)
    requires Body(e)
    ensures |x| <= |e|
    decreases |e|
  {
    if |e| == 0 then []
    else if e[0] == '\\' then [e[1]] + Unescape(e[2..])
    else [e[0]] + Unescape(e[1..])
  }

  /** `Escape` spells every text as a literal body, and `Unescape` gives the text back. */
  lemma {:induction false} EscapeIsBody(x: string)
    ensures Body(Escape(x)) && Unescape(Escape(x)) == x
    decreases |x|
  {
    if x != [] {
      var e := Escape(x);
      EscapeIsBody(x[1..]);
      if x[0] == '"' || x[0] == '\\' {
        assert e[2..] == Escape(x[1..]);
      } else {
        assert e[1..] == Escape(x[1..]);
      }
      assert [x[0]] + x[1..] == x;
    }
  }

  /** Scanning across a literal body collects its unescaped contents and stops right after it. */
  lemma {:induction false} ScanBodyPrefix(s: seq<char>, start: nat, j: nat, q: nat, acc: string)
    requires start < j <= q <= |s| && Body(s[j..q])
    ensures ScanText(s, start, j, acc, false) == ScanText(s, start, q, acc + Unescape(s[j..q]), false)
    decreases q - j
  {
    var e := s[j..q];
    if j == q {
      assert acc + Unescape(e) == acc;
    } else if s[j] == '\\' {
      assert e[2..] == s[j + 2..q];
      assert acc + Unescape(e) == (acc + [s[j + 1]]) + Unescape(s[j + 2..q]);
      ScanBodyPrefix(s, start, j + 2, q, acc + [s[j + 1]]);
    } else {
      assert e[1..] == s[j + 1..q];
      assert acc + Unescape(e) == (acc + [s[j]]) + Unescape(s[j + 1..q]);
      ScanBodyPrefix(s, start, j + 1, q, acc + [s[j]]);
    }
  }

  /**
   A string literal is read as the unescaped contents of its body: any character after a
   backslash is kept as it is (`\a` reads as `a`), and the first quote not preceded by a backslash
   closes the string. The length is the contents' length in bytes plus the two quotes.
   */
  lemma QuotedBody(s: seq<char>, k: nat, q: nat)
    requires k < q < |s| && s[k] == '"' && s[q] == '"' && Body(s[k + 1..q])
    ensures ConsumeText(s, k) ==
      Scan(TokenSpan(Text(Unescape(s[k + 1..q])), k, ByteLen(Unescape(s[k + 1..q])) + 2), q + 1)
  {
    ScanBodyPrefix(s, k, k + 1, q, []);
    assert [] + Unescape(s[k + 1..q]) == Unescape(s[k + 1..q]);
  }

  /** A string whose body runs to the end of the input is a bad token carrying the unescaped contents. */
  lemma OpenBody(s: seq<char>, k: nat)
    requires k < |s| && s[k] == '"' && Body(s[k + 1..])
    ensures ConsumeText(s, k) ==
      Scan(TokenSpan(Bad("Incomplete string due to EOF: " + Unescape(s[k + 1..])), k, 1), |s|)
  {
    assert s[k + 1..|s|] == s[k + 1..];
    ScanBodyPrefix(s, k, k + 1, |s|, []);
    assert [] + Unescape(s[k + 1..]) == Unescape(s[k + 1..]);
  }

  /** A backslash as the last character of the input is dropped from the contents of the open string. */
  lemma OpenBodyEscape(s: seq<char>, k: nat)
    requires k + 1 < |s| && s[k] == '"' && s[|s| - 1] == '\\' && Body(s[k + 1..|s| - 1])
    ensures ConsumeText(s, k) ==
      Scan(TokenSpan(Bad("Incomplete string due to EOF: " + Unescape(s[k + 1..|s| - 1])), k, 1), |s|)
  {
    ScanBodyPrefix(s, k, k + 1, |s| - 1, []);
    assert [] + Unescape(s[k + 1..|s| - 1]) == Unescape(s[k + 1..|s| - 1]);
  }

  // ----- Labels -----

  /**
   `@` followed by word characters is a label (digits-only names included) whose length counts
   the `@`; `@` directly followed by a separator or the end is a bad token of length 1.
   */
  lemma ConsumeLabelName(s: seq<char>, k: nat, n: nat)
    requires k < n <= |s| && s[k] == '@' && AllWordIn(s, k + 1, n) && AtSeparator(s, n)
    ensures n > k + 1 ==> ConsumeLabel(s, k) == Scan(TokenSpan(Label(s[k + 1..n]), k, n - k), n)
    ensures n == k + 1 ==> ConsumeLabel(s, k) == Scan(TokenSpan(Bad("Empty label name"), k, 1), n)
  {
    WordFromIs(s, k + 1, n);
    assert AllWord(s[k + 1..n]);
    WordIsAscii(s[k + 1..n]);
    AsciiByteLen(s[k + 1..n]);
  }

  /**
   A character in a label that is neither a word character nor a separator makes the label bad;
   it and everything up to the next separator are swallowed.
   */
  lemma LabelBadCharacter(s: seq<char>, k: nat, m: nat, n: nat)
    requires k < m < n <= |s| && s[k] == '@' && AllWordIn(s, k + 1, m) && AtSeparator(s, n)
    requires !IsWord(s[m]) && !IsSeparator(s[m]) && NoSeparatorIn(s, m + 1, n)
    ensures ConsumeLabel(s, k) == Scan(TokenSpan(Bad("Unexpected character in label: " + [s[m]]), k, n - m), n)
  {
    WordFromIs(s, k + 1, m);
    SeparatorFromIs(s, m + 1, n);
  }

  // ----- Operators and statement ends -----

  /**
   Relational operators are read greedily: `<>`, `<=` and `>=` are single two-character
   tokens; `<` and `>` stand alone only when what follows cannot extend them.
   */
  lemma RelationalOperators(s: seq<char>, k: nat)
    requires k < |s| && (s[k] == '<' || s[k] == '>')
    ensures s[k] == '<' && k + 1 < |s| && s[k + 1] == '>' ==>
      ConsumeOperator(s, k) == Scan(TokenSpan(NotEqual, k, 2), k + 2)
    ensures s[k] == '<' && k + 1 < |s| && s[k + 1] == '=' ==>
      ConsumeOperator(s, k) == Scan(TokenSpan(LessEqual, k, 2), k + 2)
    ensures s[k] == '>' && k + 1 < |s| && s[k + 1] == '=' ==>
      ConsumeOperator(s, k) == Scan(TokenSpan(GreaterEqual, k, 2), k + 2)
    ensures s[k] == '<' && (k + 1 == |s| || (s[k + 1] != '>' && s[k + 1] != '=')) ==>
      ConsumeOperator(s, k) == Scan(TokenSpan(Less, k, 1), k + 1)
    ensures s[k] == '>' && (k + 1 == |s| || s[k + 1] != '=') ==>
      ConsumeOperator(s, k) == Scan(TokenSpan(Greater, k, 1), k + 1)
  {
  }

  /** Both a newline and a colon end a statement. */
  lemma ReadEndOfStatement(s: seq<char>, k: nat)
    requires k < |s| && (s[k] == '\n' || s[k] == ':')
    ensures Read(s, k) == Scan(TokenSpan(Eol, k, 1), k + 1)
  {
    ReadAtToken(s, k);
  }

  /**
   Every other punctuation or arithmetic character is a one-character token on its own,
   whatever follows it: the token that prints as that character.
   */
  lemma ReadPunctuation(s: seq<char>, k: nat, t: Token)
    requires k < |s| && IsOperator(t) && Display(t) == [s[k]]
    requires !(t in {Less, Greater, LessEqual, GreaterEqual, NotEqual})
    ensures Read(s, k) == Scan(TokenSpan(t, k, 1), k + 1)
  {
    ReadAtToken(s, k);
  }
}
