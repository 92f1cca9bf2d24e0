/**
 Printing and reading back agree: the canonical text `Display` produces for a token is
 tokenized into that very token, spanning the whole text, followed by `Eof`. This holds for
 reserved words, operators, labels, symbols with a plain name, non-negative integers and double
 literals. Text tokens print their contents without quotes, so they are not covered.
 */
module RoundTrip {
  import opened Options
  import opened CharOps
  import opened Strings
  import opened Tokens
  import opened Lexer
  import opened LexerLemmas
  import Ast

  /** The token stream of `s` is the single token `t`, spanning all of `s`. */
  predicate ReadsBackAs(s: seq<char>, t: Token) {
    Tokenize(NewLexer(s)) == [TokenSpan(t, 0, |s|), TokenSpan(Eof, |s|, 0)]
  }

  lemma TokenizeOne(s: seq<char>, t: Token)
    requires Read(s, 0) == Scan(TokenSpan(t, 0, |s|), |s|) && t != Eof
    ensures ReadsBackAs(s, t)
  {
    ReadAtEnd(s, |s|);
  }

  lemma TokenizeTwo(s: seq<char>, t: TokenSpan, u: TokenSpan, k: nat)
    requires k <= |s| && Read(s, 0) == Scan(t, k) && Read(s, k) == Scan(u, |s|)
    requires t.token != Eof && u.token != Eof
    ensures Tokenize(NewLexer(s)) == [t, u, TokenSpan(Eof, |s|, 0)]
  {
    ReadAtEnd(s, |s|);
    assert Tokenize(Lexer(s, |s|)) == [TokenSpan(Eof, |s|, 0)];
    assert Tokenize(Lexer(s, k)) == [u] + Tokenize(Lexer(s, |s|));
  }

  predicate IsUpperWord(w: string) {
    |w| > 0 && forall i :: 0 <= i < |w| ==> 'A' <= w[i] <= 'Z'
  }

  lemma UpperOfUpperWord(w: string)
    requires IsUpperWord(w)
    ensures Upper(w) == w
  {
  }

  /** Reserved words are printed as upper-case letters. */
  lemma KeywordSpelling(t: Token)
    requires IsKeyword(t)
    ensures IsUpperWord(Display(t))
  {
    if t == And || t == As || t == BooleanName || t == Data {
      KeywordSpelling0(t);
    } else if t == Dim || t == DoubleName || t == Else || t == Elseif {
      KeywordSpelling1(t);
    } else if t == End || t == Boolean(false) || t == For || t == Goto {
      KeywordSpelling2(t);
    } else if t == If || t == IntegerName || t == Modulo || t == Next {
      KeywordSpelling3(t);
    } else if t == Not || t == Or || t == Step || t == TextName {
      KeywordSpelling4(t);
    } else if t == Then || t == To || t == Boolean(true) || t == Wend {
      KeywordSpelling5(t);
    } else if t == While || t == Xor {
      KeywordSpelling6(t);
    }
  }

  /** `KeywordSpelling` for `And`, `As`, `BooleanName` and `Data`. The table is split into small groups so that each proof stays within the verifier's resource limit. */
  lemma KeywordSpelling0(t: Token)
    requires t == And || t == As || t == BooleanName || t == Data
    ensures IsUpperWord(Display(t))
  {
    if t == And {
      assert Display(t) == "AND";
    } else if t == As {
      assert Display(t) == "AS";
    } else if t == BooleanName {
      assert Display(t) == "BOOLEAN";
    } else if t == Data {
      assert Display(t) == "DATA";
    }
  }

  /** `KeywordSpelling` for `Dim`, `DoubleName`, `Else` and `Elseif`. */
  lemma KeywordSpelling1(t: Token)
    requires t == Dim || t == DoubleName || t == Else || t == Elseif
    ensures IsUpperWord(Display(t))
  {
    if t == Dim {
      assert Display(t) == "DIM";
    } else if t == DoubleName {
      assert Display(t) == "DOUBLE";
    } else if t == Else {
      assert Display(t) == "ELSE";
    } else if t == Elseif {
      assert Display(t) == "ELSEIF";
    }
  }

  /** `KeywordSpelling` for `End`, `Boolean(false)`, `For` and `Goto`. */
  lemma KeywordSpelling2(t: Token)
    requires t == End || t == Boolean(false) || t == For || t == Goto
    ensures IsUpperWord(Display(t))
  {
    if t == End {
      assert Display(t) == "END";
    } else if t == Boolean(false) {
      assert Display(t) == "FALSE";
    } else if t == For {
      assert Display(t) == "FOR";
    } else if t == Goto {
      assert Display(t) == "GOTO";
    }
  }

  /** `KeywordSpelling` for `If`, `IntegerName`, `Modulo` and `Next`. */
  lemma KeywordSpelling3(t: Token)
    requires t == If || t == IntegerName || t == Modulo || t == Next
    ensures IsUpperWord(Display(t))
  {
    if t == If {
      assert Display(t) == "IF";
    } else if t == IntegerName {
      assert Display(t) == "INTEGER";
    } else if t == Modulo {
      assert Display(t) == "MOD";
    } else if t == Next {
      assert Display(t) == "NEXT";
    }
  }

  /** `KeywordSpelling` for `Not`, `Or`, `Step` and `TextName`. */
  lemma KeywordSpelling4(t: Token)
    requires t == Not || t == Or || t == Step || t == TextName
    ensures IsUpperWord(Display(t))
  {
    if t == Not {
      assert Display(t) == "NOT";
    } else if t == Or {
      assert Display(t) == "OR";
    } else if t == Step {
      assert Display(t) == "STEP";
    } else if t == TextName {
      assert Display(t) == "STRING";
    }
  }

  /** `KeywordSpelling` for `Then`, `To`, `Boolean(true)` and `Wend`. */
  lemma KeywordSpelling5(t: Token)
    requires t == Then || t == To || t == Boolean(true) || t == Wend
    ensures IsUpperWord(Display(t))
  {
    if t == Then {
      assert Display(t) == "THEN";
    } else if t == To {
      assert Display(t) == "TO";
    } else if t == Boolean(true) {
      assert Display(t) == "TRUE";
    } else if t == Wend {
      assert Display(t) == "WEND";
    }
  }

  /** `KeywordSpelling` for `While` and `Xor`. */
  lemma KeywordSpelling6(t: Token)
    requires t == While || t == Xor
    ensures IsUpperWord(Display(t))
  {
    if t == While {
      assert Display(t) == "WHILE";
    } else if t == Xor {
      assert Display(t) == "XOR";
    }
  }

  /** A keyword token printed in canonical form reads back as itself. */
  lemma KeywordReadsBack(t: Token)
    requires IsKeyword(t)
    ensures ReadsBackAs(Display(t), t)
  {
    var d := Display(t);
    KeywordSpelling(t);
    UpperOfUpperWord(d);
    DisplayedKeywordIsReserved(t);
    RemIsNotAToken();
    assert d[0..|d|] == d;
    DispatchSymbol(d, 0);
    ConsumeWord(d, 0, |d|);
    TokenizeOne(d, t);
  }

  /** An operator or punctuation token printed in canonical form reads back as itself. */
  lemma OperatorReadsBack(t: Token)
    requires IsOperator(t)
    ensures ReadsBackAs(Display(t), t)
  {
    var d := Display(t);
    if t in {Less, Greater, LessEqual, GreaterEqual, NotEqual} {
      DispatchOperator(d, 0);
      RelationalOperators(d, 0);
    } else {
      ReadPunctuation(d, 0, t);
    }
    TokenizeOne(d, t);
  }

  /** A non-negative integer printed in decimal reads back as the same integer. */
  lemma IntegerReadsBack(i: Int32)
    requires i >= 0
    ensures ReadsBackAs(Display(Integer(i)), Integer(i))
  {
    var d := NatToDecimal(i);
    assert d[0..|d|] == d;
    DispatchNumber(d, 0);
    ConsumeInteger(d, 0, |d|);
    TokenizeOne(d, Integer(i));
  }

  /** The decimal spelling of 2^31, the magnitude of the smallest 32-bit integer. */
  lemma MinIntMagnitude()
    ensures NatToDecimal(0x8000_0000) == "2147483648"
  {
    assert NatToDecimal(2) == "2";
    assert NatToDecimal(21) == "21";
    assert NatToDecimal(214) == "214";
    assert NatToDecimal(2147) == "2147";
    assert NatToDecimal(21474) == "21474";
    assert NatToDecimal(214748) == "214748";
    assert NatToDecimal(2147483) == "2147483";
    assert NatToDecimal(21474836) == "21474836";
    assert NatToDecimal(214748364) == "214748364";
    assert NatToDecimal(2147483648) == "2147483648";
  }

  /** The minus sign a negative integer prints with is read as an operator of its own. */
  lemma SignRead(i: Int32)
    requires i < 0
    ensures |Display(Integer(i))| >= 2
    ensures Read(Display(Integer(i)), 0) == Scan(TokenSpan(Minus, 0, 1), 1)
  {
    ReadPunctuation(Display(Integer(i)), 0, Minus);
  }

  /** The magnitude of a negative integer, after the minus sign, is read as a number on its own. */
  lemma MagnitudeRead(i: Int32)
    requires -0x8000_0000 < i < 0
    ensures var d := Display(Integer(i));
      |d| >= 2 && Read(d, 1) == Scan(TokenSpan(Integer(-i), 1, |d| - 1), |d|)
  {
    var m := NatToDecimal(-i);
    var d := "-" + m;
    assert d[1..|d|] == m;
    DispatchNumber(d, 1);
    ConsumeInteger(d, 1, |d|);
  }

  /** Digits after a sign whose value exceeds the 32-bit range read as one bad token. */
  lemma TooLargeAfterSign(d: seq<char>, m: seq<char>)
    requires |d| == |m| + 1 && |m| > 0 && d[1..] == m && AllDigits(m) && DigitsValue(m) > MaxInt32
    ensures Read(d, 1) == Scan(TokenSpan(Bad(BadIntegerMessage(m)), 1, 1), |d|)
  {
    assert d[1..|d|] == m;
    DispatchNumber(d, 1);
    ConsumeInteger(d, 1, |d|);
  }

  /** The magnitude of the smallest 32-bit integer does not fit in an integer token. */
  lemma MinIntMagnitudeRead()
    ensures var d := Display(Integer(-0x8000_0000));
      && |d| == 11
      && Read(d, 1) ==
           Scan(TokenSpan(Bad(BadIntegerMessage("2147483648")), 1, 1), 11)
  {
    MinIntMagnitude();
    var d := "-" + NatToDecimal(0x8000_0000);
    assert d[1..] == "2147483648";
    TooLargeAfterSign(d, "2147483648");
  }

  /**
   A negative integer prints with a leading `-`, so it reads back as a minus sign followed by
   the integer's magnitude. The magnitude of the smallest 32-bit integer does not fit in an
   integer token, so that one value reads back as a bad token instead.
   */
  lemma NegativeIntegerReadsBack(i: Int32)
    requires i < 0
    ensures var d := Display(Integer(i));
      && (i > -0x8000_0000 ==>
          Tokenize(NewLexer(d)) ==
            [TokenSpan(Minus, 0, 1), TokenSpan(Integer(-i), 1, |d| - 1), TokenSpan(Eof, |d|, 0)])
      && (i == -0x8000_0000 ==>
          Tokenize(NewLexer(d)) ==
            [TokenSpan(Minus, 0, 1),
             TokenSpan(Bad(BadIntegerMessage("2147483648")), 1, 1),
             TokenSpan(Eof, |d|, 0)])
  {
    var d := Display(Integer(i));
    SignRead(i);
    if i == -0x8000_0000 {
      MinIntMagnitudeRead();
    } else {
      MagnitudeRead(i);
    }
    TokenizeTwo(d, Read(d, 0).span, Read(d, 1).span, 1);
  }

  lemma LabelRead(name: string)
    requires |name| > 0 && AllWord(name)
    ensures Read("@" + name, 0) == Scan(TokenSpan(Label(name), 0, |name| + 1), |name| + 1)
  {
    var d := "@" + name;
    assert d[1..|d|] == name;
    DispatchLabel(d, 0);
    ConsumeLabelName(d, 0, |d|);
  }

  /** A label printed in canonical form, `@` and its name, reads back as itself. */
  lemma LabelReadsBack(name: string)
    requires |name| > 0 && AllWord(name)
    ensures ReadsBackAs(Display(Label(name)), Label(name))
  {
    LabelRead(name);
    TokenizeOne("@" + name, Label(name));
  }

  /** A name the tokenizer reads as a symbol: a word, not starting with a digit, not reserved. */
  predicate IsSymbolName(name: string) {
    && |name| > 0 && AllWord(name) && !IsAsciiDigit(name[0])
    && Keyword(Upper(name)).None? && Upper(name) != "REM"
  }

  /** The sigil `Annotation` prints for a type is the one the tokenizer reads as that type. */
  lemma AnnotationIsSigil(t: Ast.VarType)
    requires t != Ast.Auto
    ensures |Ast.Annotation(t)| == 1 && SigilType(Ast.Annotation(t)[0]) == Some(t)
  {
  }

  lemma SymbolRead(v: Ast.VarRef)
    requires IsSymbolName(v.name)
    ensures var d := Ast.ShowVarRef(v); Read(d, 0) == Scan(TokenSpan(Symbol(v), 0, |d|), |d|)
  {
    var d := Ast.ShowVarRef(v);
    var n := |v.name|;
    assert d[0..n] == v.name;
    DispatchSymbol(d, 0);
    if v.vtype == Ast.Auto {
      ConsumeWord(d, 0, n);
    } else {
      AnnotationIsSigil(v.vtype);
      ConsumeTypedWord(d, 0, n);
    }
  }

  /** A symbol with a plain name, printed with its sigil, reads back as the same symbol. */
  lemma SymbolReadsBack(v: Ast.VarRef)
    requires IsSymbolName(v.name)
    ensures ReadsBackAs(Display(Symbol(v)), Symbol(v))
  {
    SymbolRead(v);
    TokenizeOne(Ast.ShowVarRef(v), Symbol(v));
  }

  /** A double literal keeps its spelling, so digits, a dot and digits read back as themselves. */
  lemma DoubleReadsBack(a: string, b: string)
    requires |a| > 0 && AllDigits(a) && |b| > 0 && AllDigits(b)
    ensures ReadsBackAs(Display(Double(a + "." + b)), Double(a + "." + b))
  {
    var d := a + "." + b;
    assert d[0..|d|] == d;
    DispatchNumber(d, 0);
    ConsumeDouble(d, 0, |a|, |d|);
    TokenizeOne(d, Double(d));
  }
}
