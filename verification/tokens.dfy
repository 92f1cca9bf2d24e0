/**
 The tokens of the EndBASIC language, their canonical printed form, and the table of reserved
 words the tokenizer recognises regardless of case.

 `Eof` says there are no more tokens. `Bad` carries the reason a token was malformed; the token
 stream stays usable after it. A `Double` keeps the digits it was spelled with rather than a
 floating-point value.
 */
module Tokens {
  import opened Options
  import opened Strings
  import Ast

  /** Largest value an `Integer` token can hold (the source stores it as a 32-bit signed integer). */
  const MaxInt32: int := 0x7fff_ffff

  type Int32 = i: int | -0x8000_0000 <= i <= MaxInt32

  datatype Token =
    | Eof
    | Eol
    | Bad(msg: string)
    | Boolean(b: bool)
    | Double(digits: string)
    | Integer(i: Int32)
    | Text(text: string)
    | Symbol(vref: Ast.VarRef)
    | Label(name: string)
    | Comma | Semicolon | LeftParen | RightParen
    | Plus | Minus | Multiply | Divide | Modulo | Exponent
    | Equal | NotEqual | Less | LessEqual | Greater | GreaterEqual
    | And | Not | Or | Xor
    | Data | Else | Elseif | End | For | Goto | If | Next | Step | Then | To | Wend | While
    | Dim | As | BooleanName | DoubleName | IntegerName | TextName

  /**
   A token with its context: where it starts (a character offset into the lexed input) and its
   length as the tokenizer reports it.
   */
  datatype TokenSpan = TokenSpan(token: Token, pos: nat, length: nat)

  /** Tokens produced by reserved words (the sigil-less spelling of which is case-insensitive). */
  predicate IsKeyword(t: Token) {
    || t.Boolean?
    || t.And? || t.As? || t.BooleanName? || t.Data? || t.Dim? || t.DoubleName? || t.Else?
    || t.Elseif? || t.End? || t.For? || t.Goto? || t.If? || t.IntegerName? || t.Modulo?
    || t.Next? || t.Not? || t.Or? || t.Step? || t.TextName? || t.Then? || t.To? || t.Wend?
    || t.While? || t.Xor?
  }

  /** Tokens made of operator or punctuation characters only. */
  predicate IsOperator(t: Token) {
    || t.Comma? || t.Semicolon? || t.LeftParen? || t.RightParen?
    || t.Plus? || t.Minus? || t.Multiply? || t.Divide? || t.Exponent?
    || t.Equal? || t.NotEqual? || t.Less? || t.LessEqual? || t.Greater? || t.GreaterEqual?
  }

  /**
   The reserved word spelled by the upper-case word `u`, if any. `REM` is reserved too but is
   not a token: it starts a comment, which the tokenizer handles before consulting this table.
   */
  function Keyword(u: string): Option<Token> {
    match u
    case "AND" => Some(And)
    case "AS" => Some(As)
    case "BOOLEAN" => Some(BooleanName)
    case "DATA" => Some(Data)
    case "DIM" => Some(Dim)
    case "DOUBLE" => Some(DoubleName)
    case "ELSE" => Some(Else)
    case "ELSEIF" => Some(Elseif)
    case "END" => Some(End)
    case "FALSE" => Some(Boolean(false))
    case "FOR" => Some(For)
    case "GOTO" => Some(Goto)
    case "IF" => Some(If)
    case "INTEGER" => Some(IntegerName)
    case "MOD" => Some(Modulo)
    case "NEXT" => Some(Next)
    case "NOT" => Some(Not)
    case "OR" => Some(Or)
    case "STEP" => Some(Step)
    case "STRING" => Some(TextName)
    case "THEN" => Some(Then)
    case "TO" => Some(To)
    case "TRUE" => Some(Boolean(true))
    case "WEND" => Some(Wend)
    case "WHILE" => Some(While)
    case "XOR" => Some(Xor)
    case _ => None
  }

  /** Canonical printed form of a token. */
  function Display(t: Token): string {
    match t
    case Eof => "<<EOF>>"
    case Eol => "<<NEWLINE>>"
    case Bad(s) => "<<" + s + ">>"
    case Boolean(b) => if b then "TRUE" else "FALSE"
    case Double(d) => d
    case Integer(i) => IntToDecimal(i)
    case Text(s) => s
    case Symbol(v) => Ast.ShowVarRef(v)
    case Label(l) => "@" + l
    case Comma => ","
    case Semicolon => ";"
    case LeftParen => "("
    case RightParen => ")"
    case Plus => "+"
    case Minus => "-"
    case Multiply => "*"
    case Divide => "/"
    case Modulo => "MOD"
    case Exponent => "^"
    case Equal => "="
    case NotEqual => "<>"
    case Less => "<"
    case LessEqual => "<="
    case Greater => ">"
    case GreaterEqual => ">="
    case And => "AND"
    case Not => "NOT"
    case Or => "OR"
    case Xor => "XOR"
    case Data => "DATA"
    case Else => "ELSE"
    case Elseif => "ELSEIF"
    case End => "END"
    case For => "FOR"
    case Goto => "GOTO"
    case If => "IF"
    case Next => "NEXT"
    case Step => "STEP"
    case Then => "THEN"
    case To => "TO"
    case Wend => "WEND"
    case While => "WHILE"
    case Dim => "DIM"
    case As => "AS"
    case BooleanName => "BOOLEAN"
    case DoubleName => "DOUBLE"
    case IntegerName => "INTEGER"
    case TextName => "STRING"
  }

  /** Every entry of the reserved-word table is a keyword token printed as the word itself. */
  lemma KeywordIsDisplayed(u: string)
    requires Keyword(u).Some?
    ensures IsKeyword(Keyword(u).value)
    ensures Display(Keyword(u).value) == u
  {
    if u == "AND" || u == "AS" || u == "BOOLEAN" {
      ReservedWordsDisplayed0(u);
    } else if u == "DATA" || u == "DIM" || u == "DOUBLE" {
      ReservedWordsDisplayed1(u);
    } else if u == "ELSE" || u == "ELSEIF" || u == "END" {
      ReservedWordsDisplayed2(u);
    } else if u == "FALSE" || u == "FOR" || u == "GOTO" {
      ReservedWordsDisplayed3(u);
    } else if u == "IF" || u == "INTEGER" || u == "MOD" {
      ReservedWordsDisplayed4(u);
    } else if u == "NEXT" || u == "NOT" || u == "OR" {
      ReservedWordsDisplayed5(u);
    } else if u == "STEP" || u == "STRING" || u == "THEN" {
      ReservedWordsDisplayed6(u);
    } else if u == "TO" || u == "TRUE" || u == "WEND" {
      ReservedWordsDisplayed7(u);
    } else if u == "WHILE" || u == "XOR" {
      ReservedWordsDisplayed8(u);
    }
  }

  /** `KeywordIsDisplayed` for `AND`, `AS` and `BOOLEAN`. The table is split into small groups so that each proof stays within the verifier's resource limit. */
  lemma ReservedWordsDisplayed0(u: string)
    requires u == "AND" || u == "AS" || u == "BOOLEAN"
    ensures Keyword(u).Some? && IsKeyword(Keyword(u).value)
    ensures Display(Keyword(u).value) == u
  {
    if u == "AND" {
      assert Keyword("AND") == Some(And);
    } else if u == "AS" {
      assert Keyword("AS") == Some(As);
    } else if u == "BOOLEAN" {
      assert Keyword("BOOLEAN") == Some(BooleanName);
    }
  }

  /** `KeywordIsDisplayed` for `DATA`, `DIM` and `DOUBLE`. */
  lemma ReservedWordsDisplayed1(u: string)
    requires u == "DATA" || u == "DIM" || u == "DOUBLE"
    ensures Keyword(u).Some? && IsKeyword(Keyword(u).value)
    ensures Display(Keyword(u).value) == u
  {
    if u == "DATA" {
      assert Keyword("DATA") == Some(Data);
    } else if u == "DIM" {
      assert Keyword("DIM") == Some(Dim);
    } else if u == "DOUBLE" {
      assert Keyword("DOUBLE") == Some(DoubleName);
    }
  }

  /** `KeywordIsDisplayed` for `ELSE`, `ELSEIF` and `END`. */
  lemma ReservedWordsDisplayed2(u: string)
    requires u == "ELSE" || u == "ELSEIF" || u == "END"
    ensures Keyword(u).Some? && IsKeyword(Keyword(u).value)
    ensures Display(Keyword(u).value) == u
  {
    if u == "ELSE" {
      assert Keyword("ELSE") == Some(Else);
    } else if u == "ELSEIF" {
      assert Keyword("ELSEIF") == Some(Elseif);
    } else if u == "END" {
      assert Keyword("END") == Some(End);
    }
  }

  /** `KeywordIsDisplayed` for `FALSE`, `FOR` and `GOTO`. */
  lemma ReservedWordsDisplayed3(u: string)
    requires u == "FALSE" || u == "FOR" || u == "GOTO"
    ensures Keyword(u).Some? && IsKeyword(Keyword(u).value)
    ensures Display(Keyword(u).value) == u
  {
    if u == "FALSE" {
      assert Keyword("FALSE") == Some(Boolean(false));
    } else if u == "FOR" {
      assert Keyword("FOR") == Some(For);
    } else if u == "GOTO" {
      assert Keyword("GOTO") == Some(Goto);
    }
  }

  /** `KeywordIsDisplayed` for `IF`, `INTEGER` and `MOD`. */
  lemma ReservedWordsDisplayed4(u: string)
    requires u == "IF" || u == "INTEGER" || u == "MOD"
    ensures Keyword(u).Some? && IsKeyword(Keyword(u).value)
    ensures Display(Keyword(u).value) == u
  {
    if u == "IF" {
      assert Keyword("IF") == Some(If);
    } else if u == "INTEGER" {
      assert Keyword("INTEGER") == Some(IntegerName);
    } else if u == "MOD" {
      assert Keyword("MOD") == Some(Modulo);
    }
  }

  /** `KeywordIsDisplayed` for `NEXT`, `NOT` and `OR`. */
  lemma ReservedWordsDisplayed5(u: string)
    requires u == "NEXT" || u == "NOT" || u == "OR"
    ensures Keyword(u).Some? && IsKeyword(Keyword(u).value)
    ensures Display(Keyword(u).value) == u
  {
    if u == "NEXT" {
      assert Keyword("NEXT") == Some(Next);
    } else if u == "NOT" {
      assert Keyword("NOT") == Some(Not);
    } else if u == "OR" {
      assert Keyword("OR") == Some(Or);
    }
  }

  /** `KeywordIsDisplayed` for `STEP`, `STRING` and `THEN`. */
  lemma ReservedWordsDisplayed6(u: string)
    requires u == "STEP" || u == "STRING" || u == "THEN"
    ensures Keyword(u).Some? && IsKeyword(Keyword(u).value)
    ensures Display(Keyword(u).value) == u
  {
    if u == "STEP" {
      assert Keyword("STEP") == Some(Step);
    } else if u == "STRING" {
      assert Keyword("STRING") == Some(TextName);
    } else if u == "THEN" {
      assert Keyword("THEN") == Some(Then);
    }
  }

  /** `KeywordIsDisplayed` for `TO`, `TRUE` and `WEND`. */
  lemma ReservedWordsDisplayed7(u: string)
    requires u == "TO" || u == "TRUE" || u == "WEND"
    ensures Keyword(u).Some? && IsKeyword(Keyword(u).value)
    ensures Display(Keyword(u).value) == u
  {
    if u == "TO" {
      assert Keyword("TO") == Some(To);
    } else if u == "TRUE" {
      assert Keyword("TRUE") == Some(Boolean(true));
    } else if u == "WEND" {
      assert Keyword("WEND") == Some(Wend);
    }
  }

  /** `KeywordIsDisplayed` for `WHILE` and `XOR`. */
  lemma ReservedWordsDisplayed8(u: string)
    requires u == "WHILE" || u == "XOR"
    ensures Keyword(u).Some? && IsKeyword(Keyword(u).value)
    ensures Display(Keyword(u).value) == u
  {
    if u == "WHILE" {
      assert Keyword("WHILE") == Some(While);
    } else if u == "XOR" {
      assert Keyword("XOR") == Some(Xor);
    }
  }

  /** Printing a keyword token and looking the text up again gives the same token back. */
  lemma DisplayedKeywordIsReserved(t: Token)
    requires IsKeyword(t)
    ensures Keyword(Display(t)) == Some(t)
  {
    if t == And || t == As || t == BooleanName {
      KeywordsReserved0(t);
    } else if t == Data || t == Dim || t == DoubleName {
      KeywordsReserved1(t);
    } else if t == Else || t == Elseif || t == End {
      KeywordsReserved2(t);
    } else if t == Boolean(false) || t == For || t == Goto {
      KeywordsReserved3(t);
    } else if t == If || t == IntegerName || t == Modulo {
      KeywordsReserved4(t);
    } else if t == Next || t == Not || t == Or {
      KeywordsReserved5(t);
    } else if t == Step || t == TextName || t == Then {
      KeywordsReserved6(t);
    } else if t == To || t == Boolean(true) || t == Wend {
      KeywordsReserved7(t);
    } else if t == While || t == Xor {
      KeywordsReserved8(t);
    }
  }

  /** `DisplayedKeywordIsReserved` for `And`, `As` and `BooleanName`. The table is split into small groups so that each proof stays within the verifier's resource limit. */
  lemma KeywordsReserved0(t: Token)
    requires t == And || t == As || t == BooleanName
    ensures Keyword(Display(t)) == Some(t)
  {
    if t == And {
      assert Display(t) == "AND" && Keyword("AND") == Some(And);
    } else if t == As {
      assert Display(t) == "AS" && Keyword("AS") == Some(As);
    } else if t == BooleanName {
      assert Display(t) == "BOOLEAN" && Keyword("BOOLEAN") == Some(BooleanName);
    }
  }

  /** `DisplayedKeywordIsReserved` for `Data`, `Dim` and `DoubleName`. */
  lemma KeywordsReserved1(t: Token)
    requires t == Data || t == Dim || t == DoubleName
    ensures Keyword(Display(t)) == Some(t)
  {
    if t == Data {
      assert Display(t) == "DATA" && Keyword("DATA") == Some(Data);
    } else if t == Dim {
      assert Display(t) == "DIM" && Keyword("DIM") == Some(Dim);
    } else if t == DoubleName {
      assert Display(t) == "DOUBLE" && Keyword("DOUBLE") == Some(DoubleName);
    }
  }

  /** `DisplayedKeywordIsReserved` for `Else`, `Elseif` and `End`. */
  lemma KeywordsReserved2(t: Token)
    requires t == Else || t == Elseif || t == End
    ensures Keyword(Display(t)) == Some(t)
  {
    if t == Else {
      assert Display(t) == "ELSE" && Keyword("ELSE") == Some(Else);
    } else if t == Elseif {
      assert Display(t) == "ELSEIF" && Keyword("ELSEIF") == Some(Elseif);
    } else if t == End {
      assert Display(t) == "END" && Keyword("END") == Some(End);
    }
  }

  /** `DisplayedKeywordIsReserved` for `Boolean(false)`, `For` and `Goto`. */
  lemma KeywordsReserved3(t: Token)
    requires t == Boolean(false) || t == For || t == Goto
    ensures Keyword(Display(t)) == Some(t)
  {
    if t == Boolean(false) {
      assert Display(t) == "FALSE" && Keyword("FALSE") == Some(Boolean(false));
    } else if t == For {
      assert Display(t) == "FOR" && Keyword("FOR") == Some(For);
    } else if t == Goto {
      assert Display(t) == "GOTO" && Keyword("GOTO") == Some(Goto);
    }
  }

  /** `DisplayedKeywordIsReserved` for `If`, `IntegerName` and `Modulo`. */
  lemma KeywordsReserved4(t: Token)
    requires t == If || t == IntegerName || t == Modulo
    ensures Keyword(Display(t)) == Some(t)
  {
    if t == If {
      assert Display(t) == "IF" && Keyword("IF") == Some(If);
    } else if t == IntegerName {
      assert Display(t) == "INTEGER" && Keyword("INTEGER") == Some(IntegerName);
    } else if t == Modulo {
      assert Display(t) == "MOD" && Keyword("MOD") == Some(Modulo);
    }
  }

  /** `DisplayedKeywordIsReserved` for `Next`, `Not` and `Or`. */
  lemma KeywordsReserved5(t: Token)
    requires t == Next || t == Not || t == Or
    ensures Keyword(Display(t)) == Some(t)
  {
    if t == Next {
      assert Display(t) == "NEXT" && Keyword("NEXT") == Some(Next);
    } else if t == Not {
      assert Display(t) == "NOT" && Keyword("NOT") == Some(Not);
    } else if t == Or {
      assert Display(t) == "OR" && Keyword("OR") == Some(Or);
    }
  }

  /** `DisplayedKeywordIsReserved` for `Step`, `TextName` and `Then`. */
  lemma KeywordsReserved6(t: Token)
    requires t == Step || t == TextName || t == Then
    ensures Keyword(Display(t)) == Some(t)
  {
    if t == Step {
      assert Display(t) == "STEP" && Keyword("STEP") == Some(Step);
    } else if t == TextName {
      assert Display(t) == "STRING" && Keyword("STRING") == Some(TextName);
    } else if t == Then {
      assert Display(t) == "THEN" && Keyword("THEN") == Some(Then);
    }
  }

  /** `DisplayedKeywordIsReserved` for `To`, `Boolean(true)` and `Wend`. */
  lemma KeywordsReserved7(t: Token)
    requires t == To || t == Boolean(true) || t == Wend
    ensures Keyword(Display(t)) == Some(t)
  {
    if t == To {
      assert Display(t) == "TO" && Keyword("TO") == Some(To);
    } else if t == Boolean(true) {
      assert Display(t) == "TRUE" && Keyword("TRUE") == Some(Boolean(true));
    } else if t == Wend {
      assert Display(t) == "WEND" && Keyword("WEND") == Some(Wend);
    }
  }

  /** `DisplayedKeywordIsReserved` for `While` and `Xor`. */
  lemma KeywordsReserved8(t: Token)
    requires t == While || t == Xor
    ensures Keyword(Display(t)) == Some(t)
  {
    if t == While {
      assert Display(t) == "WHILE" && Keyword("WHILE") == Some(While);
    } else if t == Xor {
      assert Display(t) == "XOR" && Keyword("XOR") == Some(Xor);
    }
  }

  /**
   The reserved-word table and the printer agree: a word is reserved for token `t` exactly when
   `t` is a keyword token printed as that word.
   */
  lemma KeywordDisplay(u: string, t: Token)
    ensures Keyword(u) == Some(t) <==> IsKeyword(t) && Display(t) == u
  {
    if Keyword(u) == Some(t) {
      KeywordIsDisplayed(u);
    }
    if IsKeyword(t) && Display(t) == u {
      DisplayedKeywordIsReserved(t);
    }
  }

  /** `REM` is not in the table: it is the comment keyword, not a token. */
  lemma RemIsNotAToken()
    ensures Keyword("REM") == None
  {
  }
}
