# EndBASIC tokenizer and ST7735S LCD driver, modelled in Dafny

This project models two pieces of EndBASIC.

- **The tokenizer** (`core/src/lexer.rs`). It turns program text into a stream of tokens:
  - keywords, which are case-insensitive and include the `TRUE`/`FALSE` literals;
  - symbols with an optional type sigil (`?`, `#`, `%`, `$`);
  - integer and double literals, quoted strings with backslash escapes, and `@` labels;
  - operators and punctuation, with maximal munch for `<>`, `<=` and `>=`;
  - end-of-statement markers (`\n` and `:`) and comments (`REM` and `'`).

  A malformed token does not stop the stream. It becomes a `Bad` token that swallows input up to the next separator, and lexing resumes there. The peeking adaptor `PeekableLexer` is modelled too.

- **The ST7735S LCD driver** (`rpi/src/st7735s.rs`):
  - the RGB565 pixel encoding;
  - the panel geometry;
  - the drawing-window arithmetic;
  - the order of events on the bus when a region is drawn. The driver sets the data/command (DC) line, then writes bytes over SPI in pieces of at most 4096 bytes.

Modules, in dependency order:

| file | module | contents |
|---|---|---|
| `options.dfy` | `Options` | `Option` |
| `chars.dfy` | `CharOps` | character classes (`is_space`, `is_separator`, `is_word`) and the scanning loops built on them |
| `strings.dfy` | `Strings` | upper-casing, UTF-8 byte length, decimal digits |
| `ast.dfy` | `Ast` | variable types and references, as the tokenizer uses them |
| `tokens.dfy` | `Tokens` | `Token`, `TokenSpan`, the reserved-word table, `Display` |
| `lexer.dfy` | `Lexer` | every `consume_*` routine, `read`, and the lexer as a state |
| `lexer_lemmas.dfy` | `LexerLemmas` | what each routine yields on each kind of input |
| `roundtrip.dfy` | `RoundTrip` | printing a token with `Display` and lexing the text gives the token back |
| `peekable.dfy` | `Peekable` | `PeekableLexer` |
| `st7735s.dfy` | `St7735s` | pixel encoding, geometry, window bounds, the bus trace |

How the code is modelled:

- **The lexer is a pure function.** It works over the whole input `s: seq<char>` and a character offset. Each `consume_*` routine takes the offset of the token's first character and returns the token together with the offset where lexing resumes (`Scan(span, next)`).
- **The lexer state** is the input plus that offset. Reading a token returns the token and the advanced state.
- **The SPI bus** is described in two ways. The simpler one is `limit`, the most bytes any one write call accepts; the drawing operations use it. The general one is a `Bus`, the capacity of each successive call; `BusWrite` models `lcd_write` over it.
- **The hardware** becomes a trace of `Dc(high)` and `Spi(bytes)` events. `Received` parses a trace back into the register and data transfers the panel saw.

## Model

| member | source | states |
|---|---|---|
| CharOps.SeparatorFrom | core/src/lexer.rs:249-260 | the skip loop of a bad token stops at the first separator or the end, and nothing it passes over is a separator |
| CharOps.SeparatorFromIs | core/src/lexer.rs:176-182 | the stopping point of that loop is unique: any position reached through non-separators and sitting at a separator or the end is it |
| CharOps.WordFrom | core/src/lexer.rs:346-349 | the word loop stops at the first non-word character or the end, and everything it passes is a word character |
| CharOps.WordFromIs | core/src/lexer.rs:190-194 | that stopping point is unique |
| CharOps.SpaceFrom | core/src/lexer.rs:502-511 | whitespace skipping stops at the first character that is not a space, tab or carriage return; everything skipped is one of those three |
| CharOps.NewlineFrom | core/src/lexer.rs:484-498 | the rest-of-line loop stops at the first `\n` or the end, and no `\n` lies before it |
| Strings.Upper | core/src/lexer.rs:388 | upper-casing keeps the length, maps `a`-`z` to `A`-`Z` and leaves every other character alone |
| Strings.ByteLen | core/src/lexer.rs:387 | the `String::len` of a text lies between its character count and four times that |
| Strings.AsciiByteLen | core/src/lexer.rs:387 | for ASCII text the byte length equals the character count |
| Strings.ByteLenAppend | core/src/lexer.rs:453 | the byte length of a concatenation is the sum of the byte lengths |
| Strings.NatToDecimal | core/src/lexer.rs:106 | an integer is printed as decimal digits with no leading zero, and their value is the integer |
| Strings.IntToDecimal | core/src/lexer.rs:106 | a non-negative integer prints as decimal digits with no leading zero whose value is the integer; a negative one prints as `-` followed by such digits for its magnitude |
| Tokens.KeywordIsDisplayed | core/src/lexer.rs:388-417 | every entry of the reserved-word table maps to a keyword token whose printed form is the entry itself |
| Tokens.DisplayedKeywordIsReserved | core/src/lexer.rs:92-158 | the printed form of every keyword token is a reserved word that maps back to that token |
| Tokens.KeywordDisplay | core/src/lexer.rs:388-417 | a word is in the reserved-word table as token `t` if and only if `t` is a keyword token printed as that word |
| Tokens.RemIsNotAToken | core/src/lexer.rs:407 | `REM` is not in the token table: it starts a comment, not a token |
| Lexer.HandleBadRead | core/src/lexer.rs:244-262 | a bad token's rest is skipped up to the next separator or the end, none of it a separator; the length is 1 plus the characters skipped |
| Lexer.ConsumeNumber | core/src/lexer.rs:265-310 | a numeric literal, good or bad, starts at its first digit, consumes at least that digit and leaves the lexer at a separator or the end; a bad one skips no separator on the way, whether it stops at a separator or at the end of input |
| Lexer.ScanNumber | core/src/lexer.rs:269-292 | from any point of the digit/dot loop the literal ends at a separator or the end, and a bad literal skips no separator, also when it runs to the end of input |
| Lexer.FinishNumber | core/src/lexer.rs:293-309 | a literal ended by a separator yields its token there, without consuming the separator; a bad one swallowed no separator |
| Lexer.ConsumeOperator | core/src/lexer.rs:313-336 | `<` or `>` always yields one of the five relational tokens, starting at the operator |
| Lexer.ConsumeSymbol | core/src/lexer.rs:341-419 | a word yields a token starting at its first character, or, for `REM`, the end-of-line or end-of-input that closes the comment; a bad symbol resumes at the first separator after it, or at the end, having skipped no separator |
| Lexer.WordToken | core/src/lexer.rs:388-417 | an upper-cased word yields a keyword token or a symbol |
| Lexer.ConsumeText | core/src/lexer.rs:425-455 | a quoted string yields a `Text` or `Bad` token starting at the opening quote, and always consumes the quote |
| Lexer.ScanText | core/src/lexer.rs:428-452 | the string loop reports `Bad` only when the input runs out, and then with length 1 |
| Lexer.ConsumeLabel | core/src/lexer.rs:458-480 | `@` yields a `Label` or a `Bad` token starting at the `@`, and lexing resumes at a separator or the end; a bad label skips no separator, also when it runs to the end of input |
| Lexer.ConsumeRestOfLine | core/src/lexer.rs:484-498 | a comment ends at the first `\n`, giving `Eol` of length 1 at that newline, or, with no newline left, `Eof` of length 0 at the end of input |
| Lexer.Dispatch | core/src/lexer.rs:524-550 | the token read at a non-space character starts there unless it closes a comment, and a `Bad` token only comes from a non-separator |
| Lexer.Read | core/src/lexer.rs:517-551 | reading always advances unless it returns `Eof`; `Eof` comes at the end of input with length 0; a `Bad` token leaves the lexer at a separator or the end |
| Lexer.NextToken | core/src/lexer.rs:517-522 | the lexer's position never moves back, every token other than `Eof` starts between the old and the new position, and `Eof` leaves the lexer at the end |
| Lexer.Tokenize | core/src/lexer.rs:630-643 | reading until `Eof` gives a token sequence that ends in exactly one `Eof`, at the end of the input with length 0, with token positions strictly increasing |
| LexerLemmas.ReadSkipsSpace | core/src/lexer.rs:502-511 | a space, tab or carriage return before a token does not change the token read |
| LexerLemmas.ReadAtEnd | core/src/lexer.rs:518-522 | input that is only whitespace yields `Eof` of length 0 at the end of input |
| LexerLemmas.DispatchText | core/src/lexer.rs:528 | a `"` starts a string |
| LexerLemmas.DispatchOperator | core/src/lexer.rs:543 | `<` and `>` start a relational operator |
| LexerLemmas.DispatchLabel | core/src/lexer.rs:545 | `@` starts a label |
| LexerLemmas.DispatchNumber | core/src/lexer.rs:547 | an ASCII digit starts a number |
| LexerLemmas.DispatchSymbol | core/src/lexer.rs:548 | a word character that is not a digit starts a symbol or keyword |
| LexerLemmas.ConsumeWord | core/src/lexer.rs:387-418 | a word without a sigil, ended by a separator, is the keyword its upper-cased spelling names, or else an untyped symbol keeping its original spelling; the length is the word's length |
| LexerLemmas.ConsumeTypedWord | core/src/lexer.rs:351-374 | a sigil after a word ends the token, types the symbol and adds 1 to the length; the next token starts right after the sigil |
| LexerLemmas.SigilTypes | core/src/lexer.rs:351-374 | `?`, `#`, `%` and `$` are exactly the sigils, typing a symbol as boolean, double, integer and text |
| LexerLemmas.KeywordsIgnoreCase | core/src/lexer.rs:388 | two spellings of a keyword that differ only in letter case lex to the same keyword token |
| LexerLemmas.BooleanLiterals | core/src/lexer.rs:398-412 | `TRUE` and `FALSE`, in any case, are boolean literals |
| LexerLemmas.RestOfLine | core/src/lexer.rs:484-498 | a comment ends at the next newline, giving `Eol` there, or at the end of input, giving `Eof` |
| LexerLemmas.ConsumeRem | core/src/lexer.rs:407 | `REM` in any case, with or without a sigil, turns the rest of the line into a comment |
| LexerLemmas.ReadQuoteComment | core/src/lexer.rs:526 | `'` turns the rest of the line into a comment |
| LexerLemmas.ConsumeInteger | core/src/lexer.rs:305-308 | a run of digits is an `Integer` of its decimal value with its length when the value fits in an i32; otherwise it is `Bad("Bad integer …: number too large to fit in target type")` of length 1 |
| LexerLemmas.ConsumeDouble | core/src/lexer.rs:293-303 | digits, one dot and digits form a `Double` spanning the whole literal |
| LexerLemmas.TrailingDot | core/src/lexer.rs:294-299 | a literal ending in its only dot is `Bad("Unknown character: .")` of length 1, and lexing resumes at the separator after it |
| LexerLemmas.TooManyDots | core/src/lexer.rs:272-277 | a second dot makes the literal `Bad("Too many dots in numeric literal")`; the rest up to the next separator is swallowed, and the length counts the second dot and what follows it |
| LexerLemmas.NumberBadCharacter | core/src/lexer.rs:283-287 | any other non-separator right after the digits of a number (before any dot) gives `Bad("Unexpected character in numeric literal: c")`, swallowing up to the next separator |
| LexerLemmas.NumberBadCharacterAfterDot | core/src/lexer.rs:283-287 | the same holds for such a character after the decimal point and its digits, as in `1.5x`: the message names it and the length counts from it to the next separator |
| LexerLemmas.ReadUnknownCharacter | core/src/lexer.rs:549 | a character that starts no token gives `Bad("Unknown character: c")`, swallowing up to the next separator |
| LexerLemmas.BadSymbol | core/src/lexer.rs:375-379 | a character that is neither a word character, a separator nor a sigil inside a symbol gives `Bad("Unexpected character in symbol: c")`, swallowing up to the next separator |
| LexerLemmas.ScanEscaped | core/src/lexer.rs:428-443 | inside a string a backslash makes the next character literal; the escaped form of a text is read back as that text, and the closing quote ends it |
| LexerLemmas.ConsumeQuoted | core/src/lexer.rs:425-455 | a quoted, escaped text is a `Text` token holding the unescaped text, with length its byte length plus 2 |
| LexerLemmas.UnterminatedText | core/src/lexer.rs:445-450 | a string with no closing quote is `Bad("Incomplete string due to EOF: …")` of length 1, holding the text read so far, and consumes the input |
| LexerLemmas.EscapeIsBody | core/src/lexer.rs:428-443 | escaping a text gives a well-formed string body (`Body`), and unescaping that body gives the text back |
| LexerLemmas.QuotedBody | core/src/lexer.rs:425-455 | for every well-formed body between two quotes, not only escaped spellings (so `\a` reads as `a`, as in the test at core/src/lexer.rs:816), the token is `Text` of the unescaped body, of length its byte length plus 2, and lexing resumes after the closing quote |
| LexerLemmas.OpenBody | core/src/lexer.rs:445-450 | a well-formed body with no closing quote before the end of input gives `Bad("Incomplete string due to EOF: …")` holding the unescaped body, of length 1, consuming the input |
| LexerLemmas.OpenBodyEscape | core/src/lexer.rs:429-450 | the same holds when the input ends in the middle of an escape: the trailing backslash is dropped from the message |
| LexerLemmas.ConsumeLabelName | core/src/lexer.rs:458-480 | `@name` is a `Label` of length 1 plus the name's length; a bare `@` is `Bad("Empty label name")` of length 1 |
| LexerLemmas.LabelBadCharacter | core/src/lexer.rs:465-469 | a non-word, non-separator character inside a label gives `Bad("Unexpected character in label: c")`, swallowing up to the next separator |
| LexerLemmas.RelationalOperators | core/src/lexer.rs:313-336 | `<>`, `<=` and `>=` are each read as one two-character token; `<` and `>` not followed by one of these are one-character tokens |
| LexerLemmas.ReadEndOfStatement | core/src/lexer.rs:525 | both `\n` and `:` give `Eol` of length 1 |
| LexerLemmas.ReadPunctuation | core/src/lexer.rs:530-542 | each single-character operator or punctuation mark is read as its token, with length 1 |
| RoundTrip.KeywordReadsBack | core/src/lexer.rs:92-158 | the printed form of every keyword token lexes back to exactly that token, spanning the whole text, followed by `Eof` |
| RoundTrip.OperatorReadsBack | core/src/lexer.rs:112-129 | the printed form of every operator and punctuation token lexes back to exactly that token |
| RoundTrip.IntegerReadsBack | core/src/lexer.rs:106 | a non-negative integer, printed, lexes back to the same `Integer` |
| RoundTrip.NegativeIntegerReadsBack | core/src/lexer.rs:305-308 | a negative integer, printed, lexes as `Minus` and then its magnitude; for the smallest i32 the magnitude does not fit and is a `Bad` integer |
| RoundTrip.AnnotationIsSigil | core/src/lexer.rs:351-374 | the sigil printed for a type is the sigil the lexer reads as that type |
| RoundTrip.SymbolReadsBack | core/src/lexer.rs:108 | a symbol that is not a reserved word, printed with its sigil, lexes back to the same name and type |
| RoundTrip.LabelReadsBack | core/src/lexer.rs:110 | a label printed as `@name` lexes back to the same label |
| RoundTrip.DoubleReadsBack | core/src/lexer.rs:105 | a double written as digits, dot, digits lexes back to that double |
| Peekable.NewPeekable | core/src/lexer.rs:554-556 | a new peekable lexer wraps the lexer with nothing peeked |
| Peekable.Peek | core/src/lexer.rs:587-593 | peeking keeps the returned token as the peeked one; with a token already peeked it returns that token and changes nothing |
| Peekable.Read | core/src/lexer.rs:599-604 | reading hands out the peeked token without touching the lexer; with nothing peeked it reads from the lexer, which advances unless it returns `Eof`; nothing stays peeked |
| Peekable.ConsumePeeked | core/src/lexer.rs:578-581 | taking the peeked token returns it, clears it and leaves the lexer as it was |
| Peekable.ReadAll | core/src/lexer.rs:599-604 | reading a peekable lexer until `Eof` gives a stream that ends at its first `Eof` |
| Peekable.PeekIsIdempotent | core/src/lexer.rs:583-593 | peeking twice returns the same token and leaves the same state as peeking once |
| Peekable.PeekShowsNextRead | core/src/lexer.rs:587-604 | the peeked token is the token the next read returns |
| Peekable.ReadAfterPeek | core/src/lexer.rs:599-604 | a read after a peek returns the peeked token and ends in the same state as a plain read |
| Peekable.ConsumeAfterPeek | core/src/lexer.rs:578-581 | taking the peeked token after a peek is the same as reading |
| Peekable.PeekKeepsStream | core/src/lexer.rs:587-604 | peeking does not change the sequence of tokens the stream goes on to hand out |
| Peekable.EofIsSticky | core/src/lexer.rs:646-651 | once the lexer returns `Eof`, reading again returns the same `Eof` from the same state |
| Peekable.EndOfInput | core/src/lexer.rs:518-522 | an exhausted lexer yields `Eof` of length 0 at the end of input and stays exhausted |
| Peekable.PeekableEofIsSticky | core/src/lexer.rs:1053-1054 | after a peekable lexer hands out `Eof`, both reading and peeking keep returning it |
| Peekable.ReadAllIsTokenize | core/src/lexer.rs:554-556 | the wrapped stream is exactly the lexer's own token stream |
| St7735s.Encode | rpi/src/st7735s.rs:280-289 | a pixel is two bytes, high byte first, whose big-endian value is the RGB565 packing of the colour |
| St7735s.EncodeRecoversComponents | rpi/src/st7735s.rs:280-289 | unpacking the two bytes of an encoded pixel gives back the top 5/6/5 bits of red, green and blue |
| St7735s.EncodeEqualIff | rpi/src/st7735s.rs:280-289 | two colours encode to the same pixel if and only if they agree in the bits RGB565 keeps |
| St7735s.BlackAndWhite | rpi/src/st7735s.rs:280-289 | black encodes to `00 00` and white to `ff ff` |
| St7735s.Info | rpi/src/st7735s.rs:276-278 | the panel is 128×128 and every encoded pixel takes the reported stride of bytes |
| St7735s.TruncatedWide | rpi/src/st7735s.rs:281-284 | each component widened to `u16` and shifted right by 3, 2 and 3 is the truncated component the model packs |
| St7735s.PackWide | rpi/src/st7735s.rs:284 | packing the truncated components is the source's `(r << 11) \| (g << 5) \| b` on the widened values; with `TruncatedWide` this makes `Rgb565` the source's formula |
| St7735s.ChunksOfWhole | rpi/src/st7735s.rs:119 | data of exactly m × 4096 bytes is cut into m pieces of 4096 bytes each |
| St7735s.FrameChunks | rpi/src/st7735s.rs:104-119 | a full 128×128 frame, at the stride `Info` reports, is written as 8 pieces of exactly 4096 bytes |
| St7735s.WindowBounds | rpi/src/st7735s.rs:246-253 | the window registers hold the low bytes of x+1, x+width, y+2 and y+height+1 |
| St7735s.WindowOnPanel | rpi/src/st7735s.rs:246-253 | for a non-empty region on the panel the bounds do not wrap: x1 = x+1, x2-x1+1 = width, y1 = y+2, y2-y1+1 = height |
| St7735s.Chunks | rpi/src/st7735s.rs:119 | the data is cut into non-empty pieces of at most 4096 bytes, all but the last exactly 4096 |
| St7735s.ChunksFlatten | rpi/src/st7735s.rs:119 | joining the pieces gives back the data |
| St7735s.ChunkTransfers | rpi/src/st7735s.rs:120-127 | sending one piece is a non-empty run of writes that always ends with a call handed nothing or accepting nothing, here an empty write |
| St7735s.ChunkTransfersSend | rpi/src/st7735s.rs:120-127 | the writes of one piece deliver its bytes in order, each once, when the bus accepts anything at all |
| St7735s.ChunkTransfersBounded | rpi/src/st7735s.rs:120-127 | the calls for a piece are SPI writes only, and no write of a piece carries more than the piece or more than the bus accepts |
| St7735s.PieceTransfersSend | rpi/src/st7735s.rs:119-128 | the writes for several pieces deliver the pieces one after the other |
| St7735s.WriteTraceSends | rpi/src/st7735s.rs:116-130 | writing data delivers exactly the data, in order, with no SPI write over 4096 bytes |
| St7735s.WriteChunk | rpi/src/st7735s.rs:120-127 | the write loop for one piece produces the piece's trace and delivers the piece |
| St7735s.LcdWrite | rpi/src/st7735s.rs:116-130 | `lcd_write` produces only SPI writes of at most 4096 bytes that deliver the data in order |
| St7735s.Take | rpi/src/st7735s.rs:122 | one `spi.write` call accepts no more than it is handed and no more than that call's capacity, and all it can of both; a call past the end of the bus's description accepts nothing |
| St7735s.DeliveredIff | rpi/src/st7735s.rs:120-127 | the write loop delivers all of a piece if and only if the bus, before its first call that accepts nothing, accepts at least the piece's length in total |
| St7735s.BusChunkSends | rpi/src/st7735s.rs:120-127 | over a bus whose capacity varies from call to call, the writes of one piece deliver exactly the prefix of the piece the bus takes before its first call that accepts nothing |
| St7735s.BusDelivered | rpi/src/st7735s.rs:119-128 | what each piece delivers is a prefix of that piece |
| St7735s.BusPiecesSend | rpi/src/st7735s.rs:119-128 | the writes for several pieces deliver, one after another, the prefix of each piece that the bus took, with later pieces continuing on the calls the bus has left |
| St7735s.BusWriteSends | rpi/src/st7735s.rs:116-130 | `lcd_write` over a varying bus delivers the joined delivered prefixes, and delivers exactly the data if and only if every piece was delivered whole |
| St7735s.FixedBusChunk | rpi/src/st7735s.rs:120-127 | a bus that accepts `limit` bytes on every call behaves as the fixed-capacity model `ChunkTransfers` |
| St7735s.LcdWriteReg | rpi/src/st7735s.rs:133-136 | writing registers first drives DC low, then delivers the register bytes |
| St7735s.LcdWriteData | rpi/src/st7735s.rs:139-142 | writing data first drives DC high, then delivers the data bytes |
| St7735s.WindowTransfers | rpi/src/st7735s.rs:255-261 | setting the window is five transfers, the last selecting register `0x2c` |
| St7735s.LcdSetWindow | rpi/src/st7735s.rs:246-264 | `lcd_set_window` emits register `0x2a`, `[0, x1, 0, x2]`, register `0x2b`, `[0, y1, 0, y2]`, register `0x2c`, in that order |
| St7735s.SetData | rpi/src/st7735s.rs:291-295 | `set_data` emits the window transfers for the converted region and then the pixel data |
| St7735s.ReceivedEmit | rpi/src/st7735s.rs:133-142 | from the bus trace of any sequence of register and data writes, the panel recovers exactly that sequence, with the DC level telling registers from data |
| St7735s.SetDataReceived | rpi/src/st7735s.rs:291-295 | the panel receives `0x2a`, the x bounds, `0x2b`, the y bounds, `0x2c` and then the pixel data, with DC low for the three registers and high for the rest |

## Left out

- Reading from `io::Read` and `io::Error`: the input is a complete `seq<char>`, and the I/O error branches of every routine are not modelled.
- `LineCol` line/column positions: positions are character offsets into the input, so tab expansion and line counting (the `CharReader` in `reader.rs`, which is not part of this model) are left out.
- `Eof`'s position: the source reports the reader's next position; the model reports the offset of the end of input, its character-offset equivalent.
- `f64` values: a `Double` token keeps the text of its literal, and `Display` prints that text rather than Rust's float formatting. So `RoundTrip.DoubleReadsBack` is about the literal text, not about float printing.
- The `Bad double` branch of `consume_number` (core/src/lexer.rs:302): digits, one dot and at least one digit always parse as `f64`, so the branch cannot be reached and is not modelled.
- Unicode: `is_word` uses ASCII letters, digits and `_` instead of `char::is_alphanumeric`, and upper-casing maps only `a`-`z`. The lengths that the source takes from `String::len` are UTF-8 byte lengths (`Strings.ByteLen`); the lengths that `handle_bad_read` counts are characters, as in the source.
- `VarRef`'s own printing (`ast.rs`, not part of this model): it is taken to be the name followed by its type's sigil (`Ast.ShowVarRef`).
- `St7735s.WindowBounds`: `usize` overflow of `x + width` is not modelled. With wrapping addition the low byte is unchanged, because 2^64 is a multiple of 256; a debug build would panic instead.
- `St7735s.Encode`: the RGB565 value is defined by packing the truncated components. `St7735s.TruncatedWide` and `St7735s.PackWide` together show this equals the source's shift-and-or on the widened `u16`; they are stated as two steps rather than one equation.
- The SPI bus is a parameter `limit`, the most bytes one write call accepts. Its errors are not modelled. With a `limit` of 0 the first write accepts nothing and the loop moves on, so the data is dropped, as in the source.
- `St7735s.LcdWrite`: assumes a bus that accepts the same `limit` on every call. A bus whose capacity changes between calls is modelled separately by `St7735s.BusWrite`, where `St7735s.BusWriteSends` gives the general promise.
- `St7735s.WriteTraceSends`: like `St7735s.LcdWrite`, it holds for a fixed per-call `limit` only; for a varying bus it becomes `St7735s.BusWriteSends` and `St7735s.DeliveredIff`.
- `St7735s.WriteChunk`, `St7735s.ChunkTransfersSend` and `St7735s.PieceTransfersSend`: also stated for a fixed per-call `limit`; `St7735s.FixedBusChunk` shows this is the special case of `St7735s.BusChunk`.
- `St7735s.LcdWriteReg`, `St7735s.LcdWriteData`, `St7735s.LcdSetWindow`, `St7735s.SetData` and `St7735s.ReceivedEmit`: the register and data writes use the fixed-`limit` bus.
- Register and data bytes are modelled as the integer newtype `St7735s.Byte`; pixel bytes are `bv8`.
- `to_xy_size` (`rpi/src/lcd.rs`, imported at rpi/src/st7735s.rs:27; not part of this model): `St7735s.SetData` takes it as a function parameter.
- Hardware set-up, reset, initialisation, the backlight and chip-select pins, `Drop`, the console and input buttons of `rpi/src/st7735s.rs`: these are GPIO and timing side effects with no data flow to model.
