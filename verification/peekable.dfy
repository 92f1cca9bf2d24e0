/**
 The peeking adaptor over the EndBASIC tokenizer: it holds at most one token that was read from
 the lexer ahead of time, hands it out on the next read, and otherwise forwards to the lexer.
 Peeking any number of times before reading leaves the token stream unchanged.
 */
module Peekable {
  import opened Options
  import opened Tokens
  import opened Lexer
  import opened LexerLemmas

  /** A lexer plus the token `Peek` read ahead of time, if any. */
  datatype PeekableLexer = PeekableLexer(lexer: Lexer, peeked: Option<TokenSpan>) {
    predicate Valid() {
      lexer.Valid()
    }
  }

  function NewPeekable(l: Lexer): (p: PeekableLexer)
    requires l.Valid()
    ensures p.Valid() && p.lexer == l && p.peeked == None
  {
    PeekableLexer(l, None)
  }

  /**
   The upcoming token, without consuming it. The first peek reads it from the lexer and keeps
   it; further peeks return the kept token and change nothing.
   */
  function Peek(p: PeekableLexer): (r: (TokenSpan, PeekableLexer))
    requires p.Valid()
    ensures r.1.Valid() && r.1.lexer.input == p.lexer.input
    ensures r.1.peeked == Some(r.0)
    ensures p.peeked.Some? ==> r.0 == p.peeked.value && r.1 == p
  {
    match p.peeked
    case Some(t) => (t, p)
    case None =>
      var (t, l) := NextToken(p.lexer);
      (t, PeekableLexer(l, Some(t)))
  }

  /**
   The next token: the peeked one if there is one, handed out without touching the lexer;
   otherwise the lexer's next token. Either way nothing stays peeked.
   */
  function Read(p: PeekableLexer): (r: (TokenSpan, PeekableLexer))
    requires p.Valid()
    ensures r.1.Valid() && r.1.lexer.input == p.lexer.input && r.1.peeked == None
    ensures p.peeked.Some? ==> r.0 == p.peeked.value && r.1.lexer == p.lexer
    ensures p.peeked.None? ==> p.lexer.pos <= r.1.lexer.pos
    ensures p.peeked.None? && r.0.token != Eof ==> p.lexer.pos < r.1.lexer.pos
    ensures p.peeked.None? && r.0.token == Eof ==> r.0 == TokenSpan(Eof, |p.lexer.input|, 0)
  {
    match p.peeked
    case Some(t) => (t, PeekableLexer(p.lexer, None))
    case None =>
      var (t, l) := NextToken(p.lexer);
      (t, PeekableLexer(l, None))
  }

  /** Takes the token a previous `Peek` kept; callers only do this after a successful peek. */
  function ConsumePeeked(p: PeekableLexer): (r: (TokenSpan, PeekableLexer))
    requires p.Valid() && p.peeked.Some?
    ensures r.1.Valid() && r.1.lexer == p.lexer && r.1.peeked == None
    ensures Some(r.0) == p.peeked
  {
    (p.peeked.value, PeekableLexer(p.lexer, None))
  }

  /** Every token a peekable lexer hands out, up to and including the first `Eof`. */
  function ReadAll(p: PeekableLexer): (ts: seq<TokenSpan>)
    requires p.Valid()
    ensures |ts| > 0 && ts[|ts| - 1].token == Eof
    ensures forall i :: 0 <= i < |ts| - 1 ==> ts[i].token != Eof
    decreases |p.lexer.input| - p.lexer.pos, if p.peeked.Some? then 1 else 0
  {
    var r := Read(p);
    if r.0.token == Eof then [r.0] else [r.0] + ReadAll(r.1)
  }

  // ----- Peeking -----

  /** Peeking twice returns the same token and leaves the same state as peeking once. */
  lemma PeekIsIdempotent(p: PeekableLexer)
    requires p.Valid()
    ensures Peek(Peek(p).1) == Peek(p)
  {
  }

  /** The token a peek shows is the token the next read returns. */
  lemma PeekShowsNextRead(p: PeekableLexer)
    requires p.Valid()
    ensures Peek(p).0 == Read(p).0
  {
  }

  /** A read after a peek returns the peeked token and ends in the state a plain read ends in. */
  lemma ReadAfterPeek(p: PeekableLexer)
    requires p.Valid()
    ensures Read(Peek(p).1) == Read(p)
  {
  }

  /** Consuming a peeked token is the same as reading it. */
  lemma ConsumeAfterPeek(p: PeekableLexer)
    requires p.Valid()
    ensures ConsumePeeked(Peek(p).1) == Read(p)
  {
  }

  /** Peeking never changes the sequence of tokens the stream goes on to hand out. */
  lemma PeekKeepsStream(p: PeekableLexer)
    requires p.Valid()
    ensures ReadAll(Peek(p).1) == ReadAll(p)
  {
    ReadAfterPeek(p);
  }

  // ----- End of input -----

  /** Once the lexer has reported `Eof`, it reports the same `Eof` again, from the same state. */
  lemma EofIsSticky(l: Lexer)
    requires l.Valid() && NextToken(l).0.token == Eof
    ensures NextToken(NextToken(l).1) == NextToken(l)
  {
    ReadAtEnd(l.input, |l.input|);
  }

  /** An exhausted input yields `Eof` with length 0 at its end, and stays exhausted. */
  lemma EndOfInput(s: seq<char>)
    ensures NextToken(Lexer(s, |s|)) == (TokenSpan(Eof, |s|, 0), Lexer(s, |s|))
  {
    ReadAtEnd(s, |s|);
  }

  /** After a peekable lexer has handed out `Eof`, reading and peeking keep returning it. */
  lemma PeekableEofIsSticky(p: PeekableLexer)
    requires p.Valid() && p.peeked.None? && Read(p).0.token == Eof
    ensures Read(Read(p).1) == Read(p)
    ensures Peek(Read(p).1).0 == Read(p).0
  {
    EofIsSticky(p.lexer);
  }

  // ----- Whole stream -----

  /** Reading a fresh peekable lexer to the end yields exactly the lexer's own tokens. */
  lemma {:induction false} ReadAllIsTokenize(l: Lexer)
    requires l.Valid()
    ensures ReadAll(NewPeekable(l)) == Tokenize(l)
    decreases |l.input| - l.pos
  {
    var r := NextToken(l);
    if r.0.token != Eof {
      ReadAllIsTokenize(r.1);
    }
  }
}
