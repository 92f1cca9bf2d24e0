/**
 Character classes the EndBASIC tokenizer uses to split its input (the `CharOps` trait of the
 lexer). A separator ends whatever token precedes it; spaces are skipped between tokens; word
 characters make up symbols, keywords and label names.

 Word characters are restricted to ASCII letters, ASCII digits and `_`: the Unicode notion of
 "alphanumeric" is not modelled.

 The scanning helpers work on the whole input `s` and an index into it, the way the tokenizer
 walks a character stream: each returns the index where a run of characters of one class ends.
 */
module CharOps {

  /** Spaces that are skipped between tokens. Newlines are not spaces: they end a statement. */
  predicate IsSpace(c: char) {
    c == ' ' || c == '\t' || c == '\r'
  }

  /** Characters that finish a previous token: statement ends, punctuation, operators, spaces. */
  predicate IsSeparator(c: char) {
    || c == '\n' || c == ':' || c == '(' || c == ')' || c == '\'' || c == '='
    || c == '<' || c == '>' || c == ';' || c == ',' || c == '+' || c == '-'
    || c == '*' || c == '/' || c == '^'
    || IsSpace(c)
  }

  predicate IsAsciiDigit(c: char) {
    '0' <= c <= '9'
  }

  predicate IsAsciiLetter(c: char) {
    ('a' <= c <= 'z') || ('A' <= c <= 'Z')
  }

  /** Characters that can be part of an identifier. */
  predicate IsWord(c: char) {
    c == '_' || IsAsciiLetter(c) || IsAsciiDigit(c)
  }

  predicate AllWord(s: seq<char>) {
    forall i :: 0 <= i < |s| ==> IsWord(s[i])
  }

  predicate AllDigits(s: seq<char>) {
    forall i :: 0 <= i < |s| ==> IsAsciiDigit(s[i])
  }

  predicate AllSpaces(s: seq<char>) {
    forall i :: 0 <= i < |s| ==> IsSpace(s[i])
  }

  predicate NoSeparators(s: seq<char>) {
    forall i :: 0 <= i < |s| ==> !IsSeparator(s[i])
  }

  /** `s[a..b]` holds no separator. */
  predicate NoSeparatorIn(s: seq<char>, a: nat, b: nat)
    requires a <= b <= |s|
  {
    forall k :: a <= k < b ==> !IsSeparator(s[k])
  }

  /** `s[a..b]` is made of word characters. */
  predicate AllWordIn(s: seq<char>, a: nat, b: nat)
    requires a <= b <= |s|
  {
    forall k :: a <= k < b ==> IsWord(s[k])
  }

  /** The input ends at `n` or continues there with a separator. */
  predicate AtSeparator(s: seq<char>, n: nat)
    requires n <= |s|
  {
    n == |s| || IsSeparator(s[n])
  }

  /** Index of the first separator of `s` at or after `i`, or `|s|` when there is none. */
  function SeparatorFrom(s: seq<char>, i: nat): (n: nat)
    requires i <= |s|
    ensures i <= n <= |s| && AtSeparator(s, n) && NoSeparatorIn(s, i, n)
    decreases |s| - i
  {
    if i == |s| || IsSeparator(s[i]) then i else SeparatorFrom(s, i + 1)
  }

  /** Index of the first character of `s` at or after `i` that is not a word character, or `|s|`. */
  function WordFrom(s: seq<char>, i: nat): (n: nat)
    requires i <= |s|
    ensures i <= n <= |s| && AllWordIn(s, i, n)
    ensures n < |s| ==> !IsWord(s[n])
    decreases |s| - i
  {
    if i == |s| || !IsWord(s[i]) then i else WordFrom(s, i + 1)
  }

  /** Index of the first character of `s` at or after `i` that is not a space, or `|s|`. */
  function SpaceFrom(s: seq<char>, i: nat): (n: nat)
    requires i <= |s|
    ensures i <= n <= |s|
    ensures n < |s| ==> !IsSpace(s[n])
    ensures forall k :: i <= k < n ==> IsSpace(s[k])
    decreases |s| - i
  {
    if i == |s| || !IsSpace(s[i]) then i else SpaceFrom(s, i + 1)
  }

  /** Index of the first newline of `s` at or after `i`, or `|s|`. */
  function NewlineFrom(s: seq<char>, i: nat): (n: nat)
    requires i <= |s|
    ensures i <= n <= |s|
    ensures n < |s| ==> s[n] == '\n'
    ensures forall k :: i <= k < n ==> s[k] != '\n'
    decreases |s| - i
  {
    if i == |s| || s[i] == '\n' then i else NewlineFrom(s, i + 1)
  }

  /** A run of non-separators ended by a separator or by the end is exactly what `SeparatorFrom` finds. */
  lemma {:induction false} SeparatorFromIs(s: seq<char>, i: nat, n: nat)
    requires i <= n <= |s| && NoSeparatorIn(s, i, n) && AtSeparator(s, n)
    ensures SeparatorFrom(s, i) == n
    decreases n - i
  {
    if i < n {
      SeparatorFromIs(s, i + 1, n);
    }
  }

  /** A run of word characters ended by a non-word character or by the end is what `WordFrom` finds. */
  lemma {:induction false} WordFromIs(s: seq<char>, i: nat, n: nat)
    requires i <= n <= |s| && AllWordIn(s, i, n) && (n == |s| || !IsWord(s[n]))
    ensures WordFrom(s, i) == n
    decreases n - i
  {
    if i < n {
      WordFromIs(s, i + 1, n);
    }
  }

  /** A run of spaces ended by a non-space or by the end is what `SpaceFrom` finds. */
  lemma {:induction false} SpaceFromIs(s: seq<char>, i: nat, n: nat)
    requires i <= n <= |s| && (forall k :: i <= k < n ==> IsSpace(s[k]))
    requires n == |s| || !IsSpace(s[n])
    ensures SpaceFrom(s, i) == n
    decreases n - i
  {
    if i < n {
      SpaceFromIs(s, i + 1, n);
    }
  }

  /** A stretch without newlines ended by a newline or by the end is what `NewlineFrom` finds. */
  lemma {:induction false} NewlineFromIs(s: seq<char>, i: nat, n: nat)
    requires i <= n <= |s| && (forall k :: i <= k < n ==> s[k] != '\n')
    requires n == |s| || s[n] == '\n'
    ensures NewlineFrom(s, i) == n
    decreases n - i
  {
    if i < n {
      NewlineFromIs(s, i + 1, n);
    }
  }
}
