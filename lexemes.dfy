/**
 * Source text read as a line of lexemes: a string made of lexemes, each
 * of which ends where the next one could not continue it, scans to one
 * token per lexeme in order (none for blanks and unrecognised
 * characters), and reports exactly its unrecognised characters at their
 * offsets.
 */
module Lexemes {
  import opened Lexer

  /** A line split into its lexemes. */
  datatype Line = End | Lex(text: string, rest: Line)

  /** A blank, punctuation, an operator of one or two characters, an unrecognised character, a number or a word. */
  predicate IsLexeme(p: string) {
    || (|p| == 1 && (IsSkippable(p[0]) || IsPunctuation(p[0]) || IsOperatorChar(p[0]) || IsUnrecognized(p[0])))
    || (|p| == 2 && IsOperatorChar(p[0]) && IsAbsorbed(p[1]))
    || (p != [] && IsInteger(p[0]) && forall k :: 0 <= k < |p| ==> IsInteger(p[k]))
    || (p != [] && IsAlphabetical(p[0]) && forall k :: 0 <= k < |p| ==> IsWordChar(p[k]))
  }

  /** The scan of lexeme `p` would carry on into a following `c`. */
  predicate Extends(p: string, c: char) {
    && p != []
    && (if |p| == 1 && IsOperatorChar(p[0]) then IsAbsorbed(c)
        else if IsInteger(p[0]) then IsInteger(c)
        else if IsAlphabetical(p[0]) then IsWordChar(c)
        else false)
  }

  /** The lexemes of the line follow one another without running together. */
  predicate Separated(l: Line) {
    match l
    case End => true
    case Lex(p, rest) =>
      && IsLexeme(p)
      && (rest.Lex? ==> rest.text != [] && !Extends(p, rest.text[0]))
      && Separated(rest)
  }

  function Concat(l: Line): string {
    match l
    case End => []
    case Lex(p, rest) => p + Concat(rest)
  }

  /** The token lexeme `p` stands for, if any. */
  function LexemeTokens(p: string): seq<Token> {
    if p == [] || IsSkippable(p[0]) || IsUnrecognized(p[0]) then []
    else if IsPunctuation(p[0]) then [Token(p, PunctuationKind(p[0]))]
    else if IsOperatorChar(p[0]) then [Token(p, BinaryOperator)]
    else if IsInteger(p[0]) then [Token(p, Number)]
    else [Token(p, WordKind(p))]
  }

  function Tokens(l: Line): seq<Token> {
    match l
    case End => []
    case Lex(p, rest) => LexemeTokens(p) + Tokens(rest)
  }

  /** A report for lexeme `p` at offset `at`, if it is an unrecognised character. */
  function LexemeReports(p: string, at: nat): seq<Diagnostic> {
    if p != [] && IsUnrecognized(p[0]) then [Unrecognized(p[0], at)] else []
  }

  /** The unrecognised lexemes of the line, reported at their offsets from `at`. */
  function Reports(l: Line, at: nat): seq<Diagnostic> {
    match l
    case End => []
    case Lex(p, rest) => LexemeReports(p, at) + Reports(rest, at + |p|)
  }

  lemma {:induction false} ReportsShift(l: Line, at: nat, offset: nat)
    ensures Shifted(Reports(l, at), offset) == Reports(l, at + offset)
  {
    if l.Lex? {
      var p := l.text;
      ShiftedAppend(LexemeReports(p, at), Reports(l.rest, at + |p|), offset);
      ReportsShift(l.rest, at + |p|, offset);
      if p != [] {
        ShiftedShort(Unrecognized(p[0], at), offset);
      }
    }
  }

  /** One lexeme in front of a text that it does not run into. */
  lemma LexemeStep(p: string, s: string)
    requires IsLexeme(p)
    requires s == [] || !Extends(p, s[0])
    ensures Tokenized(p + s).tokens == LexemeTokens(p) + Tokenized(s).tokens
    ensures Tokenized(p + s).diagnostics == LexemeReports(p, 0) + Shifted(Tokenized(s).diagnostics, |p|)
  {
    var c := p[0];
    if |p| == 1 && !IsInteger(c) && !IsAlphabetical(c) {
      assert p == [c];
      if IsSkippable(c) {
        TokenizeSkippable(c, s);
      } else if IsPunctuation(c) {
        TokenizePunctuation(c, s);
      } else if IsOperatorChar(c) {
        TokenizeOperator(c, s);
      } else {
        TokenizeUnrecognized(c, s);
      }
    } else if |p| == 2 && IsOperatorChar(c) && IsAbsorbed(p[1]) {
      assert p == [c, p[1]];
      TokenizeTwoCharOperator(c, p[1], s);
    } else if IsInteger(c) {
      TokenizeNumber(p, s);
    } else {
      TokenizeWord(p, s);
    }
  }

  /** A string made of separated lexemes scans to their tokens and reports. */
  lemma {:induction false} Lexed(l: Line)
    requires Separated(l)
    ensures Tokenized(Concat(l)) == Scanned(Tokens(l) + [EndOfFile], Reports(l, 0))
  {
    if l.End? {
      TokenizeEmpty();
    } else {
      var p, rest := l.text, l.rest;
      Lexed(rest);
      var s := Concat(rest);
      if rest.Lex? {
        assert s[0] == rest.text[0];
      }
      LexemeStep(p, s);
      ReportsShift(rest, 0, |p|);
      assert LexemeTokens(p) + (Tokens(rest) + [EndOfFile]) == Tokens(l) + [EndOfFile];
    }
  }
}
