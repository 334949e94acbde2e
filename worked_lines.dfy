/**
 * Lines used by the repository's tests, written as sequences of lexemes
 * (`Lexemes.Line`): each lemma states that a line is separated, spells
 * the given text and stands for the given tokens, which is what
 * `Lexemes.Lexed` needs to scan it. Longer lines are built a few lexemes
 * at a time from the right with `Prepend`.
 */
module WorkedLines {
  import opened Lexer
  import opened Lexemes
  import opened Wrappers

  lemma LineSum()
    ensures Separated(Lex("3", Lex(" ", Lex("+", Lex(" ", Lex("2", End))))))
    ensures Concat(Lex("3", Lex(" ", Lex("+", Lex(" ", Lex("2", End)))))) == "3 + 2"
    ensures Tokens(Lex("3", Lex(" ", Lex("+", Lex(" ", Lex("2", End)))))) == [Token("3", Number), Token("+", BinaryOperator), Token("2", Number)]
  {
  }

  lemma LineQuotient()
    ensures Separated(Lex("5", Lex(" ", Lex("/", Lex(" ", Lex("0", End))))))
    ensures Concat(Lex("5", Lex(" ", Lex("/", Lex(" ", Lex("0", End)))))) == "5 / 0"
    ensures Tokens(Lex("5", Lex(" ", Lex("/", Lex(" ", Lex("0", End)))))) == [Token("5", Number), Token("/", BinaryOperator), Token("0", Number)]
  {
  }

  lemma LineEquality()
    ensures Separated(Lex("3", Lex(" ", Lex("==", Lex(" ", Lex("3", End))))))
    ensures Concat(Lex("3", Lex(" ", Lex("==", Lex(" ", Lex("3", End)))))) == "3 == 3"
    ensures Tokens(Lex("3", Lex(" ", Lex("==", Lex(" ", Lex("3", End)))))) == [Token("3", Number), Token("==", BinaryOperator), Token("3", Number)]
  {
  }

  lemma LineNullSum()
    ensures Separated(Lex("null", Lex(" ", Lex("+", Lex(" ", Lex("1", End))))))
    ensures Concat(Lex("null", Lex(" ", Lex("+", Lex(" ", Lex("1", End)))))) == "null + 1"
    ensures Tokens(Lex("null", Lex(" ", Lex("+", Lex(" ", Lex("1", End)))))) == [Token("null", Null), Token("+", BinaryOperator), Token("1", Number)]
  {
    assert IsLexeme("null") && LexemeTokens("null") == [Token("null", Null)];
    assert Separated(Lex("+", Lex(" ", Lex("1", End))));
  }

  lemma LineVariable()
    ensures Separated(Lex("myVar", End))
    ensures Concat(Lex("myVar", End)) == "myVar"
    ensures Tokens(Lex("myVar", End)) == [Token("myVar", TokenType.Identifier)]
  {
    assert Keyword("myVar") == None;
  }

  lemma LineNotEqual()
    ensures Separated(Lex("5", Lex(" ", Lex("!", Lex("=", Lex(" ", Lex("3", End)))))))
    ensures Concat(Lex("5", Lex(" ", Lex("!", Lex("=", Lex(" ", Lex("3", End))))))) == "5 != 3"
    ensures Tokens(Lex("5", Lex(" ", Lex("!", Lex("=", Lex(" ", Lex("3", End))))))) ==
      [Token("5", Number), Token("=", BinaryOperator), Token("3", Number)]
  {
    assert Separated(Lex("=", Lex(" ", Lex("3", End))));
  }

  lemma ReportsNotEqual(l: Line)
    requires l == Lex("5", Lex(" ", Lex("!", Lex("=", Lex(" ", Lex("3", End))))))
    ensures Reports(l, 0) == [Unrecognized('!', 2)]
  {
    assert Reports(l.rest.rest.rest, 3) == [] by {
      assert Reports(l.rest.rest.rest.rest.rest, 5) == [];
      assert Reports(l.rest.rest.rest.rest, 4) == [];
    }
    assert Reports(l.rest.rest, 2) == [Unrecognized('!', 2)];
    assert Reports(l.rest, 1) == [Unrecognized('!', 2)];
  }

  lemma LineOpenGroup()
    ensures Separated(Lex("(", Lex("42", End)))
    ensures Concat(Lex("(", Lex("42", End))) == "(42"
    ensures Tokens(Lex("(", Lex("42", End))) == [Token("(", OpenParen), Token("42", Number)]
  {
  }

  lemma LineSubtraction()
    ensures Separated(Lex("5", Lex(" ", Lex("-", Lex(" ", Lex("3", End))))))
    ensures Concat(Lex("5", Lex(" ", Lex("-", Lex(" ", Lex("3", End)))))) == "5 - 3"
    ensures Tokens(Lex("5", Lex(" ", Lex("-", Lex(" ", Lex("3", End)))))) == [Token("5", Number), Token("-", BinaryOperator), Token("3", Number)]
  {
  }

  lemma LineProduct()
    ensures Separated(Lex("3", Lex(" ", Lex("*", Lex(" ", Lex("4", End))))))
    ensures Concat(Lex("3", Lex(" ", Lex("*", Lex(" ", Lex("4", End)))))) == "3 * 4"
    ensures Tokens(Lex("3", Lex(" ", Lex("*", Lex(" ", Lex("4", End)))))) == [Token("3", Number), Token("*", BinaryOperator), Token("4", Number)]
  {
  }

  lemma LineGreater()
    ensures Separated(Lex("5", Lex(" ", Lex(">", Lex(" ", Lex("2", End))))))
    ensures Concat(Lex("5", Lex(" ", Lex(">", Lex(" ", Lex("2", End)))))) == "5 > 2"
    ensures Tokens(Lex("5", Lex(" ", Lex(">", Lex(" ", Lex("2", End)))))) == [Token("5", Number), Token(">", BinaryOperator), Token("2", Number)]
  {
  }

  lemma LineNullLine()
    ensures Separated(Lex("null", End))
    ensures Concat(Lex("null", End)) == "null"
    ensures Tokens(Lex("null", End)) == [Token("null", Null)]
  {
  }

  lemma LinePunctuation()
    ensures Separated(Lex("(", Lex(")", Lex("{", Lex("}", Lex(";", End))))))
    ensures Concat(Lex("(", Lex(")", Lex("{", Lex("}", Lex(";", End)))))) == "(){};"
    ensures Tokens(Lex("(", Lex(")", Lex("{", Lex("}", Lex(";", End)))))) == [Token("(", OpenParen), Token(")", CloseParen), Token("{", OpenBrace), Token("}", CloseBrace), Token(";", Semicolon)]
  {
    assert Separated(Lex("{", Lex("}", Lex(";", End))));
    assert Tokens(Lex("{", Lex("}", Lex(";", End)))) == [Token("{", OpenBrace), Token("}", CloseBrace), Token(";", Semicolon)];
  }

  lemma LineNumbers()
    ensures Separated(Lex("123", Lex(" ", Lex("456", End))))
    ensures Concat(Lex("123", Lex(" ", Lex("456", End)))) == "123 456"
    ensures Tokens(Lex("123", Lex(" ", Lex("456", End)))) == [Token("123", Number), Token("456", Number)]
  {
  }

  lemma LineLetStatement()
    ensures Separated(Lex("let", Lex(" ", Lex("x", Lex(";", End)))))
    ensures Concat(Lex("let", Lex(" ", Lex("x", Lex(";", End))))) == "let x;"
    ensures Tokens(Lex("let", Lex(" ", Lex("x", Lex(";", End))))) == [Token("let", Let), Token("x", TokenType.Identifier), Token(";", Semicolon)]
  {
    assert IsLexeme("let") && LexemeTokens("let") == [Token("let", Let)];
    assert Keyword("x") == None;
    assert Separated(Lex("x", Lex(";", End)));
  }

  lemma LineMinus()
    ensures Separated(Lex("42", Lex(" ", Lex("-", Lex(" ", Lex("3", End))))))
    ensures Concat(Lex("42", Lex(" ", Lex("-", Lex(" ", Lex("3", End)))))) == "42 - 3"
    ensures Tokens(Lex("42", Lex(" ", Lex("-", Lex(" ", Lex("3", End)))))) == [Token("42", Number), Token("-", BinaryOperator), Token("3", Number)]
  {
    assert IsLexeme("42") && LexemeTokens("42") == [Token("42", Number)];
  }

  lemma LineBracketed()
    ensures Separated(Lex("(", Lex("3", Lex(" ", Lex("*", Lex(" ", Lex("2", Lex(")", End))))))))
    ensures Concat(Lex("(", Lex("3", Lex(" ", Lex("*", Lex(" ", Lex("2", Lex(")", End)))))))) == "(3 * 2)"
    ensures Tokens(Lex("(", Lex("3", Lex(" ", Lex("*", Lex(" ", Lex("2", Lex(")", End)))))))) == [Token("(", OpenParen), Token("3", Number), Token("*", BinaryOperator), Token("2", Number), Token(")", CloseParen)]
  {
    assert Separated(Lex("*", Lex(" ", Lex("2", Lex(")", End)))));
    assert Tokens(Lex("*", Lex(" ", Lex("2", Lex(")", End))))) == [Token("*", BinaryOperator), Token("2", Number), Token(")", CloseParen)];
  }

  lemma LineUnrecognized()
    ensures Separated(Lex("@", Lex("42", Lex(";", End))))
    ensures Concat(Lex("@", Lex("42", Lex(";", End)))) == "@42;"
    ensures Tokens(Lex("@", Lex("42", Lex(";", End)))) == [Token("42", Number), Token(";", Semicolon)]
    ensures Reports(Lex("@", Lex("42", Lex(";", End))), 0) == [Unrecognized('@', 0)]
  {
  }

  // ---------------------------------------------------------------------
  // "(3 + 2) * 4", built from the right a few lexemes at a time
  // ---------------------------------------------------------------------

  /** Line `l` is separated, spells `text` and stands for the tokens `toks`. */
  predicate Lays(l: Line, text: string, toks: seq<Token>) {
    Separated(l) && Concat(l) == text && Tokens(l) == toks
  }

  /** One more lexeme in front of a line it does not run into. */
  lemma Prepend(p: string, rest: Line, text: string, toks: seq<Token>)
    requires IsLexeme(p) && Lays(rest, text, toks)
    requires text == [] || !Extends(p, text[0])
    ensures Lays(Lex(p, rest), p + text, LexemeTokens(p) + toks)
  {
    if rest.Lex? {
      assert text[0] == rest.text[0];
    }
  }

  lemma GroupedTail(t: Line)
    requires t == Lex(" ", Lex("*", Lex(" ", Lex("4", End))))
    ensures Lays(t, " * 4", [Token("*", BinaryOperator), Token("4", Number)])
  {
  }

  lemma GroupedClose(u: Line, t: Line)
    requires Lays(t, " * 4", [Token("*", BinaryOperator), Token("4", Number)])
    requires u == Lex(" ", Lex("2", Lex(")", t)))
    ensures Lays(u, " 2) * 4", [Token("2", Number), Token(")", CloseParen), Token("*", BinaryOperator), Token("4", Number)])
  {
    Prepend(")", t, " * 4", [Token("*", BinaryOperator), Token("4", Number)]);
    Prepend("2", Lex(")", t), ") * 4", [Token(")", CloseParen), Token("*", BinaryOperator), Token("4", Number)]);
    Prepend(" ", Lex("2", Lex(")", t)), "2) * 4", [Token("2", Number), Token(")", CloseParen), Token("*", BinaryOperator), Token("4", Number)]);
  }

  lemma GroupedPlus(w: Line, u: Line)
    requires Lays(u, " 2) * 4", [Token("2", Number), Token(")", CloseParen), Token("*", BinaryOperator), Token("4", Number)])
    requires w == Lex(" ", Lex("+", u))
    ensures Lays(w, " + 2) * 4", [Token("+", BinaryOperator), Token("2", Number), Token(")", CloseParen), Token("*", BinaryOperator), Token("4", Number)])
  {
    Prepend("+", u, " 2) * 4", [Token("2", Number), Token(")", CloseParen), Token("*", BinaryOperator), Token("4", Number)]);
    Prepend(" ", Lex("+", u), "+ 2) * 4", [Token("+", BinaryOperator), Token("2", Number), Token(")", CloseParen), Token("*", BinaryOperator), Token("4", Number)]);
  }

  lemma GroupedNumber(n: Line, w: Line)
    requires Lays(w, " + 2) * 4", [Token("+", BinaryOperator), Token("2", Number), Token(")", CloseParen), Token("*", BinaryOperator), Token("4", Number)])
    requires n == Lex("3", w)
    ensures Lays(n, "3 + 2) * 4", [Token("3", Number), Token("+", BinaryOperator), Token("2", Number), Token(")", CloseParen), Token("*", BinaryOperator), Token("4", Number)])
  {
    Prepend("3", w, " + 2) * 4", [Token("+", BinaryOperator), Token("2", Number), Token(")", CloseParen), Token("*", BinaryOperator), Token("4", Number)]);
  }

  lemma GroupedOpen(v: Line, n: Line)
    requires Lays(n, "3 + 2) * 4", [Token("3", Number), Token("+", BinaryOperator), Token("2", Number), Token(")", CloseParen), Token("*", BinaryOperator), Token("4", Number)])
    requires v == Lex("(", n)
    ensures Lays(v, "(3 + 2) * 4", [Token("(", OpenParen), Token("3", Number), Token("+", BinaryOperator), Token("2", Number), Token(")", CloseParen), Token("*", BinaryOperator), Token("4", Number)])
  {
    Prepend("(", n, "3 + 2) * 4", [Token("3", Number), Token("+", BinaryOperator), Token("2", Number), Token(")", CloseParen), Token("*", BinaryOperator), Token("4", Number)]);
  }

}
