/**
 * The read-evaluate step of the command loop (main.ts): parse a line,
 * then evaluate the tree; a parse failure ends the line before any
 * evaluation. The examples below work the parser tests' lines from their
 * text through all three stages, tokenize the lexer tests' lines (all but
 * `(3 + 2) - (2 * 3)`), and add lines that exercise the `!` and `(` cases
 * of the scan at lexer.ts:97 and of the parser. `3 + 2 * 4` and
 * `8 - 3 - 2` are worked from their tokens.
 */
module Pipeline {
  import opened Wrappers
  import opened JsNumbers
  import opened Lexer
  import opened Lexemes
  import opened Ast
  import opened Values
  import opened Parsing
  import opened ParserProperties
  import opened WorkedLines
  import opened Interpreter

  datatype RunError = ParseFailed(parse: ParseError) | EvalFailed(eval: EvalError)

  /** One line: `produceAST`, then `evaluateASTNode` on its tree. */
  function Run(src: string): (r: Result<RuntimeVal, RunError>)
    ensures r.Failure? && r.error.ParseFailed? <==> ParseSource(src).Failure?
    ensures r.Success? ==> TypeOf(r.value) == StaticType(ParseSource(src).value)
    ensures ParseSource(src).Success? && HasIdentifier(ParseSource(src).value) ==> r.Failure?
  {
    match ParseSource(src)
    case Failure(e) => Failure(ParseFailed(e))
    case Success(tree) =>
      TypeSound(tree);
      match Evaluate(tree)
      case Failure(e) => Failure(EvalFailed(e))
      case Success(v) => Success(v)
  }

  // ---------------------------------------------------------------------
  // Worked lines
  // ---------------------------------------------------------------------

  function Num(n: nat): Node {
    NumericLiteral(Finite(n as real))
  }

  /** Parsing a printable tree followed by end of input gives the tree. */
  lemma ParsesTo(src: string, e: Node)
    requires Printable(e)
    requires Tokenized(src).tokens == Show(e) + [EndOfFile]
    ensures ParseSource(src) == Success(e)
  {
    RoundTrip(e, [EndOfFile]);
  }

  /** A line made of separated lexemes scans to their tokens. */
  lemma LexedTokens(l: Line, src: string, toks: seq<Token>)
    requires Separated(l) && Concat(l) == src && Tokens(l) == toks
    ensures Tokenized(src).tokens == toks + [EndOfFile]
  {
    Lexed(l);
  }

  /** The same, with the reports of the line. */
  lemma LexedScan(l: Line, src: string, toks: seq<Token>, reps: seq<Diagnostic>)
    requires Separated(l) && Concat(l) == src && Tokens(l) == toks && Reports(l, 0) == reps
    ensures Tokenized(src) == Scanned(toks + [EndOfFile], reps)
  {
    Lexed(l);
  }

  lemma TreeSum()
    ensures Printable(BinaryExpr("+", Num(3), Num(2))) && Show(BinaryExpr("+", Num(3), Num(2))) == [Token("3", Number), Token("+", BinaryOperator), Token("2", Number)]
    ensures Evaluate(BinaryExpr("+", Num(3), Num(2))) == Success(NumberVal(Finite(5.0)))
  {
  }

  /** "3 + 2" is 5. */
  lemma RunSum(src: string)
    requires src == "3 + 2"
    ensures ParseSource(src) == Success(BinaryExpr("+", Num(3), Num(2)))
    ensures Run(src) == Success(NumberVal(Finite(5.0)))
  {
    LineSum();
    LexedTokens(Lex("3", Lex(" ", Lex("+", Lex(" ", Lex("2", End))))), src, [Token("3", Number), Token("+", BinaryOperator), Token("2", Number)]);
    TreeSum();
    ParsesTo(src, BinaryExpr("+", Num(3), Num(2)));
  }

  lemma TreeQuotient()
    ensures Printable(BinaryExpr("/", Num(5), Num(0))) && Show(BinaryExpr("/", Num(5), Num(0))) == [Token("5", Number), Token("/", BinaryOperator), Token("0", Number)]
    ensures Evaluate(BinaryExpr("/", Num(5), Num(0))) == Failure(DivisionByZero)
  {
  }

  /** "5 / 0" parses, and its evaluation fails with the division error. */
  lemma RunQuotient(src: string)
    requires src == "5 / 0"
    ensures ParseSource(src) == Success(BinaryExpr("/", Num(5), Num(0)))
    ensures Run(src) == Failure(EvalFailed(DivisionByZero))
  {
    LineQuotient();
    LexedTokens(Lex("5", Lex(" ", Lex("/", Lex(" ", Lex("0", End))))), src, [Token("5", Number), Token("/", BinaryOperator), Token("0", Number)]);
    TreeQuotient();
    ParsesTo(src, BinaryExpr("/", Num(5), Num(0)));
  }

  lemma TreeEquality()
    ensures Printable(BinaryExpr("==", Num(3), Num(3))) && Show(BinaryExpr("==", Num(3), Num(3))) == [Token("3", Number), Token("==", BinaryOperator), Token("3", Number)]
    ensures Evaluate(BinaryExpr("==", Num(3), Num(3))) == Success(BoolVal(true))
  {
  }

  /** "3 == 3" is true: `==` is one token of two characters. */
  lemma RunEquality(src: string)
    requires src == "3 == 3"
    ensures ParseSource(src) == Success(BinaryExpr("==", Num(3), Num(3)))
    ensures Run(src) == Success(BoolVal(true))
  {
    LineEquality();
    LexedTokens(Lex("3", Lex(" ", Lex("==", Lex(" ", Lex("3", End))))), src, [Token("3", Number), Token("==", BinaryOperator), Token("3", Number)]);
    TreeEquality();
    ParsesTo(src, BinaryExpr("==", Num(3), Num(3)));
  }

  lemma TreeNullSum()
    ensures Printable(BinaryExpr("+", NullLiteral, Num(1))) && Show(BinaryExpr("+", NullLiteral, Num(1))) == [Token("null", Null), Token("+", BinaryOperator), Token("1", Number)]
    ensures Evaluate(BinaryExpr("+", NullLiteral, Num(1))) == Success(NullVal)
  {
  }

  /** "null + 1" is null: an operand that is not a number makes the node null. */
  lemma RunNullSum(src: string)
    requires src == "null + 1"
    ensures ParseSource(src) == Success(BinaryExpr("+", NullLiteral, Num(1)))
    ensures Run(src) == Success(NullVal)
  {
    LineNullSum();
    LexedTokens(Lex("null", Lex(" ", Lex("+", Lex(" ", Lex("1", End))))), src, [Token("null", Null), Token("+", BinaryOperator), Token("1", Number)]);
    TreeNullSum();
    ParsesTo(src, BinaryExpr("+", NullLiteral, Num(1)));
  }

  lemma TreeVariable()
    ensures Printable(Node.Identifier("myVar")) && Show(Node.Identifier("myVar")) == [Token("myVar", TokenType.Identifier)]
    ensures Evaluate(Node.Identifier("myVar")) == Failure(NotSetUp(Node.Identifier("myVar")))
  {
  }

  /** "myVar" parses to a name, which the evaluator has no case for. */
  lemma RunVariable(src: string)
    requires src == "myVar"
    ensures ParseSource(src) == Success(Node.Identifier("myVar"))
    ensures Run(src) == Failure(EvalFailed(NotSetUp(Node.Identifier("myVar"))))
  {
    LineVariable();
    LexedTokens(Lex("myVar", End), src, [Token("myVar", TokenType.Identifier)]);
    TreeVariable();
    ParsesTo(src, Node.Identifier("myVar"));
  }

  lemma TreeGrouped()
    ensures Printable(BinaryExpr("*", BinaryExpr("+", Num(3), Num(2)), Num(4))) && Show(BinaryExpr("*", BinaryExpr("+", Num(3), Num(2)), Num(4))) == [Token("(", OpenParen), Token("3", Number), Token("+", BinaryOperator), Token("2", Number), Token(")", CloseParen), Token("*", BinaryOperator), Token("4", Number)]
    ensures Evaluate(BinaryExpr("*", BinaryExpr("+", Num(3), Num(2)), Num(4))) == Success(NumberVal(Finite(20.0)))
  {
  }

  /** The tokens of "(3 + 2) * 4" put the sum under the product, which is 20. */
  lemma ParseGrouped(ts: seq<Token>)
    requires ts == [Token("(", OpenParen), Token("3", Number), Token("+", BinaryOperator), Token("2", Number), Token(")", CloseParen), Token("*", BinaryOperator), Token("4", Number)] + [EndOfFile]
    ensures ParseComparison(ts) == Success(Parsed(BinaryExpr("*", BinaryExpr("+", Num(3), Num(2)), Num(4)), [EndOfFile]))
    ensures Evaluate(BinaryExpr("*", BinaryExpr("+", Num(3), Num(2)), Num(4))) == Success(NumberVal(Finite(20.0)))
  {
    TreeGrouped();
    RoundTrip(BinaryExpr("*", BinaryExpr("+", Num(3), Num(2)), Num(4)), [EndOfFile]);
  }

  /** "(3 + 2) * 4" is 20: the brackets put the sum under the product. */
  lemma RunGrouped(src: string)
    requires src == "(3 + 2) * 4"
    ensures ParseSource(src) == Success(BinaryExpr("*", BinaryExpr("+", Num(3), Num(2)), Num(4)))
    ensures Run(src) == Success(NumberVal(Finite(20.0)))
  {
    var t := Lex(" ", Lex("*", Lex(" ", Lex("4", End))));
    GroupedTail(t);
    var u := Lex(" ", Lex("2", Lex(")", t)));
    GroupedClose(u, t);
    var w := Lex(" ", Lex("+", u));
    GroupedPlus(w, u);
    var n := Lex("3", w);
    GroupedNumber(n, w);
    var v := Lex("(", n);
    GroupedOpen(v, n);
    LexedTokens(v, src, [Token("(", OpenParen), Token("3", Number), Token("+", BinaryOperator), Token("2", Number), Token(")", CloseParen), Token("*", BinaryOperator), Token("4", Number)]);
    TreeGrouped();
    ParsesTo(src, BinaryExpr("*", BinaryExpr("+", Num(3), Num(2)), Num(4)));
  }

  lemma TreePrecedence()
    ensures Printable(BinaryExpr("+", Num(3), BinaryExpr("*", Num(2), Num(4)))) && Show(BinaryExpr("+", Num(3), BinaryExpr("*", Num(2), Num(4)))) == [Token("3", Number), Token("+", BinaryOperator), Token("2", Number), Token("*", BinaryOperator), Token("4", Number)]
    ensures Evaluate(BinaryExpr("+", Num(3), BinaryExpr("*", Num(2), Num(4)))) == Success(NumberVal(Finite(11.0)))
  {
  }

  /** The tokens of "3 + 2 * 4" put the product under the sum, which is 11. */
  lemma ParsePrecedence(ts: seq<Token>)
    requires ts == [Token("3", Number), Token("+", BinaryOperator), Token("2", Number), Token("*", BinaryOperator), Token("4", Number)] + [EndOfFile]
    ensures ParseComparison(ts) == Success(Parsed(BinaryExpr("+", Num(3), BinaryExpr("*", Num(2), Num(4))), [EndOfFile]))
    ensures Evaluate(BinaryExpr("+", Num(3), BinaryExpr("*", Num(2), Num(4)))) == Success(NumberVal(Finite(11.0)))
  {
    TreePrecedence();
    RoundTrip(BinaryExpr("+", Num(3), BinaryExpr("*", Num(2), Num(4))), [EndOfFile]);
  }

  lemma TreeDifference()
    ensures Printable(BinaryExpr("-", BinaryExpr("-", Num(8), Num(3)), Num(2))) && Show(BinaryExpr("-", BinaryExpr("-", Num(8), Num(3)), Num(2))) == [Token("8", Number), Token("-", BinaryOperator), Token("3", Number), Token("-", BinaryOperator), Token("2", Number)]
    ensures Evaluate(BinaryExpr("-", BinaryExpr("-", Num(8), Num(3)), Num(2))) == Success(NumberVal(Finite(3.0)))
  {
  }

  /** The tokens of "8 - 3 - 2" group to the left, which is 3. */
  lemma ParseDifference(ts: seq<Token>)
    requires ts == [Token("8", Number), Token("-", BinaryOperator), Token("3", Number), Token("-", BinaryOperator), Token("2", Number)] + [EndOfFile]
    ensures ParseComparison(ts) == Success(Parsed(BinaryExpr("-", BinaryExpr("-", Num(8), Num(3)), Num(2)), [EndOfFile]))
    ensures Evaluate(BinaryExpr("-", BinaryExpr("-", Num(8), Num(3)), Num(2))) == Success(NumberVal(Finite(3.0)))
  {
    TreeDifference();
    RoundTrip(BinaryExpr("-", BinaryExpr("-", Num(8), Num(3)), Num(2)), [EndOfFile]);
  }

  /** The tokens of "5 != 3" parse to the 5 alone, leaving the rest. */
  lemma LeadingFive(ts: seq<Token>)
    requires ts == [Token("5", Number), Token("=", BinaryOperator), Token("3", Number), EndOfFile]
    ensures ParseComparison(ts) == Success(Parsed(Num(5), ts[1..]))
  {
    var rest := ts[1..];
    assert Show(Num(5)) == [Token("5", Number)];
    assert ts == Show(Num(5)) + rest;
    assert WellTerminated(rest) && !IsParserOp(rest[0].value);
    RoundTrip(Num(5), rest);
  }

  /**
   * "5 != 3" is 5, and the `!` at index 2 is reported: the scanner drops
   * the `!`, a lone `=` is no operator of the parser, and the tokens after
   * the first expression are ignored.
   */
  lemma RunNotEqual(src: string)
    requires src == "5 != 3"
    ensures Tokenized(src).diagnostics == [Unrecognized('!', 2)]
    ensures ParseSource(src) == Success(Num(5))
    ensures Run(src) == Success(NumberVal(Finite(5.0)))
  {
    var l := Lex("5", Lex(" ", Lex("!", Lex("=", Lex(" ", Lex("3", End))))));
    LineNotEqual();
    ReportsNotEqual(l);
    LexedScan(l, src, [Token("5", Number), Token("=", BinaryOperator), Token("3", Number)], [Unrecognized('!', 2)]);
    LeadingFive(Tokenized(src).tokens);
  }

  /** The tokens of "42" parse to the number. */
  lemma FortyTwo(ts: seq<Token>)
    requires ts == [Token("42", Number), EndOfFile]
    ensures ParseComparison(ts) == Success(Parsed(Num(42), [EndOfFile]))
  {
    assert NatToDigits(42) == "42" by {
      assert NatToDigits(4) == "4";
    }
    assert Show(Num(42)) == [Token("42", Number)];
    assert ts == Show(Num(42)) + [EndOfFile];
    RoundTrip(Num(42), [EndOfFile]);
  }

  /** A bracket whose contents run up to the end of input is left unclosed. */
  lemma ParenUnclosed(ts: seq<Token>, e: Node)
    requires WellTerminated(ts) && ts[0].kind == OpenParen && WellTerminated(ts[1..])
    requires ParseComparison(ts[1..]) == Success(Parsed(e, [EndOfFile]))
    ensures ParsePrimary(ts) == Failure(MissingCloseParen(EndOfFile))
  {
    assert ParsePrimary(ts) == Closed(ParseComparison(ts[1..]));
  }

  /** The primary tier on "(42": the number, then end of input where `)` belongs. */
  lemma PrimaryOpenGroup(ts: seq<Token>)
    requires ts == [Token("(", OpenParen), Token("42", Number), EndOfFile]
    ensures WellTerminated(ts)
    ensures ParsePrimary(ts) == Failure(MissingCloseParen(EndOfFile))
  {
    var rest := ts[1..];
    assert rest == [Token("42", Number), EndOfFile];
    assert WellTerminated(rest);
    assert WellTerminated(ts);
    FortyTwo(rest);
    ParenUnclosed(ts, Num(42));
  }

  /** "(42" fails to parse: end of input stands where `)` belongs. */
  lemma RunOpenGroup(src: string)
    requires src == "(42"
    ensures Run(src) == Failure(ParseFailed(MissingCloseParen(EndOfFile)))
  {
    LineOpenGroup();
    LexedTokens(Lex("(", Lex("42", End)), src, [Token("(", OpenParen), Token("42", Number)]);
    var ts := Tokenized(src).tokens;
    PrimaryOpenGroup(ts);
    TierUnfold(1, ts);
    TierUnfold(2, ts);
    TierUnfold(3, ts);
  }

  // ---------------------------------------------------------------------
  // The remaining parser test lines
  // ---------------------------------------------------------------------

  lemma TreeSubtraction()
    ensures Printable(BinaryExpr("-", Num(5), Num(3))) && Show(BinaryExpr("-", Num(5), Num(3))) == [Token("5", Number), Token("-", BinaryOperator), Token("3", Number)]
    ensures Evaluate(BinaryExpr("-", Num(5), Num(3))) == Success(NumberVal(Finite(2.0)))
  {
  }

  /** "5 - 3" is 2. */
  lemma RunSubtraction(src: string)
    requires src == "5 - 3"
    ensures ParseSource(src) == Success(BinaryExpr("-", Num(5), Num(3)))
    ensures Run(src) == Success(NumberVal(Finite(2.0)))
  {
    LineSubtraction();
    LexedTokens(Lex("5", Lex(" ", Lex("-", Lex(" ", Lex("3", End))))), src, [Token("5", Number), Token("-", BinaryOperator), Token("3", Number)]);
    TreeSubtraction();
    ParsesTo(src, BinaryExpr("-", Num(5), Num(3)));
  }

  lemma TreeProduct()
    ensures Printable(BinaryExpr("*", Num(3), Num(4))) && Show(BinaryExpr("*", Num(3), Num(4))) == [Token("3", Number), Token("*", BinaryOperator), Token("4", Number)]
    ensures Evaluate(BinaryExpr("*", Num(3), Num(4))) == Success(NumberVal(Finite(12.0)))
  {
  }

  /** "3 * 4" is 12. */
  lemma RunProduct(src: string)
    requires src == "3 * 4"
    ensures ParseSource(src) == Success(BinaryExpr("*", Num(3), Num(4)))
    ensures Run(src) == Success(NumberVal(Finite(12.0)))
  {
    LineProduct();
    LexedTokens(Lex("3", Lex(" ", Lex("*", Lex(" ", Lex("4", End))))), src, [Token("3", Number), Token("*", BinaryOperator), Token("4", Number)]);
    TreeProduct();
    ParsesTo(src, BinaryExpr("*", Num(3), Num(4)));
  }

  lemma TreeGreater()
    ensures Printable(BinaryExpr(">", Num(5), Num(2))) && Show(BinaryExpr(">", Num(5), Num(2))) == [Token("5", Number), Token(">", BinaryOperator), Token("2", Number)]
    ensures Evaluate(BinaryExpr(">", Num(5), Num(2))) == Success(BoolVal(true))
  {
  }

  /** "5 > 2" is true. */
  lemma RunGreater(src: string)
    requires src == "5 > 2"
    ensures ParseSource(src) == Success(BinaryExpr(">", Num(5), Num(2)))
    ensures Run(src) == Success(BoolVal(true))
  {
    LineGreater();
    LexedTokens(Lex("5", Lex(" ", Lex(">", Lex(" ", Lex("2", End))))), src, [Token("5", Number), Token(">", BinaryOperator), Token("2", Number)]);
    TreeGreater();
    ParsesTo(src, BinaryExpr(">", Num(5), Num(2)));
  }

  lemma TreeNullLine()
    ensures Printable(NullLiteral) && Show(NullLiteral) == [Token("null", Null)]
    ensures Evaluate(NullLiteral) == Success(NullVal)
  {
  }

  /** "null" on its own is the null literal, and evaluates to null. */
  lemma RunNullLine(src: string)
    requires src == "null"
    ensures ParseSource(src) == Success(NullLiteral)
    ensures Run(src) == Success(NullVal)
  {
    LineNullLine();
    LexedTokens(Lex("null", End), src, [Token("null", Null)]);
    TreeNullLine();
    ParsesTo(src, NullLiteral);
  }

  // ---------------------------------------------------------------------
  // The tokenizer test lines
  // ---------------------------------------------------------------------

  /** Each bracket, brace and semicolon is a token of its own. */
  lemma TokenizePunctuationLine(src: string)
    requires src == "(){};"
    ensures Tokenized(src).tokens == [Token("(", OpenParen), Token(")", CloseParen), Token("{", OpenBrace), Token("}", CloseBrace), Token(";", Semicolon)] + [EndOfFile]
  {
    LinePunctuation();
    LexedTokens(Lex("(", Lex(")", Lex("{", Lex("}", Lex(";", End))))), src, [Token("(", OpenParen), Token(")", CloseParen), Token("{", OpenBrace), Token("}", CloseBrace), Token(";", Semicolon)]);
  }

  /** Digit runs separated by a blank are two numbers. */
  lemma TokenizeNumbersLine(src: string)
    requires src == "123 456"
    ensures Tokenized(src).tokens == [Token("123", Number), Token("456", Number)] + [EndOfFile]
  {
    LineNumbers();
    LexedTokens(Lex("123", Lex(" ", Lex("456", End))), src, [Token("123", Number), Token("456", Number)]);
  }

  /** `let` is a keyword, and `x` an identifier. */
  lemma TokenizeLetStatementLine(src: string)
    requires src == "let x;"
    ensures Tokenized(src).tokens == [Token("let", Let), Token("x", TokenType.Identifier), Token(";", Semicolon)] + [EndOfFile]
  {
    LineLetStatement();
    LexedTokens(Lex("let", Lex(" ", Lex("x", Lex(";", End)))), src, [Token("let", Let), Token("x", TokenType.Identifier), Token(";", Semicolon)]);
  }

  /** A `-` after a number is a binary operator. */
  lemma TokenizeMinusLine(src: string)
    requires src == "42 - 3"
    ensures Tokenized(src).tokens == [Token("42", Number), Token("-", BinaryOperator), Token("3", Number)] + [EndOfFile]
  {
    LineMinus();
    LexedTokens(Lex("42", Lex(" ", Lex("-", Lex(" ", Lex("3", End))))), src, [Token("42", Number), Token("-", BinaryOperator), Token("3", Number)]);
  }

  /** A bracketed product. */
  lemma TokenizeBracketedLine(src: string)
    requires src == "(3 * 2)"
    ensures Tokenized(src).tokens == [Token("(", OpenParen), Token("3", Number), Token("*", BinaryOperator), Token("2", Number), Token(")", CloseParen)] + [EndOfFile]
  {
    LineBracketed();
    LexedTokens(Lex("(", Lex("3", Lex(" ", Lex("*", Lex(" ", Lex("2", Lex(")", End))))))), src, [Token("(", OpenParen), Token("3", Number), Token("*", BinaryOperator), Token("2", Number), Token(")", CloseParen)]);
  }

  /** `@` is reported at position 0, and the valid parts are still tokenized. */
  lemma TokenizeUnrecognizedLine(src: string)
    requires src == "@42;"
    ensures Tokenized(src) == Scanned([Token("42", Number), Token(";", Semicolon)] + [EndOfFile], [Unrecognized('@', 0)])
  {
    LineUnrecognized();
    LexedScan(Lex("@", Lex("42", Lex(";", End))), src, [Token("42", Number), Token(";", Semicolon)], [Unrecognized('@', 0)]);
  }
}
