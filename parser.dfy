/**
 * The recursive-descent parser. Four precedence tiers, loosest first:
 * comparison, additive, multiplicative, primary. Each binary tier parses
 * one operand of the next tier and then folds further operands in from
 * the left for as long as the next token's text is one of its operators.
 *
 * The functions `ParseComparison` ... `ParsePrimary` describe what each
 * tier does to a token sequence; class `Parser` keeps the tokens in a
 * field that its methods shift from the front, and each method is proved
 * to compute exactly the corresponding function.
 */
module Parsing {
  import opened Wrappers
  import opened JsNumbers
  import opened Lexer
  import opened Ast

  /** Why the parser gives up (the source prints a message and exits). */
  datatype ParseError =
    | UnexpectedToken(found: Token)     // no primary expression starts with this token
    | MissingCloseParen(found: Token)   // this token stands where `)` was expected

  /** A parsed node and the tokens left after it. */
  datatype Parsed = Parsed(node: Node, rest: seq<Token>)

  // ---------------------------------------------------------------------
  // Operators of each tier, tested on the token's text
  // ---------------------------------------------------------------------

  predicate IsComparisonOp(v: string) {
    v == "<" || v == ">" || v == "<=" || v == ">=" || v == "==" || v == "!="
  }

  predicate IsAdditiveOp(v: string) {
    v == "+" || v == "-"
  }

  predicate IsMultiplicativeOp(v: string) {
    v == "/" || v == "*" || v == "%"
  }

  /** The eleven operator texts the tier loops test for. */
  predicate IsParserOp(v: string) {
    IsComparisonOp(v) || IsAdditiveOp(v) || IsMultiplicativeOp(v)
  }

  /** An operator token is never the end-of-file token, so shifting it keeps the rest well terminated. */
  lemma ShiftOperator(ts: seq<Token>)
    requires WellTerminated(ts) && IsParserOp(ts[0].value)
    ensures |ts| > 1 && WellTerminated(ts[1..])
  {
    assert |ts[0].value| <= 2 < |EndOfFile.value|;
  }

  predicate SuffixOf(rest: seq<Token>, ts: seq<Token>) {
    |rest| <= |ts| && rest == ts[|ts| - |rest|..]
  }

  /**
   * The token an error names is one of `ts`: a token no primary expression
   * starts with, or a token other than `)` where `)` was expected.
   */
  predicate Blames(err: ParseError, ts: seq<Token>) {
    match err
    case UnexpectedToken(t) => t in ts && t.kind !in {TokenType.Identifier, TokenType.Null, TokenType.Number, OpenParen}
    case MissingCloseParen(t) => t in ts && t.kind != CloseParen
  }

  /** A token other than end-of-file can be shifted, leaving a well-terminated rest. */
  lemma DropFirst(ts: seq<Token>)
    requires WellTerminated(ts) && ts[0].kind != EOF
    ensures |ts| > 1 && WellTerminated(ts[1..]) && SuffixOf(ts[1..], ts)
  {
  }

  /** What holds of later parts of `ts[1..]` holds of `ts`. */
  lemma Narrowing(ts: seq<Token>)
    requires |ts| > 0
    ensures forall a, b :: SuffixOf(a, b) && SuffixOf(b, ts[1..]) ==> SuffixOf(a, ts)
    ensures forall err, b :: SuffixOf(b, ts[1..]) && Blames(err, b) ==> Blames(err, ts)
    ensures forall err :: Blames(err, ts[1..]) ==> Blames(err, ts)
  {
    forall a, b | SuffixOf(a, b) && SuffixOf(b, ts[1..]) ensures SuffixOf(a, ts) {
      assert b == ts[|ts| - |b|..];
    }
    forall t, b | SuffixOf(b, ts[1..]) && t in b ensures t in ts {
      assert b == ts[|ts| - |b|..];
    }
    forall t | t in ts[1..] ensures t in ts {
      assert ts[1..] == ts[|ts| - |ts[1..]|..];
    }
  }

  // ---------------------------------------------------------------------
  // Number literals
  // ---------------------------------------------------------------------

  /** The longest prefix of `s` made of digits. */
  function DigitPrefix(s: string): (p: string)
    ensures |p| <= |s| && p == s[..|p|]
    ensures forall k :: 0 <= k < |p| ==> IsInteger(p[k])
    ensures |p| == |s| || !IsInteger(s[|p|])
  {
    if s != [] && IsInteger(s[0]) then [s[0]] + DigitPrefix(s[1..]) else []
  }

  function DigitValue(c: char): (v: nat)
    requires IsInteger(c)
    ensures v < 10
  {
    c as int - '0' as int
  }

  /** The decimal value of a string of digits. */
  function DecimalValue(d: string): nat
    requires forall k :: 0 <= k < |d| ==> IsInteger(d[k])
  {
    if d == [] then 0 else DecimalValue(d[..|d| - 1]) * 10 + DigitValue(d[|d| - 1])
  }

  /**
   * `parseFloat` on the text of a token: the value of its leading digits,
   * NaN when it has none. Only digit strings reach it from the tokenizer.
   */
  function ParseFloat(s: string): (n: JsNumber)
    ensures n.Finite? <==> s != [] && IsInteger(s[0])
  {
    var p := DigitPrefix(s);
    if p == [] then NaN else Finite(DecimalValue(p) as real)
  }

  // ---------------------------------------------------------------------
  // The tiers as functions on token sequences
  // ---------------------------------------------------------------------

  /** parseStatement: the comparison tier. */
  function ParseComparison(ts: seq<Token>): (r: Result<Parsed, ParseError>)
    requires WellTerminated(ts)
    ensures r.Success? ==>
      |r.value.rest| < |ts| && SuffixOf(r.value.rest, ts) && WellTerminated(r.value.rest)
      && AllOps(r.value.node, IsParserOp) && !IsParserOp(r.value.rest[0].value)
    ensures r.Failure? ==> Blames(r.error, ts)
    decreases |ts|, 7
  {
    var left :- ParseAdditive(ts);
    ComparisonTail(left.node, left.rest)
  }

  /** The loop of parseStatement, from accumulated operand `left` on. */
  function ComparisonTail(left: Node, ts: seq<Token>): (r: Result<Parsed, ParseError>)
    requires WellTerminated(ts)
    requires AllOps(left, IsParserOp)
    ensures r.Success? ==>
      SuffixOf(r.value.rest, ts) && WellTerminated(r.value.rest) && AllOps(r.value.node, IsParserOp)
      && !IsComparisonOp(r.value.rest[0].value)
      && (r.value.rest == ts || !IsParserOp(r.value.rest[0].value))
    ensures r.Failure? ==> Blames(r.error, ts)
    decreases |ts|, 6
  {
    if IsComparisonOp(ts[0].value) then
      ShiftOperator(ts);
      Narrowing(ts);
      var right :- ParseAdditive(ts[1..]);
      ComparisonTail(BinaryExpr(ts[0].value, left, right.node), right.rest)
    else
      Success(Parsed(left, ts))
  }

  /** parseAdditiveExpression. */
  function ParseAdditive(ts: seq<Token>): (r: Result<Parsed, ParseError>)
    requires WellTerminated(ts)
    ensures r.Success? ==>
      |r.value.rest| < |ts| && SuffixOf(r.value.rest, ts) && WellTerminated(r.value.rest)
      && AllOps(r.value.node, IsParserOp)
      && !IsAdditiveOp(r.value.rest[0].value) && !IsMultiplicativeOp(r.value.rest[0].value)
    ensures r.Failure? ==> Blames(r.error, ts)
    decreases |ts|, 5
  {
    var left :- ParseMultiplicative(ts);
    AdditiveTail(left.node, left.rest)
  }

  /** The loop of parseAdditiveExpression. */
  function AdditiveTail(left: Node, ts: seq<Token>): (r: Result<Parsed, ParseError>)
    requires WellTerminated(ts)
    requires AllOps(left, IsParserOp)
    ensures r.Success? ==>
      SuffixOf(r.value.rest, ts) && WellTerminated(r.value.rest) && AllOps(r.value.node, IsParserOp)
      && !IsAdditiveOp(r.value.rest[0].value)
      && (r.value.rest == ts || !IsMultiplicativeOp(r.value.rest[0].value))
    ensures r.Failure? ==> Blames(r.error, ts)
    decreases |ts|, 4
  {
    if IsAdditiveOp(ts[0].value) then
      ShiftOperator(ts);
      Narrowing(ts);
      var right :- ParseMultiplicative(ts[1..]);
      AdditiveTail(BinaryExpr(ts[0].value, left, right.node), right.rest)
    else
      Success(Parsed(left, ts))
  }

  /** parseMultiplicativeExpression. */
  function ParseMultiplicative(ts: seq<Token>): (r: Result<Parsed, ParseError>)
    requires WellTerminated(ts)
    ensures r.Success? ==>
      |r.value.rest| < |ts| && SuffixOf(r.value.rest, ts) && WellTerminated(r.value.rest)
      && AllOps(r.value.node, IsParserOp) && !IsMultiplicativeOp(r.value.rest[0].value)
    ensures r.Failure? ==> Blames(r.error, ts)
    decreases |ts|, 3
  {
    var left :- ParsePrimary(ts);
    MultiplicativeTail(left.node, left.rest)
  }

  /** The loop of parseMultiplicativeExpression. */
  function MultiplicativeTail(left: Node, ts: seq<Token>): (r: Result<Parsed, ParseError>)
    requires WellTerminated(ts)
    requires AllOps(left, IsParserOp)
    ensures r.Success? ==>
      SuffixOf(r.value.rest, ts) && WellTerminated(r.value.rest) && AllOps(r.value.node, IsParserOp)
      && !IsMultiplicativeOp(r.value.rest[0].value)
    ensures r.Failure? ==> Blames(r.error, ts)
    decreases |ts|, 2
  {
    if IsMultiplicativeOp(ts[0].value) then
      ShiftOperator(ts);
      Narrowing(ts);
      var right :- ParsePrimary(ts[1..]);
      MultiplicativeTail(BinaryExpr(ts[0].value, left, right.node), right.rest)
    else
      Success(Parsed(left, ts))
  }

  /**
   * The step after a bracketed comparison: the next token must be `)`,
   * which is consumed; anything else is blamed.
   */
  function Closed(r: Result<Parsed, ParseError>): (c: Result<Parsed, ParseError>)
    requires r.Success? ==> WellTerminated(r.value.rest)
    ensures c.Success? <==> r.Success? && r.value.rest[0].kind == CloseParen
    ensures c.Success? ==> c.value == Parsed(r.value.node, r.value.rest[1..])
    ensures r.Failure? ==> c == r
    ensures r.Success? && c.Failure? ==> c.error == MissingCloseParen(r.value.rest[0])
  {
    var inner :- r;
    var close := inner.rest[0];
    if close.kind == CloseParen then Success(Parsed(inner.node, inner.rest[1..]))
    else Failure(MissingCloseParen(close))
  }

  /** Closing a comparison parsed from `ts[1..]` leaves a later part of `ts`, or blames one of its tokens. */
  lemma ClosedWithin(ts: seq<Token>, r: Result<Parsed, ParseError>)
    requires |ts| > 1
    requires r.Success? ==> |r.value.rest| < |ts| - 1 && SuffixOf(r.value.rest, ts[1..]) && WellTerminated(r.value.rest)
    requires r.Failure? ==> Blames(r.error, ts[1..])
    ensures Closed(r).Success? ==>
      |Closed(r).value.rest| < |ts| && SuffixOf(Closed(r).value.rest, ts) && WellTerminated(Closed(r).value.rest)
    ensures Closed(r).Failure? ==> Blames(Closed(r).error, ts)
  {
    Narrowing(ts);
    if r.Success? {
      var rest := r.value.rest;
      if rest[0].kind == CloseParen {
        DropFirst(rest);
      } else {
        assert Blames(MissingCloseParen(rest[0]), rest);
      }
    }
  }

  /**
   * parsePrimaryExpression: an identifier, `null`, a number, or a
   * parenthesised comparison, after which the next token must be `)`.
   */
  function ParsePrimary(ts: seq<Token>): (r: Result<Parsed, ParseError>)
    requires WellTerminated(ts)
    ensures r.Success? ==>
      |r.value.rest| < |ts| && SuffixOf(r.value.rest, ts) && WellTerminated(r.value.rest)
      && AllOps(r.value.node, IsParserOp)
    ensures r.Failure? ==> Blames(r.error, ts)
    decreases |ts|, 1
  {
    var t := ts[0];
    match t.kind
    case Identifier => DropFirst(ts); Success(Parsed(Node.Identifier(t.value), ts[1..]))
    case Null => DropFirst(ts); Success(Parsed(NullLiteral, ts[1..]))
    case Number => DropFirst(ts); Success(Parsed(NumericLiteral(ParseFloat(t.value)), ts[1..]))
    case OpenParen =>
      DropFirst(ts);
      var r := ParseComparison(ts[1..]);
      ClosedWithin(ts, r);
      Closed(r)
    case _ => Failure(UnexpectedToken(t))
  }

  /** The node of a parse result, or its error. */
  function NodeOf(p: Result<Parsed, ParseError>): Result<Node, ParseError> {
    match p
    case Success(v) => Success(v.node)
    case Failure(e) => Failure(e)
  }

  /** What `produceAST` returns for a source text. */
  function ParseSource(src: string): (r: Result<Node, ParseError>)
    ensures r.Success? ==> AllOps(r.value, IsParserOp)
    ensures r.Failure? ==> Blames(r.error, Tokenized(src).tokens)
    ensures Scan(src, 0).tokens == [] ==> r.Failure?
  {
    TokenizedWellTerminated(src);
    NodeOf(ParseComparison(Tokenized(src).tokens))
  }

  // ---------------------------------------------------------------------
  // The parser object
  // ---------------------------------------------------------------------

  class Parser {
    /** The tokens not yet consumed; the methods shift them from the front. */
    var tokens: seq<Token>

    constructor()
      ensures tokens == []
    {
      tokens := [];
    }

    /** What every parsing method needs: the remaining tokens end with the end-of-file token. */
    predicate Valid()
      reads this
    {
      WellTerminated(tokens)
    }

    /** notEOF: the current token is not the end-of-file token, that is, input remains. */
    function NotEOF(): (b: bool)
      reads this
      requires Valid()
      ensures b <==> |tokens| > 1
    {
      tokens[0].kind != EOF
    }

    /** first: the current token, which is end-of-file exactly when nothing else is left. */
    function First(): (t: Token)
      reads this
      requires |tokens| > 0
      ensures t in tokens
      ensures Valid() ==> (t.kind == EOF <==> |tokens| == 1)
    {
      tokens[0]
    }

    /** shift: removes the current token and returns it. */
    method Shift() returns (t: Token)
      requires |tokens| > 0
      modifies this
      ensures t == old(tokens)[0] && tokens == old(tokens)[1..]
    {
      t := tokens[0];
      tokens := tokens[1..];
    }

    /** hasCloseParenthesis: shifts the current token and fails unless it is `)`. */
    method HasCloseParenthesis() returns (r: Result<Token, ParseError>)
      requires Valid()
      modifies this
      ensures tokens == old(tokens)[1..]
      ensures r == if old(tokens)[0].kind == CloseParen then Success(old(tokens)[0])
                   else Failure(MissingCloseParen(old(tokens)[0]))
      ensures r.Success? ==> Valid()
    {
      var prev := Shift();
      if prev.kind != CloseParen {
        return Failure(MissingCloseParen(prev));
      }
      return Success(prev);
    }

    /** produceAST: tokenizes the source, then parses one comparison expression from it. */
    method ProduceAST(sourceCode: string) returns (r: Result<Node, ParseError>, diagnostics: seq<Diagnostic>)
      modifies this
      ensures r == ParseSource(sourceCode)
      ensures diagnostics == Tokenized(sourceCode).diagnostics
      ensures r.Success? ==>
                WellTerminated(Tokenized(sourceCode).tokens)
                && tokens == ParseComparison(Tokenized(sourceCode).tokens).value.rest
    {
      var ts;
      ts, diagnostics := Tokenize(sourceCode);
      tokens := ts;
      r := ParseStatement();
    }

    method ParseStatement() returns (r: Result<Node, ParseError>)
      requires Valid()
      modifies this
      ensures r == NodeOf(ParseComparison(old(tokens)))
      ensures r.Success? ==> tokens == ParseComparison(old(tokens)).value.rest
      decreases |tokens|, 7
    {
      var left :- ParseAdditiveExpression();
      ghost var whole := ComparisonTail(left, tokens);
      while IsComparisonOp(First().value)
        invariant Valid() && |tokens| < |old(tokens)|
        invariant AllOps(left, IsParserOp)
        invariant ComparisonTail(left, tokens) == whole
        decreases |tokens|
      {
        ShiftOperator(tokens);
        var op := Shift();
        var right :- ParseAdditiveExpression();
        left := BinaryExpr(op.value, left, right);
      }
      return Success(left);
    }

    method ParseAdditiveExpression() returns (r: Result<Node, ParseError>)
      requires Valid()
      modifies this
      ensures r == NodeOf(ParseAdditive(old(tokens)))
      ensures r.Success? ==> tokens == ParseAdditive(old(tokens)).value.rest
      decreases |tokens|, 5
    {
      var left :- ParseMultiplicativeExpression();
      ghost var whole := AdditiveTail(left, tokens);
      while IsAdditiveOp(First().value)
        invariant Valid() && |tokens| < |old(tokens)|
        invariant AllOps(left, IsParserOp)
        invariant AdditiveTail(left, tokens) == whole
        decreases |tokens|
      {
        ShiftOperator(tokens);
        var op := Shift();
        var right :- ParseMultiplicativeExpression();
        left := BinaryExpr(op.value, left, right);
      }
      return Success(left);
    }

    method ParseMultiplicativeExpression() returns (r: Result<Node, ParseError>)
      requires Valid()
      modifies this
      ensures r == NodeOf(ParseMultiplicative(old(tokens)))
      ensures r.Success? ==> tokens == ParseMultiplicative(old(tokens)).value.rest
      decreases |tokens|, 3
    {
      var left :- ParsePrimaryExpression();
      ghost var whole := MultiplicativeTail(left, tokens);
      while IsMultiplicativeOp(First().value)
        invariant Valid() && |tokens| < |old(tokens)|
        invariant AllOps(left, IsParserOp)
        invariant MultiplicativeTail(left, tokens) == whole
        decreases |tokens|
      {
        ShiftOperator(tokens);
        var op := Shift();
        var right :- ParsePrimaryExpression();
        left := BinaryExpr(op.value, left, right);
      }
      return Success(left);
    }

    method ParsePrimaryExpression() returns (r: Result<Node, ParseError>)
      requires Valid()
      modifies this
      ensures r == NodeOf(ParsePrimary(old(tokens)))
      ensures r.Success? ==> tokens == ParsePrimary(old(tokens)).value.rest
      decreases |tokens|, 1
    {
      ghost var before := tokens;
      var tokenType := First().kind;
      match tokenType {
        case Identifier =>
          var t := Shift();
          return Success(Node.Identifier(t.value));
        case Null =>
          var _ := Shift();
          return Success(NullLiteral);
        case Number =>
          var t := Shift();
          return Success(NumericLiteral(ParseFloat(t.value)));
        case OpenParen =>
          var _ := Shift();
          var value :- ParseStatement();
          var _ :- HasCloseParenthesis();
          return Success(value);
        case _ =>
          return Failure(UnexpectedToken(First()));
      }
    }
  }
}
