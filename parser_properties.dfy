/**
 * What the parser's tiers add up to: printing a tree with the fewest
 * parentheses its operator precedences need and parsing the tokens back
 * gives the same tree. Hence `*`, `/` and `%` bind tighter than `+` and
 * `-`, which bind tighter than the comparisons; every tier associates to
 * the left; parentheses group and leave no trace in the tree; and the
 * tokens after the expression are left alone.
 */
module ParserProperties {
  import opened Wrappers
  import opened JsNumbers
  import opened Lexer
  import opened Ast
  import opened Parsing

  // ---------------------------------------------------------------------
  // Number texts
  // ---------------------------------------------------------------------

  function DigitChar(d: nat): (c: char)
    requires d < 10
    ensures IsInteger(c) && DigitValue(c) == d
  {
    ('0' as int + d) as char
  }

  /** The decimal text of a natural number, without leading zeros. */
  function NatToDigits(n: nat): (s: string)
    ensures s != [] && forall k :: 0 <= k < |s| ==> IsInteger(s[k])
  {
    if n < 10 then [DigitChar(n)] else NatToDigits(n / 10) + [DigitChar(n % 10)]
  }

  lemma {:induction false} DecimalOfDigits(n: nat)
    ensures DecimalValue(NatToDigits(n)) == n
  {
    var s := NatToDigits(n);
    if n >= 10 {
      DecimalOfDigits(n / 10);
      assert s[..|s| - 1] == NatToDigits(n / 10);
    } else {
      assert s[..|s| - 1] == [];
    }
  }

  lemma {:induction false} DigitPrefixOfDigits(s: string)
    requires forall k :: 0 <= k < |s| ==> IsInteger(s[k])
    ensures DigitPrefix(s) == s
  {
    if s != [] {
      DigitPrefixOfDigits(s[1..]);
    }
  }

  /** parseFloat reads back the decimal text of every whole number. */
  lemma ParseFloatOfDigits(n: nat)
    ensures ParseFloat(NatToDigits(n)) == Finite(n as real)
  {
    DigitPrefixOfDigits(NatToDigits(n));
    DecimalOfDigits(n);
  }

  // ---------------------------------------------------------------------
  // Printing a tree as tokens
  // ---------------------------------------------------------------------

  /** The tier of an operator: 3 comparison, 2 additive, 1 multiplicative. */
  function Prec(op: string): int {
    if IsComparisonOp(op) then 3
    else if IsAdditiveOp(op) then 2
    else if IsMultiplicativeOp(op) then 1
    else 0
  }

  function NodePrec(e: Node): int {
    if e.BinaryExpr? then Prec(e.op) else 0
  }

  /** The trees tokens can denote: parser operators, and numbers that are whole and not negative. */
  predicate Printable(e: Node) {
    match e
    case NumericLiteral(v) => v.Finite? && 0.0 <= v.r && v.r.Floor as real == v.r
    case NullLiteral => true
    case Identifier(_) => true
    case BinaryExpr(op, l, r) => IsParserOp(op) && Printable(l) && Printable(r)
  }

  function LiteralText(v: JsNumber): string {
    if v.Finite? && 0.0 <= v.r then NatToDigits(v.r.Floor) else "0"
  }

  /**
   * The tokens of `e` where an expression of tier `t` is expected: a
   * binary node is bracketed only when its operator binds looser than
   * `t`; its left operand is printed at its own tier and its right operand
   * one tier tighter, as left association demands.
   */
  function ShowAt(e: Node, t: int): seq<Token> {
    match e
    case NumericLiteral(v) => [Token(LiteralText(v), Number)]
    case NullLiteral => [Token("null", Null)]
    case Identifier(s) => [Token(s, TokenType.Identifier)]
    case BinaryExpr(op, l, r) =>
      var p := Prec(op);
      var body := ShowAt(l, p) + [Token(op, BinaryOperator)] + ShowAt(r, p - 1);
      if p > t then [Token("(", OpenParen)] + body + [Token(")", CloseParen)] else body
  }

  /** The tokens of a whole expression. */
  function Show(e: Node): seq<Token> {
    ShowAt(e, 3)
  }

  lemma {:induction false} ShowHasNoEnd(e: Node, t: int)
    ensures forall k :: 0 <= k < |ShowAt(e, t)| ==> ShowAt(e, t)[k].kind != EOF
  {
    if e.BinaryExpr? {
      ShowHasNoEnd(e.left, Prec(e.op));
      ShowHasNoEnd(e.right, Prec(e.op) - 1);
    }
  }

  lemma ShowThenRest(e: Node, t: int, rest: seq<Token>)
    requires WellTerminated(rest)
    ensures WellTerminated(ShowAt(e, t) + rest)
  {
    ShowHasNoEnd(e, t);
  }

  lemma {:induction false} PrintableOps(e: Node)
    requires Printable(e)
    ensures AllOps(e, IsParserOp)
  {
    if e.BinaryExpr? {
      PrintableOps(e.left);
      PrintableOps(e.right);
    }
  }

  // ---------------------------------------------------------------------
  // The tiers, indexed
  // ---------------------------------------------------------------------

  /** Tier `t` of the parser: 0 primary, 1 multiplicative, 2 additive, 3 comparison. */
  function ParseTier(t: int, ts: seq<Token>): Result<Parsed, ParseError>
    requires 0 <= t <= 3 && WellTerminated(ts)
  {
    if t == 0 then ParsePrimary(ts)
    else if t == 1 then ParseMultiplicative(ts)
    else if t == 2 then ParseAdditive(ts)
    else ParseComparison(ts)
  }

  /** The operator loop of binary tier `t`. */
  function TailTier(t: int, left: Node, ts: seq<Token>): Result<Parsed, ParseError>
    requires 1 <= t <= 3 && WellTerminated(ts) && AllOps(left, IsParserOp)
  {
    if t == 1 then MultiplicativeTail(left, ts)
    else if t == 2 then AdditiveTail(left, ts)
    else ComparisonTail(left, ts)
  }

  /** `v` is an operator of tier `t` or tighter. */
  predicate OpWithin(v: string, t: int) {
    IsParserOp(v) && Prec(v) <= t
  }

  /** One binary tier: its first operand, then its loop. */
  lemma TierUnfold(t: int, ts: seq<Token>)
    requires 1 <= t <= 3 && WellTerminated(ts)
    ensures ParseTier(t - 1, ts).Success? ==>
      GoodParsed(ParseTier(t - 1, ts).value) &&
      ParseTier(t, ts) == TailTier(t, ParseTier(t - 1, ts).value.node, ParseTier(t - 1, ts).value.rest)
    ensures ParseTier(t - 1, ts).Failure? ==> ParseTier(t, ts) == Failure(ParseTier(t - 1, ts).error)
  {
  }

  predicate GoodParsed(p: Parsed) {
    AllOps(p.node, IsParserOp) && WellTerminated(p.rest)
  }

  /** A loop of tier `t` stops at once before a token that is not one of its operators. */
  lemma TailStops(t: int, left: Node, ts: seq<Token>)
    requires 1 <= t <= 3 && WellTerminated(ts) && AllOps(left, IsParserOp)
    requires !(IsParserOp(ts[0].value) && Prec(ts[0].value) == t)
    ensures TailTier(t, left, ts) == Success(Parsed(left, ts))
  {
  }

  /** A loop of tier `t` before one of its operators folds in one more operand of tier `t - 1`. */
  lemma TailStep(t: int, left: Node, ts: seq<Token>)
    requires 1 <= t <= 3 && WellTerminated(ts) && AllOps(left, IsParserOp)
    requires IsParserOp(ts[0].value) && Prec(ts[0].value) == t
    ensures |ts| > 1 && WellTerminated(ts[1..])
    ensures ParseTier(t - 1, ts[1..]).Success? ==>
      AllOps(ParseTier(t - 1, ts[1..]).value.node, IsParserOp) &&
      TailTier(t, left, ts) ==
        TailTier(t, BinaryExpr(ts[0].value, left, ParseTier(t - 1, ts[1..]).value.node),
                 ParseTier(t - 1, ts[1..]).value.rest)
  {
    ShiftOperator(ts);
  }

  // ---------------------------------------------------------------------
  // The round trip
  // ---------------------------------------------------------------------

  /** Orders the calls between Whole and Spine on one tree (see their bodies). */
  function Rank(t: int, e: Node, whole: bool): nat
    requires 0 <= t <= 3
  {
    var p := NodePrec(e);
    if t >= p then 2 * (t - p) + (if whole then 1 else 0)
    else 8 + 2 * t - (if whole then 0 else 1)
  }

  /** The token sequence after the left operand of a node printed at its own tier. */
  function AfterLeft(e: Node, rest: seq<Token>): seq<Token>
    requires e.BinaryExpr?
  {
    [Token(e.op, BinaryOperator)] + (ShowAt(e.right, Prec(e.op) - 1) + rest)
  }

  /**
   * Tier `t` parses exactly the printed tree, provided the next token
   * does not continue an expression of that tier.
   */
  lemma {:induction false} Whole(t: int, e: Node, rest: seq<Token>)
    requires 0 <= t <= 3 && Printable(e) && WellTerminated(rest)
    requires !OpWithin(rest[0].value, t)
    ensures WellTerminated(ShowAt(e, t) + rest)
    ensures ParseTier(t, ShowAt(e, t) + rest) == Success(Parsed(e, rest))
    decreases e, Rank(t, e, true)
  {
    if t == 0 {
      if e.BinaryExpr? {
        Whole(3, e, [Token(")", CloseParen)] + rest);
        WholeParen(e, rest);
      } else {
        PrimaryAtom(e, rest);
      }
    } else {
      Spine(t, e, rest);
      WholeOfSpine(t, e, rest);
    }
  }

  /**
   * Tier `t` over the printed tree ends in the loop of tier `t` with the
   * whole tree as its accumulated operand, provided the next token does
   * not continue an operand of the tighter tiers.
   */
  lemma {:induction false} Spine(t: int, e: Node, rest: seq<Token>)
    requires 1 <= t <= 3 && Printable(e) && WellTerminated(rest)
    requires !OpWithin(rest[0].value, t - 1)
    ensures WellTerminated(ShowAt(e, t) + rest)
    ensures AllOps(e, IsParserOp)
    ensures ParseTier(t, ShowAt(e, t) + rest) == TailTier(t, e, rest)
    decreases e, Rank(t, e, false)
  {
    if e.BinaryExpr? && Prec(e.op) == t {
      Whole(t - 1, e.right, rest);
      AfterLeftWellTerminated(e, rest);
      Spine(t, e.left, AfterLeft(e, rest));
      SpineOwnTier(t, e, rest);
    } else {
      Whole(t - 1, e, rest);
      SpineLower(t, e, rest);
    }
  }

  /** A literal or a name is one primary token. */
  lemma PrimaryAtom(e: Node, rest: seq<Token>)
    requires !e.BinaryExpr? && Printable(e) && WellTerminated(rest)
    ensures WellTerminated(ShowAt(e, 0) + rest)
    ensures ParseTier(0, ShowAt(e, 0) + rest) == Success(Parsed(e, rest))
  {
    var ts := ShowAt(e, 0) + rest;
    assert ts[1..] == rest;
    if e.NumericLiteral? {
      ParseFloatOfDigits(e.value.r.Floor);
    }
  }

  /** A bracketed comparison is a primary. */
  lemma PrimaryParen(ts: seq<Token>, e: Node, rest: seq<Token>)
    requires WellTerminated(ts) && ts[0].kind == OpenParen && |ts| > 1
    requires WellTerminated(ts[1..])
    requires ParseComparison(ts[1..]) == Success(Parsed(e, [Token(")", CloseParen)] + rest))
    ensures ParsePrimary(ts) == Success(Parsed(e, rest))
  {
    assert ParsePrimary(ts) == Closed(ParseComparison(ts[1..]));
    assert ([Token(")", CloseParen)] + rest)[1..] == rest;
  }

  /** How a bracketed tree is laid out. */
  lemma ShowParen(e: Node, rest: seq<Token>)
    requires e.BinaryExpr? && Printable(e)
    ensures |ShowAt(e, 0) + rest| > 1
    ensures (ShowAt(e, 0) + rest)[0] == Token("(", OpenParen)
    ensures (ShowAt(e, 0) + rest)[1..] == ShowAt(e, 3) + ([Token(")", CloseParen)] + rest)
  {
    var close := [Token(")", CloseParen)];
    assert ShowAt(e, 0) == [Token("(", OpenParen)] + ShowAt(e, 3) + close;
    assert ShowAt(e, 0) + rest == [Token("(", OpenParen)] + (ShowAt(e, 3) + (close + rest));
  }

  /** A bracketed tree at the primary tier: the comparison inside it, then the `)`. */
  lemma WholeParen(e: Node, rest: seq<Token>)
    requires e.BinaryExpr? && Printable(e) && WellTerminated(rest)
    requires WellTerminated(ShowAt(e, 3) + ([Token(")", CloseParen)] + rest))
    requires ParseTier(3, ShowAt(e, 3) + ([Token(")", CloseParen)] + rest))
      == Success(Parsed(e, [Token(")", CloseParen)] + rest))
    ensures WellTerminated(ShowAt(e, 0) + rest)
    ensures ParseTier(0, ShowAt(e, 0) + rest) == Success(Parsed(e, rest))
  {
    ShowThenRest(e, 0, rest);
    ShowParen(e, rest);
    PrimaryParen(ShowAt(e, 0) + rest, e, rest);
  }

  /** A binary tier whose loop meets no operator of its own stops with the tree. */
  lemma WholeOfSpine(t: int, e: Node, rest: seq<Token>)
    requires 1 <= t <= 3 && WellTerminated(rest) && AllOps(e, IsParserOp)
    requires !OpWithin(rest[0].value, t)
    requires WellTerminated(ShowAt(e, t) + rest)
    requires ParseTier(t, ShowAt(e, t) + rest) == TailTier(t, e, rest)
    ensures ParseTier(t, ShowAt(e, t) + rest) == Success(Parsed(e, rest))
  {
    TailStops(t, e, rest);
  }

  lemma AfterLeftWellTerminated(e: Node, rest: seq<Token>)
    requires e.BinaryExpr? && WellTerminated(rest)
    ensures WellTerminated(AfterLeft(e, rest))
    ensures AfterLeft(e, rest)[0] == Token(e.op, BinaryOperator)
    ensures AfterLeft(e, rest)[1..] == ShowAt(e.right, Prec(e.op) - 1) + rest
  {
    ShowThenRest(e.right, Prec(e.op) - 1, rest);
    var after := AfterLeft(e, rest);
    assert after[1..] == ShowAt(e.right, Prec(e.op) - 1) + rest;
  }

  /** How a node printed at its own tier is laid out. */
  lemma ShowOwnTier(t: int, e: Node, rest: seq<Token>)
    requires 1 <= t <= 3 && e.BinaryExpr? && Prec(e.op) == t
    ensures ShowAt(e, t) + rest == ShowAt(e.left, t) + AfterLeft(e, rest)
  {
    var left, op, right := ShowAt(e.left, t), [Token(e.op, BinaryOperator)], ShowAt(e.right, t - 1);
    assert ShowAt(e, t) == left + op + right;
    assert (left + op + right) + rest == left + (op + (right + rest));
  }

  /** A node of tier `t`: its left spine, its operator, then its right operand one tier tighter. */
  lemma SpineOwnTier(t: int, e: Node, rest: seq<Token>)
    requires 1 <= t <= 3 && e.BinaryExpr? && Prec(e.op) == t && Printable(e) && WellTerminated(rest)
    requires WellTerminated(ShowAt(e.right, t - 1) + rest)
    requires ParseTier(t - 1, ShowAt(e.right, t - 1) + rest) == Success(Parsed(e.right, rest))
    requires WellTerminated(AfterLeft(e, rest))
    requires AfterLeft(e, rest)[0] == Token(e.op, BinaryOperator)
    requires AfterLeft(e, rest)[1..] == ShowAt(e.right, t - 1) + rest
    requires WellTerminated(ShowAt(e.left, t) + AfterLeft(e, rest))
    requires AllOps(e.left, IsParserOp)
    requires ParseTier(t, ShowAt(e.left, t) + AfterLeft(e, rest)) == TailTier(t, e.left, AfterLeft(e, rest))
    ensures WellTerminated(ShowAt(e, t) + rest)
    ensures AllOps(e, IsParserOp)
    ensures ParseTier(t, ShowAt(e, t) + rest) == TailTier(t, e, rest)
  {
    PrintableOps(e);
    ShowOwnTier(t, e, rest);
    TailStep(t, e.left, AfterLeft(e, rest));
  }

  /** A tree that is not of tier `t` is the first operand of tier `t`'s loop. */
  lemma SpineLower(t: int, e: Node, rest: seq<Token>)
    requires 1 <= t <= 3 && Printable(e) && WellTerminated(rest)
    requires !(e.BinaryExpr? && Prec(e.op) == t)
    requires WellTerminated(ShowAt(e, t - 1) + rest)
    requires ParseTier(t - 1, ShowAt(e, t - 1) + rest) == Success(Parsed(e, rest))
    ensures WellTerminated(ShowAt(e, t) + rest)
    ensures AllOps(e, IsParserOp)
    ensures ParseTier(t, ShowAt(e, t) + rest) == TailTier(t, e, rest)
  {
    PrintableOps(e);
    assert ShowAt(e, t) == ShowAt(e, t - 1);
    TierUnfold(t, ShowAt(e, t) + rest);
  }

  /**
   * Printing any tree and parsing the tokens back gives the tree, and
   * leaves exactly the tokens after it, whenever the next of those is not
   * an operator.
   */
  lemma RoundTrip(e: Node, rest: seq<Token>)
    requires Printable(e) && WellTerminated(rest) && !IsParserOp(rest[0].value)
    ensures WellTerminated(Show(e) + rest)
    ensures ParseComparison(Show(e) + rest) == Success(Parsed(e, rest))
  {
    Whole(3, e, rest);
  }
}
