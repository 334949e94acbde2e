/**
 * The tree-walking evaluator (src/runtime/interpreter.ts). A node
 * evaluates to a runtime value or to one of the two errors the evaluator
 * throws: a division whose divisor is exactly zero, and a node kind it
 * has no case for.
 */
module Interpreter {
  import opened Wrappers
  import opened JsNumbers
  import opened Ast
  import opened Values

  /** What the evaluator throws. */
  datatype EvalError =
    | DivisionByZero        // "Division by zero is not allowed."
    | NotSetUp(node: Node)  // "This AST Node has not yet been setup for interpretation"

  /** The operators handed to the arithmetic helper; every other one is compared. */
  predicate IsNumericOp(op: string) {
    op == "+" || op == "-" || op == "*" || op == "/" || op == "%"
  }

  /**
   * `eval_numeric_binary_expr`: the arithmetic of one operator, where any
   * operator other than `+ - * /` is taken as `%`. Only `/` checks its
   * divisor, and only for being exactly zero.
   */
  function EvalNumeric(lhs: JsNumber, rhs: JsNumber, op: string): (r: Result<JsNumber, EvalError>)
    ensures r.Failure? <==> op == "/" && rhs == Zero
    ensures r.Failure? ==> r.error == DivisionByZero
    ensures r.Success? && lhs.Finite? && rhs.Finite? && op != "%" && IsNumericOp(op) ==> r.value.Finite?
    ensures r.Success? && (lhs.NaN? || rhs.NaN?) ==> r.value.NaN?
  {
    if op == "+" then Success(Add(lhs, rhs))
    else if op == "-" then Success(Sub(lhs, rhs))
    else if op == "*" then Success(Mul(lhs, rhs))
    else if op == "/" then
      if rhs == Zero then Failure(DivisionByZero) else Success(Div(lhs, rhs))
    else Success(Rem(lhs, rhs))
  }

  /**
   * `eval_comparison_expr`: the relational operators by name, and every
   * other operator as `!=`. With NaN on either side only `!=` (and every
   * unnamed operator) holds; on two finite numbers the comparisons are
   * those of the reals.
   */
  function EvalComparison(lhs: JsNumber, rhs: JsNumber, op: string): (b: bool)
    ensures lhs.NaN? || rhs.NaN? ==> (b <==> op !in {"<", ">", "<=", ">=", "=="})
    ensures lhs.Finite? && rhs.Finite? ==>
      && (op == "<" ==> (b <==> lhs.r < rhs.r))
      && (op == ">" ==> (b <==> lhs.r > rhs.r))
      && (op == "<=" ==> (b <==> lhs.r <= rhs.r))
      && (op == ">=" ==> (b <==> lhs.r >= rhs.r))
      && (op == "==" ==> (b <==> lhs.r == rhs.r))
      && (op !in {"<", ">", "<=", ">=", "=="} ==> (b <==> lhs.r != rhs.r))
  {
    if op == "<" then Less(lhs, rhs)
    else if op == ">" then Less(rhs, lhs)
    else if op == "<=" then LessEq(lhs, rhs)
    else if op == ">=" then LessEq(rhs, lhs)
    else if op == "==" then LooseEq(lhs, rhs)
    else !LooseEq(lhs, rhs)
  }

  /** The identifier met first, left to right, if any. */
  function LeftmostIdentifier(e: Node): (r: Option<Node>)
    ensures r.Some? <==> HasIdentifier(e)
    ensures r.Some? ==> r.value.Identifier? && Subtree(r.value, e)
  {
    match e
    case Identifier(_) => Some(e)
    case BinaryExpr(_, l, r) =>
      if HasIdentifier(l) then LeftmostIdentifier(l) else LeftmostIdentifier(r)
    case _ => None
  }

  /**
   * `evaluateASTNode`. It fails exactly when the tree names a variable or
   * a division meets a zero divisor; a variable error names the first
   * variable from the left, which is the first one evaluation reaches.
   */
  function Evaluate(e: Node): (r: Result<RuntimeVal, EvalError>)
    ensures HasIdentifier(e) ==> r.Failure?
    ensures r.Failure? && r.error.NotSetUp? ==> LeftmostIdentifier(e) == Some(r.error.node)
    ensures r.Failure? && r.error.DivisionByZero? ==> HasOp(e, "/")
    decreases e, 1
  {
    match e
    case NumericLiteral(v) => Success(NumberVal(v))
    case NullLiteral => Success(NullVal)
    case BinaryExpr(_, _, _) => EvaluateBinary(e)
    case Identifier(_) => Failure(NotSetUp(e))
  }

  /**
   * `evaluateBinaryExpression`: both operands, left then right, and only
   * then the operator; anything but two numbers gives null.
   */
  function EvaluateBinary(e: Node): (r: Result<RuntimeVal, EvalError>)
    requires e.BinaryExpr?
    ensures HasIdentifier(e) ==> r.Failure?
    ensures r.Failure? && r.error.NotSetUp? ==> LeftmostIdentifier(e) == Some(r.error.node)
    ensures r.Failure? && r.error.DivisionByZero? ==> HasOp(e, "/")
    decreases e, 0
  {
    var lhs :- Evaluate(e.left);
    var rhs :- Evaluate(e.right);
    if lhs.NumberVal? && rhs.NumberVal? then
      if IsNumericOp(e.op) then
        var n :- EvalNumeric(lhs.n, rhs.n, e.op);
        Success(NumberVal(n))
      else Success(BoolVal(EvalComparison(lhs.n, rhs.n, e.op)))
    else Success(NullVal)
  }

  // ---------------------------------------------------------------------
  // Types, decided before evaluation
  // ---------------------------------------------------------------------

  /**
   * The type of a tree's value, read off the tree alone: literals have
   * their own type, arithmetic on two numbers is a number, a comparison of
   * two numbers a boolean, and anything else null.
   */
  function StaticType(e: Node): ValueType {
    match e
    case NumericLiteral(_) => NumberType
    case NullLiteral => NullType
    case Identifier(_) => NullType
    case BinaryExpr(op, l, r) =>
      if StaticType(l) == NumberType && StaticType(r) == NumberType then
        if IsNumericOp(op) then NumberType else BooleanType
      else NullType
  }

  /** Whenever evaluation succeeds, its value has the type read off the tree. */
  lemma {:induction false} TypeSound(e: Node)
    ensures Evaluate(e).Success? ==> TypeOf(Evaluate(e).value) == StaticType(e)
  {
    if e.BinaryExpr? {
      TypeSound(e.left);
      TypeSound(e.right);
    }
  }

  /** A tree without variables and without `/` always evaluates. */
  lemma {:induction false} Total(e: Node)
    requires !HasIdentifier(e) && !HasOp(e, "/")
    ensures Evaluate(e).Success?
  {
    if e.BinaryExpr? {
      Total(e.left);
      Total(e.right);
    }
  }

  /**
   * Some `/` node of the tree has two number operands and a divisor that
   * evaluates to exactly zero.
   */
  ghost predicate HasZeroDivision(e: Node)
    decreases e
  {
    match e
    case BinaryExpr(op, l, r) =>
      || HasZeroDivision(l) || HasZeroDivision(r)
      || (op == "/" && Evaluate(l).Success? && Evaluate(l).value.NumberVal?
          && Evaluate(r) == Success(NumberVal(Zero)))
    case _ => false
  }

  /**
   * The division error is raised only by a `/` whose number divisor is
   * zero; conversely, such a division makes the whole evaluation fail
   * (with the division error, or with an error met before it).
   */
  lemma {:induction false} DivisionErrorCause(e: Node)
    ensures Evaluate(e) == Failure(DivisionByZero) ==> HasZeroDivision(e)
    ensures HasZeroDivision(e) ==> Evaluate(e).Failure?
  {
    if e.BinaryExpr? {
      DivisionErrorCause(e.left);
      DivisionErrorCause(e.right);
      var lv, rv := Evaluate(e.left), Evaluate(e.right);
      assert Evaluate(e) == EvaluateBinary(e);
      if HasZeroDivision(e) && lv.Success? && rv.Success? {
        assert e.op == "/" && lv.value.NumberVal? && rv == Success(NumberVal(Zero));
        assert EvalNumeric(lv.value.n, rv.value.n, e.op).Failure?;
      }
      if Evaluate(e) == Failure(DivisionByZero) {
        if lv.Failure? {
          assert lv == Failure(DivisionByZero);
        } else if rv.Failure? {
          assert rv == Failure(DivisionByZero);
        } else {
          assert lv.value.NumberVal? && rv.value.NumberVal? && IsNumericOp(e.op);
          assert EvalNumeric(lv.value.n, rv.value.n, e.op).Failure?;
          assert e.op == "/" && rv == Success(NumberVal(Zero));
        }
      }
    }
  }

  // ---------------------------------------------------------------------
  // One binary node
  // ---------------------------------------------------------------------

  /** Two numbers and an arithmetic operator: the arithmetic, or the division error. */
  lemma NumericNode(op: string, l: Node, r: Node, x: JsNumber, y: JsNumber)
    requires Evaluate(l) == Success(NumberVal(x)) && Evaluate(r) == Success(NumberVal(y))
    requires IsNumericOp(op)
    ensures op == "/" && y == Zero ==>
      Evaluate(BinaryExpr(op, l, r)) == Failure(DivisionByZero)
    ensures !(op == "/" && y == Zero) ==>
      Evaluate(BinaryExpr(op, l, r)) == Success(NumberVal(EvalNumeric(x, y, op).value))
  {
  }

  /** Two numbers and any other operator: a boolean. */
  lemma ComparisonNode(op: string, l: Node, r: Node, x: JsNumber, y: JsNumber)
    requires Evaluate(l) == Success(NumberVal(x)) && Evaluate(r) == Success(NumberVal(y))
    requires !IsNumericOp(op)
    ensures Evaluate(BinaryExpr(op, l, r)) == Success(BoolVal(EvalComparison(x, y, op)))
  {
  }

  /**
   * An operand that is not a number makes the node null, whatever the
   * operator: even `/` does not look at its divisor then.
   */
  lemma NullAbsorbs(op: string, l: Node, r: Node)
    requires Evaluate(l).Success? && Evaluate(r).Success?
    requires !Evaluate(l).value.NumberVal? || !Evaluate(r).value.NumberVal?
    ensures Evaluate(BinaryExpr(op, l, r)) == Success(NullVal)
  {
  }

  /** The left operand's error wins over anything on the right. */
  lemma LeftFirst(op: string, l: Node, r: Node)
    requires Evaluate(l).Failure?
    ensures Evaluate(BinaryExpr(op, l, r)) == Failure(Evaluate(l).error)
  {
  }

  /** The right operand's error propagates even when the left one is null. */
  lemma RightNext(op: string, l: Node, r: Node)
    requires Evaluate(l).Success? && Evaluate(r).Failure?
    ensures Evaluate(BinaryExpr(op, l, r)) == Failure(Evaluate(r).error)
  {
  }

  // ---------------------------------------------------------------------
  // The comparisons
  // ---------------------------------------------------------------------

  /** On finite numbers exactly one of `<`, `==` and `>` holds, and `<=`, `>=` are their unions. */
  lemma ComparisonTrichotomy(x: JsNumber, y: JsNumber)
    requires x.Finite? && y.Finite?
    ensures EvalComparison(x, y, "<") || EvalComparison(x, y, "==") || EvalComparison(x, y, ">")
    ensures !(EvalComparison(x, y, "<") && EvalComparison(x, y, "=="))
    ensures !(EvalComparison(x, y, "<") && EvalComparison(x, y, ">"))
    ensures !(EvalComparison(x, y, "==") && EvalComparison(x, y, ">"))
    ensures EvalComparison(x, y, "<=") <==> EvalComparison(x, y, "<") || EvalComparison(x, y, "==")
    ensures EvalComparison(x, y, ">=") <==> EvalComparison(x, y, ">") || EvalComparison(x, y, "==")
  {
  }

  /** `!=` is the negation of `==`, NaN included. */
  lemma NotEqualNegates(x: JsNumber, y: JsNumber)
    ensures EvalComparison(x, y, "!=") == !EvalComparison(x, y, "==")
  {
  }

  // ---------------------------------------------------------------------
  // The arithmetic
  // ---------------------------------------------------------------------

  /** `-` undoes `+`, and `/` undoes `*`, on finite numbers. */
  lemma ArithmeticInverses(x: JsNumber, y: JsNumber)
    requires x.Finite? && y.Finite?
    ensures EvalNumeric(EvalNumeric(x, y, "+").value, y, "-") == Success(x)
    ensures y != Zero ==> EvalNumeric(EvalNumeric(x, y, "*").value, y, "/") == Success(x)
  {
    if y != Zero {
      MulDivCancel(x.r, y.r);
      assert EvalNumeric(x, y, "*").value == Finite(x.r * y.r);
      assert EvalNumeric(Finite(x.r * y.r), y, "/") == Success(Finite((x.r * y.r) / y.r));
      assert Finite((x.r * y.r) / y.r) == x;
    }
  }

  lemma MulDivCancel(a: real, b: real)
    requires b != 0.0
    ensures (a * b) / b == a
  {
    var q := (a * b) / b;
    assert q * b == a * b;
    assert (q - a) * b == 0.0;
  }
  /** The magnitude of a real. */
  function Abs(a: real): real {
    if a >= 0.0 then a else -a
  }
  lemma AbsMul(a: real, b: real)
    ensures Abs(a * b) == Abs(a) * Abs(b)
  {
    if a >= 0.0 && b < 0.0 {
      assert a * b == -(a * -b);
    } else if a < 0.0 && b >= 0.0 {
      assert a * b == -(-a * b);
    } else if a < 0.0 && b < 0.0 {
      assert a * b == -a * -b;
    }
  }
  lemma ScaleBelow(a: real, b: real)
    requires a > 0.0 && 0.0 <= b < 1.0
    ensures 0.0 <= a * b < a
  {
    assert a * b < a * 1.0;
  }
  /** A fraction of the divisor is smaller than the divisor. */
  lemma FractionBound(y: real, f: real)
    requires y != 0.0 && Abs(f) < 1.0
    ensures Abs(y * f) < Abs(y)
  {
    var ay, af := Abs(y), Abs(f);
    assert ay > 0.0 && 0.0 <= af < 1.0;
    ScaleBelow(ay, af);
    AbsMul(y, f);
    calc {
      Abs(y * f);
      ay * af;
    <
      ay;
    }
  }

  /** The truncated fraction has the quotient's sign, so the remainder has the dividend's. */
  lemma FractionSign(x: real, y: real, q: real, f: real)
    requires y != 0.0 && x == y * q
    requires q >= 0.0 ==> 0.0 <= f <= q
    requires q < 0.0 ==> q <= f <= 0.0
    ensures y * f == 0.0 || (y * f > 0.0 <==> x > 0.0)
  {
    if f == 0.0 {
      assert y * f == 0.0;
    } else if y > 0.0 {
      if q > 0.0 { assert x > 0.0 && y * f > 0.0; } else { assert x < 0.0 && y * f < 0.0; }
    } else {
      if q > 0.0 { assert x < 0.0 && y * f < 0.0; } else { assert x > 0.0 && y * f > 0.0; }
    }
  }

  /**
   * `%` on finite numbers and a non-zero divisor: the dividend is a whole
   * multiple of the divisor plus the remainder, the remainder is smaller
   * than the divisor in size, and it is zero or has the dividend's sign.
   * A zero divisor gives NaN and no error.
   */
  lemma RemainderLaw(x: real, y: real)
    ensures y == 0.0 ==> EvalNumeric(Finite(x), Finite(y), "%") == Success(NaN)
    ensures y != 0.0 ==>
      var m := EvalNumeric(Finite(x), Finite(y), "%").value;
      && m.Finite?
      && x == y * Trunc(x / y) as real + m.r
      && Abs(m.r) < Abs(y)
      && (m.r == 0.0 || (m.r > 0.0 <==> x > 0.0))
  {
    if y != 0.0 {
      var q := x / y;
      var t := Trunc(q) as real;
      var f := q - t;
      assert EvalNumeric(Finite(x), Finite(y), "%").value == Finite(x - y * t);
      assert x == y * q;
      assert x - y * t == y * f;
      assert q >= 0.0 ==> 0.0 <= f <= q;
      assert q < 0.0 ==> q <= f <= 0.0;
      FractionBound(y, f);
      FractionSign(x, y, q, f);
    }
  }
}
