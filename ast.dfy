/**
 * The syntax tree the parser builds. A binary node holds its operator as
 * the token text it was made from, and its children are arbitrary nodes
 * (the source's interface types them as numeric literals, but the parser
 * puts any node there).
 */
module Ast {
  import opened JsNumbers

  datatype Node =
    | NumericLiteral(value: JsNumber)
    | NullLiteral
    | Identifier(symbol: string)
    | BinaryExpr(op: string, left: Node, right: Node)

  /** Every operator in the tree satisfies `ok`. */
  predicate AllOps(e: Node, ok: string -> bool) {
    match e
    case BinaryExpr(op, l, r) => ok(op) && AllOps(l, ok) && AllOps(r, ok)
    case _ => true
  }

  /** Some node of the tree is an identifier. */
  predicate HasIdentifier(e: Node) {
    match e
    case Identifier(_) => true
    case BinaryExpr(_, l, r) => HasIdentifier(l) || HasIdentifier(r)
    case _ => false
  }

  /** Some binary node of the tree has operator `op`. */
  predicate HasOp(e: Node, op: string) {
    match e
    case BinaryExpr(o, l, r) => o == op || HasOp(l, op) || HasOp(r, op)
    case _ => false
  }

  /** `s` is a subtree of `e` (or `e` itself). */
  predicate Subtree(s: Node, e: Node) {
    s == e || (e.BinaryExpr? && (Subtree(s, e.left) || Subtree(s, e.right)))
  }
}
