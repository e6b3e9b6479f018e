/**
 * The syntax trees the interpreter consumes, built by the parser (which is
 * not part of this model). The operator sets are closed, so the evaluator's
 * dispatch on them is exhaustive.
 */
module Ast {
  import opened LoxValues

  datatype UnaryOp = Negate | Not

  datatype BinaryOp =
    | BangEqual | EqualEqual
    | Greater | GreaterEqual | Less | LessEqual
    | Minus | Plus | Slash | Star

  /** Each operator node keeps the operator's token, which a runtime error reports. */
  datatype Expr =
    | Literal(value: Value)
    | Grouping(expression: Expr)
    | Unary(unaryOp: UnaryOp, operator: Token, right: Expr)
    | Binary(left: Expr, binaryOp: BinaryOp, operator: Token, right: Expr)
    | Variable(name: Token)
    | Assign(name: Token, rhs: Expr)

  datatype Stmt =
    | Expression(expression: Expr)
    | Print(expression: Expr)
    | Var(name: Token, initializer: Option<Expr>)
    | Block(statements: seq<Stmt>)
    | If(condition: Expr, thenBranch: Stmt, elseBranch: Option<Stmt>)
}
