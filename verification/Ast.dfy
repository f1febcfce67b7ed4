/** The part of the abstract syntax tree (src/frontend/ast/tree.h) that statement lowering walks. */
module Ast {
  import opened Wrappers

  datatype BinOp = Add | Sub | Mul | Div | Mod | Eq | Ne | Lt | Gt | Le | Ge | Pow | Or | And

  datatype Expr =
    | Const(n: int)                                   // number and boolean literals
    | Var(name: string)
    | Binary(op: BinOp, left: Expr, right: Expr)
    | Call(callee: string, args: seq<Expr>)

  /** `else if` is an else branch holding one If: both forms lower to the same instructions.
      A For carries what the parser builds: one declaration, a condition, one assignment, a block. */
  datatype Stmt =
    | ExprStmt(e: Expr)
    | Return(result: Option<Expr>)
    | Block(body: seq<Stmt>)
    | If(cond: Expr, thn: seq<Stmt>, els: Else)
    | While(cond: Expr, body: seq<Stmt>)
    | For(name: string, init: Option<Expr>, cond: Expr, step: Increment, body: seq<Stmt>)
    | Break
    | Continue
    | VarDecl(name: string, init: Option<Expr>)
    | Assign(target: string, value: Expr)

  datatype Else = NoElse | Else(body: seq<Stmt>)

  datatype Increment = Increment(target: string, value: Expr)

  datatype Function = Function(name: string, params: seq<string>, body: seq<Stmt>)

  const MEMBER_PREFIX := "__member_"

  /** The function a call really goes to: `__member_f` is a call of `f` (src/backend/lower.c:533-537). */
  function Resolve(callee: string): string {
    if MEMBER_PREFIX <= callee then callee[|MEMBER_PREFIX|..] else callee
  }
}
