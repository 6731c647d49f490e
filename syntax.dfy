/**
 * A closed fragment of Python's `ast` module: the statements and expressions
 * the simplifier passes look at. A statement list is the `body` (or `orelse`)
 * of its parent node; the parent of a top-level statement is the module.
 */
module Syntax {
  import opened Results

  /** A literal: a string, an integer, or `...`. */
  datatype Constant = Str(s: string) | Int(n: int) | EllipsisLit

  datatype Expr =
    | Name(id: string)
    | Const(value: Constant)
    | Call(func: Expr, args: seq<Expr>)
    | Attribute(obj: Expr, attr: string)
    | Subscript(obj: Expr, slice: Expr)
    | BinOp(left: Expr, op: string, right: Expr)

  /**
   * `Assign` keeps its first target apart from the others because Python's
   * parser never builds an assignment without a target. `Compound` stands for
   * `if`, `for` and `while`: a header expression, a body and an `else` block.
   */
  datatype Stmt =
    | Assign(target: Expr, moreTargets: seq<Expr>, value: Expr)
    | Return(result: Option<Expr>)
    | ExprStmt(expr: Expr)
    | FunctionDef(name: string, params: seq<string>, body: seq<Stmt>)
    | ClassDef(name: string, body: seq<Stmt>)
    | Compound(head: Expr, body: seq<Stmt>, orelse: seq<Stmt>)
    | Pass

  /** `len(node.targets) == 1 and isinstance(node.targets[0], ast.Name)`. */
  predicate IsSingleNameAssign(s: Stmt) {
    s.Assign? && s.moreTargets == [] && s.target.Name?
  }

  /** An expression statement holding a constant: a docstring or a bare literal. */
  predicate IsConstantStmt(s: Stmt) {
    s.ExprStmt? && s.expr.Const?
  }

  /** The assignment `name = value`, as `ast.parse(f'{name} = ...')` builds it. */
  function AssignTo(name: string, value: Expr): (s: Stmt)
    ensures IsSingleNameAssign(s) && s.target.id == name && s.value == value
  {
    Assign(Name(name), [], value)
  }
}
