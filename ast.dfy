/**
 * The slice of the shading-language syntax tree that the code generator matches on.
 * Source positions (the `item`/`ident` wrappers of the front-end) are dropped; expression,
 * literal and operator forms the generator does not lower are each collapsed into one
 * catch-all variant.
 */
module Ast {

  /** Declared type of a parameter or local. */
  datatype TypeKind = F32 | Vec3

  /** An in- or out-parameter declaration. */
  datatype Param = Param(name: string, typeKind: TypeKind)

  datatype BinaryOperator = Add | Sub | Mul | Div

  /** Only `Sub` (negation) is lowered; every other unary operator is `OtherUnary`. */
  datatype UnaryOperator = Sub | OtherUnary

  /** Only decimal literals are lowered; the value is the literal's mathematical value. */
  datatype LiteralValue = DecimalLiteral(value: real) | OtherLiteral

  datatype Expr =
    | BinaryOp(bop: BinaryOperator, left: Expr, right: Expr)
    | UnaryOp(uop: UnaryOperator, operand: Expr)
    | FuncCall(callee: string, args: seq<Expr>)
    | Literal(lit: LiteralValue)
    | Symbol(name: string)
    | OtherExpr

  datatype Statement = Assignment(target: string, rhs: Expr) | Return(value: Expr)

  datatype Function = Function(name: string, statements: seq<Statement>)

  datatype Program = Program(inParameters: seq<Param>, outParameters: seq<Param>, functions: seq<Function>)

  /** No two parameters share a name (the front-end's duty; the allocator does not check it). */
  predicate DistinctParams(ps: seq<Param>) {
    forall i, j :: 0 <= i < j < |ps| ==> ps[i].name != ps[j].name
  }

  /** No two functions share a name. */
  predicate DistinctFunctions(fs: seq<Function>) {
    forall i, j :: 0 <= i < j < |fs| ==> fs[i].name != fs[j].name
  }

  function ParamNames(ps: seq<Param>): set<string> {
    set p | p in ps :: p.name
  }

  function FunctionNames(fs: seq<Function>): set<string> {
    set f | f in fs :: f.name
  }

  /** True when some statement of the list is a `Return`. */
  predicate ContainsReturn(stmts: seq<Statement>) {
    exists i :: 0 <= i < |stmts| && stmts[i].Return?
  }
}
