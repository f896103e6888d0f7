/** The parsed nodes the renderer consumes. Their classes live in the
    parser, which is not part of this model; only what the renderer reads
    of them is kept. */
module Parsing {
  import opened Consts

  /** Type: wraps a C type name. */
  datatype Type = Type(value: CType)

  /** Arg: the pair [identifier, type] of one formal parameter. */
  datatype Arg = Arg(id: string, ty: Type)

  /** Value, told apart by its valueType tag. OtherValue stands for a value
      whose tag is none of the three the renderer handles. */
  datatype Value =
    | IntLit(n: int)
    | StringLit(s: string)
    | ExprValue(e: Expr)
    | OtherValue(valueType: nat)

  /** Expr, told apart by its exprType tag: a variable reference, or a
      function call, which the renderer does not support. */
  datatype Expr =
    | VariableRef(id: string)
    | FnCallExpr(callee: string, args: seq<Value>)

  /** The values the renderer can turn into text. */
  predicate Supported(v: Value)
  {
    v.IntLit? || v.StringLit? || (v.ExprValue? && v.e.VariableRef?)
  }
}
