/**
 * The abstract syntax tree the compiler consumes (Ast.cs), with the operator
 * tokens it can carry.  Surface syntax and source positions are not part of
 * it.
 */
module Syntax {
  import opened Values

  /** The operator and assignment tokens that can reach the compiler. */
  datatype TokenType =
    | Assign | AssignPlus | AssignMinus | AssignMul | AssignDiv
    | Band | Bor | Gt | Lt | Gte | Lte | Eq | Neq | Plus | Minus | Div | Mul
    | Not | Is

  /** A dotted name `a.b.c`: a head segment and an optional rest. */
  datatype Identifier = Identifier(Name: string, SubField: Option<Identifier>)

  /** One link of an `if` / `else if` / `else` chain; a missing `Expr` is a plain `else`. */
  datatype IfBranch = IfBranch(Expr: Option<Ast>, Block: seq<Ast>)

  /**
   * The node kinds.  `AstBlock` stands for the children of a block node;
   * `AstIf` holds the chain that the source links through `NextIf`;
   * `AstObject` keeps its fields in order, with the annotations written in
   * front of the literal (annotations on other nodes are never compiled and
   * are left out).
   */
  datatype Ast =
    | AstBlock(Children: seq<Ast>)
    | AstString(Str: string)
    | AstNumber(Number: int)
    | AstIdentifier(Ident: Identifier)
    | AstAssign(Target: Identifier, Expr: Ast, Op: TokenType)
    | AstOn(Handle: Identifier, Run: Ast)
    | AstCall(Name: Identifier, Args: seq<Ast>)
    | AstExpr(Lhs: Ast, Rhs: Ast, Op: TokenType)
    | AstGlobal(Identifiers: seq<Identifier>)
    | AstRun(Body: Ast)
    | AstIf(Branches: seq<IfBranch>)
    | AstBool(BoolVal: bool)
    | AstNull
    | AstObject(Fields: seq<(string, Ast)>, Annotations: seq<string>)
}
