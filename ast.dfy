/** The syntax tree built by the parser and consumed by the code generator.

    The C tree links nodes by pointers; here each node owns its children as values.
    A expression child (`BindExprRec`) is either a binary node, an expression node, or a
    NULL pointer, kept as `NullRec` because the tree builder can leave a child unset. */
module Ast {
  import opened Tokens

  datatype BinExprKind =
    | Add | Multi | Minus | Divide
    | Eq | Neq | Lt | Lte | Mr | Mre
    | And | Or

  /** A binary node: its operator and its two children. */
  datatype BinExpr = BinExpr(kind: BinExprKind, lhs: Rec, rhs: Rec)

  /** A child of a binary node. */
  datatype Rec =
    | BinRec(bin: BinExpr)
    | NodeRec(node: Expr)
    | NullRec

  /** An expression node. */
  datatype Expr =
    | IntLitExpr(intLit: Token)
    | IdentExpr(ident: Token)
    | BinNode(bin: BinExpr)
    | CharExpr(charLit: Token)
    | EmptyExpr

  /** The number of an expression kind in the C enumeration (used in diagnostics). */
  function ExprKindNumber(e: Expr): nat {
    match e
    case IntLitExpr(_) => 0
    case IdentExpr(_) => 1
    case BinNode(_) => 2
    case CharExpr(_) => 3
    case EmptyExpr => 4
  }

  /** A statement. `Let` is the binding form the parser and generator use although the
      statement-kind enumeration does not declare it yet. */
  datatype Stmt =
    | Exit(expr: Expr)
    | CharDecl(ident: Token, expr: Expr)
    | IntDecl(ident: Token, expr: Expr)
    | ShortDecl(ident: Token, expr: Expr)
    | LongDecl(ident: Token, expr: Expr)
    | Vchange(ident: Token, expr: Expr)
    | If(cond: Expr, body: seq<Stmt>)
    | Else(body: seq<Stmt>)
    | While(cond: Expr, body: seq<Stmt>)
    | For(init: Stmt, cond: Expr, step: Stmt, body: seq<Stmt>)
    | Let(ident: Token, expr: Expr)

  /** The number of a statement kind in the C enumeration (used in diagnostics);
      `Let`, which that enumeration does not list, is given the next number. */
  function StmtKindNumber(s: Stmt): nat {
    match s
    case Exit(_) => 0
    case CharDecl(_, _) => 1
    case IntDecl(_, _) => 2
    case ShortDecl(_, _) => 3
    case LongDecl(_, _) => 4
    case Vchange(_, _) => 5
    case If(_, _) => 6
    case Else(_) => 7
    case While(_, _) => 8
    case For(_, _, _, _) => 9
    case Let(_, _) => 10
  }

  /** A token the generator can use as a name or literal: it carries its text. */
  predicate TokenHasText(t: Token) {
    t.value.Some?
  }

  /** Every identifier and literal token in the tree carries its text; the generator
      dereferences those values without checking them. */
  predicate WellFormedExpr(e: Expr)
    decreases e, 1
  {
    match e
    case IntLitExpr(t) => TokenHasText(t)
    case IdentExpr(t) => TokenHasText(t)
    case BinNode(b) => WellFormedBin(b)
    case CharExpr(_) => true
    case EmptyExpr => true
  }

  predicate WellFormedBin(b: BinExpr)
    decreases b, 2
  {
    WellFormedRec(b.lhs) && WellFormedRec(b.rhs)
  }

  predicate WellFormedRec(r: Rec)
    decreases r, 0
  {
    match r
    case BinRec(b) => WellFormedBin(b)
    case NodeRec(n) => WellFormedExpr(n)
    case NullRec => true
  }

  predicate WellFormedStmt(s: Stmt)
    decreases s, 1
  {
    match s
    case Exit(e) => WellFormedExpr(e)
    case Let(t, e) => TokenHasText(t) && WellFormedExpr(e)
    case If(c, body) => WellFormedExpr(c) && WellFormedStmts(body)
    case Else(body) => WellFormedStmts(body)
    case For(init, c, step, body) => WellFormedStmt(init) && WellFormedStmts(body)
    case _ => true
  }

  predicate WellFormedStmts(ss: seq<Stmt>)
    decreases ss, 0
  {
    forall i :: 0 <= i < |ss| ==> WellFormedStmt(ss[i])
  }
}
