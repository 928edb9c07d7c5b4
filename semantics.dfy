/** A reference meaning for the source language, independent of the generator: the value
    of an expression in an environment of variable values, and the outcome of running a
    statement list. Operators mean what the C operators mean on integers (`/` truncates
    toward zero); comparisons and `&&`/`||` give 0 or 1, and `&&`/`||` evaluate their
    right operand only when the left one does not decide the result. */
module Semantics {
  import opened Wrappers
  import Tokens
  import opened Ast
  import opened Machine

  type Env = map<string, int>

  /** The text a token carries (its value), or "" for a token with no value. The C code
      would use a NULL value there; only token lists not made by the scanner have one. */
  function TokenText(t: Tokens.Token): string {
    t.value.GetOr("")
  }

  predicate IsArith(k: BinExprKind) {
    k == Add || k == Minus || k == Multi || k == Divide
  }

  predicate IsCompare(k: BinExprKind) {
    k == Eq || k == Neq || k == Lt || k == Lte || k == Mr || k == Mre
  }

  function Truth(b: bool): int {
    if b then 1 else 0
  }

  /** The value of an expression; `None` for an undefined variable, a division by zero, a
      missing child, or a kind that has no integer meaning (character and empty). */
  function EvalExpr(env: Env, e: Expr): Option<int>
    decreases e, 1
  {
    match e
    case IntLitExpr(t) =>
      (match DecimalValue(TokenText(t))
       case Some(v) => Some(v as int)
       case None => None)
    case IdentExpr(t) => if TokenText(t) in env then Some(env[TokenText(t)]) else None
    case BinNode(b) => EvalBin(env, b)
    case CharExpr(_) => None
    case EmptyExpr => None
  }

  function EvalRec(env: Env, r: Rec): Option<int>
    decreases r, 0
  {
    match r
    case BinRec(b) => EvalBin(env, b)
    case NodeRec(e) => EvalExpr(env, e)
    case NullRec => None
  }

  function EvalBin(env: Env, b: BinExpr): Option<int>
    decreases b, 2
  {
    if b.kind == And then
      var l :- EvalRec(env, b.lhs);
      if l == 0 then Some(0)
      else
        var r :- EvalRec(env, b.rhs);
        Some(Truth(r != 0))
    else if b.kind == Or then
      var l :- EvalRec(env, b.lhs);
      if l != 0 then Some(1)
      else
        var r :- EvalRec(env, b.rhs);
        Some(Truth(r != 0))
    else
      var l :- EvalRec(env, b.lhs);
      var r :- EvalRec(env, b.rhs);
      Apply(b.kind, l, r)
  }

  /** An arithmetic or comparison operator applied to the values of its operands. */
  function Apply(k: BinExprKind, l: int, r: int): Option<int>
    requires IsArith(k) || IsCompare(k)
  {
    match k
    case Add => Some(l + r)
    case Minus => Some(l - r)
    case Multi => Some(l * r)
    case Divide => if r == 0 then None else Some(TruncDiv(l, r))
    case Eq => Some(Truth(l == r))
    case Neq => Some(Truth(l != r))
    case Lt => Some(Truth(l < r))
    case Lte => Some(Truth(l <= r))
    case Mr => Some(Truth(l > r))
    case Mre => Some(Truth(l >= r))
  }

  /** How running statements ends: normally with new variable values, by `exit(code)`,
      or stuck on something with no meaning (an undefined value, an unsupported kind). */
  datatype Outcome = Normal(env: Env) | Halt(code: int) | Stuck

  /** A `let` binds its name; `exit` stops with its value; an `if` runs its body when its
      condition is nonzero. A stand-alone `else` runs its body: nothing in the program
      pairs it with a preceding `if`. Other statement kinds have no meaning yet. */
  function ExecStmt(env: Env, s: Stmt): Outcome
    decreases s, 1
  {
    match s
    case Let(t, e) =>
      (match EvalExpr(env, e)
       case Some(v) => Normal(env[TokenText(t) := v])
       case None => Stuck)
    case Exit(e) =>
      (match EvalExpr(env, e)
       case Some(v) => Halt(v)
       case None => Stuck)
    case If(c, body) =>
      (match EvalExpr(env, c)
       case Some(v) => if v != 0 then ExecStmts(env, body) else Normal(env)
       case None => Stuck)
    case Else(body) => ExecStmts(env, body)
    case _ => Stuck
  }

  /** Statements run in order; the first one that halts or is stuck ends the run. */
  function ExecStmts(env: Env, ss: seq<Stmt>): Outcome
    decreases ss, 0
  {
    if ss == [] then Normal(env)
    else match ExecStmts(env, ss[..|ss| - 1])
      case Normal(env') => ExecStmt(env', ss[|ss| - 1])
      case other => other
  }
}
