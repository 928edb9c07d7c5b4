/** The generated code does what the program means: run on the abstract machine, the
    code of an expression leaves the expression's value in rax, the code of a statement
    list keeps every variable's value in its frame cell, and the listing of a whole
    program exits with the status its first executed `exit` gives, or with 0 when it
    runs to its end. */
module Correctness {
  import opened Wrappers
  import Tokens
  import opened Ast
  import opened Asm
  import opened Machine
  import opened Semantics
  import opened Slots
  import opened Lowering

  /** Every variable with a value has a slot, and its frame cell holds that value. */
  predicate Agree(vars: VarTable, env: Env, mem: map<int, int>) {
    forall x :: x in env ==>
      x in vars && vars[x] >= 0 && SlotToOffset(vars[x]) in mem && mem[SlotToOffset(vars[x])] == env[x]
  }

  /** `after` is `before` with `v` in rax: still running, same stack, same frame. */
  predicate Computes(after: MState, before: MState, v: int) {
    after.status == Running && after.rax == v && after.stack == before.stack && after.mem == before.mem
  }

  // ---------------------------------------------------------------------------------
  // Pieces of code

  /** A label numbered below the range a piece of code consumed is not defined in it. */
  lemma LabelAbsent(c: Code, lo: int, l: Label)
    requires IdsWithin(Defs(c.instrs), lo, c.next) && l.id < lo
    ensures LabelDef(l) !in c.instrs
  {
    DefsMember(c.instrs, l);
  }

  lemma ArithSplit(a: seq<Instr>, b: seq<Instr>, tail: seq<Instr>, st: MState)
    requires Closed(a) && Closed(b)
    ensures Run(a + [PushRax] + b + [MovRbxRax, PopRax] + tail, st)
         == Run([MovRbxRax, PopRax] + tail, Run(b, Run([PushRax], Run(a, st))))
  {
    var p1 := a + [PushRax];
    var p2 := p1 + b;
    JumpFreeClosed([PushRax]);
    ClosedAppend(a, [PushRax]);
    ClosedAppend(p1, b);
    assert p2 + [MovRbxRax, PopRax] + tail == p2 + ([MovRbxRax, PopRax] + tail);
    RunAppend(p2, [MovRbxRax, PopRax] + tail, st);
    RunAppend(p1, b, st);
    RunAppend(a, [PushRax], st);
  }

  /** `mov rbx, rax ; pop rax`: the rhs goes to rbx, the saved lhs back to rax. */
  lemma RestoreRuns(tail: seq<Instr>, st: MState)
    requires st.status.Running? && st.stack != []
    ensures Run([MovRbxRax, PopRax] + tail, st)
         == Run(tail, st.(rbx := st.rax, rax := st.stack[|st.stack| - 1], stack := st.stack[..|st.stack| - 1]))
  {
    assert [MovRbxRax, PopRax] + tail == [MovRbxRax] + ([PopRax] + tail);
    RunMovRbxRax([PopRax] + tail, st);
    RunPopRax(tail, st.(rbx := st.rax));
  }

  /** The condition `setCC` tests for a comparison operator. */
  function CondOf(k: BinExprKind): Cond
    requires IsCompare(k)
  {
    match k
    case Eq => E
    case Neq => NE
    case Lt => L
    case Lte => LE
    case Mr => G
    case Mre => GE
  }

  lemma CompareTail(k: BinExprKind, l: int, r: int)
    requires IsCompare(k)
    ensures OpTail(k) == [CmpRaxRbx, SetCC(CondOf(k)), MovzxRaxAl]
    ensures Apply(k, l, r) == Some(Truth(CondHolds(CondOf(k), Flags(l, r))))
  {
  }

  lemma CompareRuns(c: Cond, st: MState)
    requires st.status.Running?
    ensures Computes(Run([CmpRaxRbx, SetCC(c), MovzxRaxAl], st), st, Truth(CondHolds(c, Flags(st.rax, st.rbx))))
  {
    var st1 := st.(flags := Flags(st.rax, st.rbx));
    var st2 := st1.(al := Truth(CondHolds(c, st1.flags)));
    assert [CmpRaxRbx, SetCC(c), MovzxRaxAl] == [CmpRaxRbx] + ([SetCC(c)] + ([MovzxRaxAl] + []));
    RunCmp([SetCC(c)] + ([MovzxRaxAl] + []), st);
    RunSetCC(c, [MovzxRaxAl] + [], st1);
    RunMovzx([], st2);
  }

  lemma ArithOpRuns(k: BinExprKind, st: MState)
    requires IsArith(k) && st.status.Running? && Apply(k, st.rax, st.rbx).Some?
    ensures Computes(Run(OpTail(k), st), st, Apply(k, st.rax, st.rbx).value)
  {
    if k == Add {
      RunAdd([], st);
      RunOne(AddRaxRbx, st);
    } else if k == Minus {
      RunSub([], st);
      RunOne(SubRaxRbx, st);
    } else if k == Multi {
      RunImul([], st);
      RunOne(ImulRaxRbx, st);
    } else {
      assert OpTail(k) == [Cqo] + ([IdivRbx] + []);
      RunNop(Cqo, [IdivRbx] + [], st);
      RunIdiv([], st);
    }
  }

  /** The combining instructions of an arithmetic or comparison node. */
  lemma OpTailRuns(k: BinExprKind, st: MState, l: int, r: int)
    requires IsArith(k) || IsCompare(k)
    requires st.status.Running? && st.rax == l && st.rbx == r && Apply(k, l, r).Some?
    ensures Computes(Run(OpTail(k), st), st, Apply(k, l, r).value)
  {
    if IsArith(k) {
      ArithOpRuns(k, st);
    } else {
      CompareTail(k, l, r);
      CompareRuns(CondOf(k), st);
    }
  }

  /** `test rax, rax ; setne al ; movzx rax, al` turns rax into 0 or 1. */
  lemma NormaliseRuns(rest: seq<Instr>, st: MState)
    requires st.status.Running?
    ensures var st3 := st.(flags := Flags(st.rax, 0), al := Truth(st.rax != 0), rax := Truth(st.rax != 0));
      Run([TestRaxRax, SetCC(NE), MovzxRaxAl] + rest, st) == Run(rest, st3)
  {
    var st1 := st.(flags := Flags(st.rax, 0));
    var st2 := st1.(al := Truth(CondHolds(NE, st1.flags)));
    assert [TestRaxRax, SetCC(NE), MovzxRaxAl] + rest == [TestRaxRax] + ([SetCC(NE)] + ([MovzxRaxAl] + rest));
    RunTest([SetCC(NE)] + ([MovzxRaxAl] + rest), st);
    RunSetCC(NE, [MovzxRaxAl] + rest, st1);
    RunMovzx(rest, st2);
  }

  /** After the rhs: the value is normalised to 0 or 1 and `jmp end` skips the
      short-circuit value. */
  lemma LogicTailRuns(k: BinExprKind, n: int, st: MState)
    requires k == And || k == Or
    requires st.status.Running?
    ensures Computes(Run(LogicTail(k, n), st), st, Truth(st.rax != 0))
  {
    var s, e := ShortLabel(k, n), EndLabel(k, n);
    var mov := MovRaxImm(if k == And then "0" else "1");
    var after: seq<Instr> := [LabelDef(s)] + ([mov] + ([LabelDef(e)] + []));
    var st3 := st.(flags := Flags(st.rax, 0), al := Truth(st.rax != 0), rax := Truth(st.rax != 0));
    assert LogicTail(k, n) == [TestRaxRax, SetCC(NE), MovzxRaxAl] + ([Jmp(e)] + after);
    NormaliseRuns([Jmp(e)] + after, st);
    RunJmp(e, after, st3);
    SkipPastOther(LabelDef(s), [mov] + ([LabelDef(e)] + []), e);
    SkipPastOther(mov, [LabelDef(e)] + [], e);
    SkipPastHere([], e);
    assert Run([], st3) == st3;
  }

  /** The short-circuit landing `short: ; mov rax, k ; end:`. */
  lemma LogicShortRuns(k: BinExprKind, n: int, st: MState)
    requires k == And || k == Or
    requires st.status.Running?
    ensures Computes(Run(LogicTail(k, n)[5..], st), st, if k == And then 0 else 1)
  {
    var t := if k == And then "0" else "1";
    var v := if k == And then 0 else 1;
    SmallLiterals();
    assert LogicTail(k, n)[5..] == [MovRaxImm(t)] + ([LabelDef(EndLabel(k, n))] + []);
    RunMovImm(t, v, [LabelDef(EndLabel(k, n))] + [], st);
    RunNop(LabelDef(EndLabel(k, n)), [], st.(rax := v));
  }

  lemma SkipToShort(k: BinExprKind, n: int, b: seq<Instr>)
    requires LabelDef(ShortLabel(k, n)) !in b
    ensures SkipPast(b + LogicTail(k, n), ShortLabel(k, n)) == LogicTail(k, n)[5..]
  {
    var t := LogicTail(k, n);
    var s := ShortLabel(k, n);
    SkipPastAbsent(b, t, s);
    assert t == t[..4] + t[4..];
    assert LabelDef(s) !in t[..4];
    SkipPastAbsent(t[..4], t[4..], s);
  }

  /** The part of a logical node after its lhs: when the lhs decides the result the
      jump lands on the constant, otherwise the rhs and the tail run. */
  lemma LogicRestRuns(k: BinExprKind, n: int, b: seq<Instr>, st: MState)
    requires k == And || k == Or
    requires Closed(b) && LabelDef(ShortLabel(k, n)) !in b && st.status.Running?
    ensures var st1 := st.(flags := Flags(st.rax, 0));
      var rest := LogicMid(k, n) + b + LogicTail(k, n);
      if Decides(k, st.rax) then
        Computes(Run(rest, st), st, if k == And then 0 else 1)
      else
        Run(rest, st) == Run(LogicTail(k, n), Run(b, st1))
  {
    var t := LogicTail(k, n);
    var mid := LogicMid(k, n);
    var j := mid[1];
    var st1 := st.(flags := Flags(st.rax, 0));
    assert mid + b + t == [TestRaxRax] + ([j] + (b + t));
    RunTest([j] + (b + t), st);
    RunCondJump(j, b + t, st1);
    if Decides(k, st.rax) {
      SkipToShort(k, n, b);
      LogicShortRuns(k, n, st1);
    } else {
      RunAppend(b, t, st1);
    }
  }

  // ---------------------------------------------------------------------------------
  // Expressions

  lemma {:induction false} RecRuns(vars: VarTable, env: Env, r: Rec, n: int, st: MState)
    requires RecCode(vars, r, n).Ok? && EvalRec(env, r).Some?
    requires Agree(vars, env, st.mem) && st.status.Running?
    ensures Computes(Run(RecCode(vars, r, n).value.instrs, st), st, EvalRec(env, r).value)
    decreases r, 0
  {
    match r
    case BinRec(b) => BinRuns(vars, env, b, n, st);
    case NodeRec(e) =>
      if e.BinNode? {
        BinRuns(vars, env, e.bin, n, st);
      } else {
        LeafRuns(vars, env, e, n, st);
        assert RecCode(vars, r, n) == ExprCode(vars, e, n);
      }
  }

  lemma {:induction false} BinRuns(vars: VarTable, env: Env, b: BinExpr, n: int, st: MState)
    requires BinCode(vars, b, n).Ok? && EvalBin(env, b).Some?
    requires Agree(vars, env, st.mem) && st.status.Running?
    ensures Computes(Run(BinCode(vars, b, n).value.instrs, st), st, EvalBin(env, b).value)
    decreases b, 1
  {
    if IsArith(b.kind) || IsCompare(b.kind) {
      ArithRuns(vars, env, b, n, st);
    } else {
      LogicRuns(vars, env, b, n, st);
    }
  }

  lemma {:induction false} ArithRuns(vars: VarTable, env: Env, b: BinExpr, n: int, st: MState)
    requires IsArith(b.kind) || IsCompare(b.kind)
    requires BinCode(vars, b, n).Ok? && EvalBin(env, b).Some?
    requires Agree(vars, env, st.mem) && st.status.Running?
    ensures Computes(Run(BinCode(vars, b, n).value.instrs, st), st, EvalBin(env, b).value)
    decreases b, 0
  {
    var l := RecCode(vars, b.lhs, n).value;
    var r := RecCode(vars, b.rhs, l.next).value;
    var lv, rv := EvalRec(env, b.lhs).value, EvalRec(env, b.rhs).value;
    RecShape(vars, b.lhs, n);
    RecShape(vars, b.rhs, l.next);
    ArithSplit(l.instrs, r.instrs, OpTail(b.kind), st);
    RecRuns(vars, env, b.lhs, n, st);
    var st1 := Run(l.instrs, st);
    RunPushRax([], st1);
    RunOne(PushRax, st1);
    var st2 := st1.(stack := st1.stack + [st1.rax]);
    RecRuns(vars, env, b.rhs, l.next, st2);
    var st3 := Run(r.instrs, st2);
    RestoreRuns(OpTail(b.kind), st3);
    var st4 := st3.(rbx := st3.rax, rax := st3.stack[|st3.stack| - 1], stack := st3.stack[..|st3.stack| - 1]);
    assert Computes(st4, st, lv) && st4.rbx == rv;
    OpTailRuns(b.kind, st4, lv, rv);
  }

  /** Whether the lhs value of `&&` (0) or `||` (nonzero) decides the result. */
  predicate Decides(k: BinExprKind, lv: int) {
    (k == And && lv == 0) || (k == Or && lv != 0)
  }

  lemma LogicEval(env: Env, b: BinExpr)
    requires !(IsArith(b.kind) || IsCompare(b.kind)) && EvalBin(env, b).Some?
    ensures EvalRec(env, b.lhs).Some?
    ensures Decides(b.kind, EvalRec(env, b.lhs).value) ==>
      EvalBin(env, b).value == if b.kind == And then 0 else 1
    ensures !Decides(b.kind, EvalRec(env, b.lhs).value) ==>
      EvalRec(env, b.rhs).Some? && EvalBin(env, b).value == Truth(EvalRec(env, b.rhs).value != 0)
  {
  }

  lemma LogicCode(vars: VarTable, b: BinExpr, n: int)
    requires !(IsArith(b.kind) || IsCompare(b.kind)) && BinCode(vars, b, n).Ok?
    ensures RecCode(vars, b.lhs, n + 1).Ok?
    ensures RecCode(vars, b.rhs, RecCode(vars, b.lhs, n + 1).value.next).Ok?
    ensures var l := RecCode(vars, b.lhs, n + 1).value;
      var r := RecCode(vars, b.rhs, l.next).value;
      && BinCode(vars, b, n).value.instrs == l.instrs + (LogicMid(b.kind, n) + r.instrs + LogicTail(b.kind, n))
      && Closed(l.instrs) && Closed(r.instrs) && LabelDef(ShortLabel(b.kind, n)) !in r.instrs
  {
    var l := RecCode(vars, b.lhs, n + 1).value;
    var r := RecCode(vars, b.rhs, l.next).value;
    var mid, tail := LogicMid(b.kind, n), LogicTail(b.kind, n);
    assert BinCode(vars, b, n).value.instrs == l.instrs + mid + r.instrs + tail;
    assert l.instrs + mid + r.instrs + tail == l.instrs + (mid + r.instrs + tail);
    assert Closed(l.instrs) && n + 1 <= l.next by { RecShape(vars, b.lhs, n + 1); }
    assert Closed(r.instrs) && LabelDef(ShortLabel(b.kind, n)) !in r.instrs by {
      RecShape(vars, b.rhs, l.next);
      LabelAbsent(r, l.next, ShortLabel(b.kind, n));
    }
  }

  /** A logical node from the values its operands compute. */
  lemma LogicPieceRuns(k: BinExprKind, n: int, a: seq<Instr>, b: seq<Instr>, st: MState, lv: int, rv: int)
    requires k == And || k == Or
    requires Closed(a) && Closed(b) && LabelDef(ShortLabel(k, n)) !in b && st.status.Running?
    requires Computes(Run(a, st), st, lv)
    requires !Decides(k, lv) ==>
      Computes(Run(b, Run(a, st).(flags := Flags(lv, 0))), Run(a, st).(flags := Flags(lv, 0)), rv)
    ensures Computes(Run(a + (LogicMid(k, n) + b + LogicTail(k, n)), st), st,
                     if Decides(k, lv) then (if k == And then 0 else 1) else Truth(rv != 0))
  {
    RunAppend(a, LogicMid(k, n) + b + LogicTail(k, n), st);
    var st1 := Run(a, st);
    LogicRestRuns(k, n, b, st1);
    if !Decides(k, lv) {
      LogicTailRuns(k, n, Run(b, st1.(flags := Flags(lv, 0))));
    }
  }

  lemma {:induction false} LogicRuns(vars: VarTable, env: Env, b: BinExpr, n: int, st: MState)
    requires !(IsArith(b.kind) || IsCompare(b.kind))
    requires BinCode(vars, b, n).Ok? && EvalBin(env, b).Some?
    requires Agree(vars, env, st.mem) && st.status.Running?
    ensures Computes(Run(BinCode(vars, b, n).value.instrs, st), st, EvalBin(env, b).value)
    decreases b, 0
  {
    var k := b.kind;
    LogicCode(vars, b, n);
    LogicEval(env, b);
    var l := RecCode(vars, b.lhs, n + 1).value;
    var r := RecCode(vars, b.rhs, l.next).value;
    var lv := EvalRec(env, b.lhs).value;
    RecRuns(vars, env, b.lhs, n + 1, st);
    var rv := 0;
    if !Decides(k, lv) {
      rv := EvalRec(env, b.rhs).value;
      RecRuns(vars, env, b.rhs, l.next, Run(l.instrs, st).(flags := Flags(lv, 0)));
    }
    LogicPieceRuns(k, n, l.instrs, r.instrs, st, lv, rv);
  }

  lemma ExprRuns(vars: VarTable, env: Env, e: Expr, n: int, st: MState)
    requires ExprCode(vars, e, n).Ok? && EvalExpr(env, e).Some?
    requires Agree(vars, env, st.mem) && st.status.Running?
    ensures Computes(Run(ExprCode(vars, e, n).value.instrs, st), st, EvalExpr(env, e).value)
  {
    if e.BinNode? {
      BinRuns(vars, env, e.bin, n, st);
    } else {
      LeafRuns(vars, env, e, n, st);
    }
  }

  /** A literal or a variable: one `mov` into rax. */
  lemma LeafRuns(vars: VarTable, env: Env, e: Expr, n: int, st: MState)
    requires e.IntLitExpr? || e.IdentExpr?
    requires ExprCode(vars, e, n).Ok? && EvalExpr(env, e).Some?
    requires Agree(vars, env, st.mem) && st.status.Running?
    ensures Computes(Run(ExprCode(vars, e, n).value.instrs, st), st, EvalExpr(env, e).value)
  {
    if e.IntLitExpr? {
      var t := TokenText(e.intLit);
      RunMovImm(t, DecimalValue(t).value, [], st);
      RunOne(MovRaxImm(t), st);
    } else {
      var off := SlotToOffset(vars[TokenText(e.ident)]);
      RunLoad(off, [], st);
      RunOne(LoadVar(off), st);
    }
  }

  // ---------------------------------------------------------------------------------
  // Statements

  /** Storing a value in the cell of a name keeps every other name's cell: distinct
      names have distinct slots. */
  lemma AgreeStore(vars: VarTable, env: Env, mem: map<int, int>, name: string, v: int)
    requires Agree(vars, env, mem) && SlotsInjective(vars)
    requires name in vars && vars[name] >= 0
    ensures Agree(vars, env[name := v], mem[SlotToOffset(vars[name]) := v])
  {
    var env', mem' := env[name := v], mem[SlotToOffset(vars[name]) := v];
    forall x | x in env'
      ensures x in vars && vars[x] >= 0 && SlotToOffset(vars[x]) in mem' && mem'[SlotToOffset(vars[x])] == env'[x]
    {
      if x != name {
        assert vars[x] != vars[name];
      }
    }
  }

  /** The machine state a statement outcome corresponds to: normal completion leaves the
      machine running with the new values in their cells; `exit(k)` has made it exit
      with status k. */
  predicate Reaches(after: MState, o: Outcome, vars: VarTable) {
    match o
    case Normal(env) => after.status == Running && Agree(vars, env, after.mem)
    case Halt(k) => after.status == Exited(k)
    case Stuck => false
  }

  lemma LetRuns(vars: VarTable, env: Env, t: Tokens.Token, e: Expr, n: int, st: MState)
    requires StmtCode(vars, Let(t, e), n).Ok? && ExecStmt(env, Let(t, e)) != Stuck
    requires Agree(vars, env, st.mem) && st.status.Running? && SlotsInjective(vars)
    ensures Reaches(Run(StmtCode(vars, Let(t, e), n).value.instrs, st), ExecStmt(env, Let(t, e)), vars)
  {
    var name := TokenText(t);
    var c := ExprCode(vars, e, n).value;
    assert name in vars && vars[name] >= 0;
    var off := SlotToOffset(vars[name]);
    var v := EvalExpr(env, e).value;
    assert StmtCode(vars, Let(t, e), n).value.instrs == c.instrs + [StoreVar(off)];
    assert ExecStmt(env, Let(t, e)) == Normal(env[name := v]);
    ExprShape(vars, e, n);
    ExprRuns(vars, env, e, n, st);
    StoreAfterRuns(c.instrs, off, v, st);
    AgreeStore(vars, env, st.mem, name, v);
  }

  /** Code computing `v`, then a store of rax to the cell at `off`. */
  lemma StoreAfterRuns(a: seq<Instr>, off: int, v: int, st: MState)
    requires Closed(a) && Computes(Run(a, st), st, v)
    ensures Run(a + [StoreVar(off)], st) == Run(a, st).(mem := st.mem[off := v])
  {
    RunAppend(a, [StoreVar(off)], st);
    var st1 := Run(a, st);
    RunStore(off, [], st1);
    RunOne(StoreVar(off), st1);
  }

  /** `mov rdi, rax ; mov rax, 60 ; syscall` exits with the status in rax. */
  lemma ExitSeqRuns(st: MState)
    requires st.status.Running?
    ensures Run(ExitSeq, st).status == Exited(st.rax)
  {
    Literal60();
    assert ExitSeq == [MovRdiRax] + ([MovRaxImm("60")] + [Syscall]);
    ExitSeqRunsWith("60", st);
  }

  lemma ExitSeqRunsWith(t: string, st: MState)
    requires st.status.Running? && DecimalValue(t) == Some(60)
    ensures Run([MovRdiRax] + ([MovRaxImm(t)] + [Syscall]), st).status == Exited(st.rax)
  {
    var st2 := st.(rdi := st.rax);
    RunMovRdiRax([MovRaxImm(t)] + [Syscall], st);
    RunMovImm(t, 60, [Syscall], st2);
    RunSyscallExit([], st2.(rax := 60));
  }

  lemma ExitRuns(vars: VarTable, env: Env, e: Expr, n: int, st: MState)
    requires StmtCode(vars, Exit(e), n).Ok? && ExecStmt(env, Exit(e)) != Stuck
    requires Agree(vars, env, st.mem) && st.status.Running?
    ensures Reaches(Run(StmtCode(vars, Exit(e), n).value.instrs, st), ExecStmt(env, Exit(e)), vars)
  {
    var c := ExprCode(vars, e, n).value;
    ExprShape(vars, e, n);
    ExprRuns(vars, env, e, n, st);
    RunAppend(c.instrs, ExitSeq, st);
    ExitSeqRuns(Run(c.instrs, st));
  }

  /** An `if` whose condition is 0 jumps over its body to the end label. */
  lemma IfSkipRuns(b: seq<Instr>, l: Label, st: MState)
    requires LabelDef(l) !in b && st.status.Running? && st.flags.x == st.flags.y
    ensures Run([Je(l)] + (b + [LabelDef(l)]), st) == st
  {
    RunCondJump(Je(l), b + [LabelDef(l)], st);
    SkipPastAbsent(b, [LabelDef(l)], l);
    assert SkipPast([LabelDef(l)], l) == [];
  }

  /** An `if` whose condition is nonzero runs its body and the end label. */
  lemma IfBodyRuns(b: seq<Instr>, l: Label, st: MState)
    requires Closed(b) && st.status.Running? && st.flags.x != st.flags.y
    ensures Run([Je(l)] + (b + [LabelDef(l)]), st) == Run([LabelDef(l)], Run(b, st))
  {
    RunCondJump(Je(l), b + [LabelDef(l)], st);
    RunAppend(b, [LabelDef(l)], st);
  }

  lemma LabelRuns(l: Label, st: MState)
    ensures Run([LabelDef(l)], st) == st
  {
    if st.status.Running? {
      RunNop(LabelDef(l), [], st);
      RunOne(LabelDef(l), st);
    }
  }

  /** The code of an `if`: the condition, the test, the jump, the body, the end label. */
  lemma IfCode(vars: VarTable, cond: Expr, body: seq<Stmt>, n: int, c: Code, b: Code)
    requires ExprCode(vars, cond, n) == Ok(c) && StmtsCode(vars, body, c.next + 1) == Ok(b)
    ensures StmtCode(vars, If(cond, body), n).Ok?
    ensures StmtCode(vars, If(cond, body), n).value.instrs
         == c.instrs + ([TestRaxRax] + ([Je(Lbl(IfEnd, c.next))] + (b.instrs + [LabelDef(Lbl(IfEnd, c.next))])))
  {
    ConsAssoc(c.instrs, TestRaxRax, Je(Lbl(IfEnd, c.next)), b.instrs, LabelDef(Lbl(IfEnd, c.next)));
  }

  lemma ConsAssoc(a: seq<Instr>, x: Instr, y: Instr, b: seq<Instr>, z: Instr)
    ensures a + [x, y] + b + [z] == a + ([x] + ([y] + (b + [z])))
  {
    assert [x, y] == [x] + [y];
  }

  lemma {:induction false} IfRuns(vars: VarTable, env: Env, cond: Expr, body: seq<Stmt>, n: int, st: MState)
    requires StmtCode(vars, If(cond, body), n).Ok? && ExecStmt(env, If(cond, body)) != Stuck
    requires Agree(vars, env, st.mem) && st.status.Running? && SlotsInjective(vars)
    ensures Reaches(Run(StmtCode(vars, If(cond, body), n).value.instrs, st), ExecStmt(env, If(cond, body)), vars)
    decreases body, 3
  {
    var c := ExprCode(vars, cond, n).value;
    var b := StmtsCode(vars, body, c.next + 1).value;
    IfCode(vars, cond, body, n, c, b);
    IfPartsRuns(vars, env, cond, body, n, st, c, b);
  }

  /** The pieces of an `if`: the condition's code leaves its value in rax, the test
      sets the flags, and `je` either skips the body or runs it. */
  lemma {:induction false} IfPartsRuns(vars: VarTable, env: Env, cond: Expr, body: seq<Stmt>, n: int, st: MState, c: Code, b: Code)
    requires ExprCode(vars, cond, n) == Ok(c) && StmtsCode(vars, body, c.next + 1) == Ok(b)
    requires EvalExpr(env, cond).Some? && (EvalExpr(env, cond).value != 0 ==> ExecStmts(env, body) != Stuck)
    requires Agree(vars, env, st.mem) && st.status.Running? && SlotsInjective(vars)
    ensures Reaches(Run(c.instrs + ([TestRaxRax] + ([Je(Lbl(IfEnd, c.next))] + (b.instrs + [LabelDef(Lbl(IfEnd, c.next))]))), st),
                    if EvalExpr(env, cond).value != 0 then ExecStmts(env, body) else Normal(env), vars)
    decreases body, 2
  {
    var l := Lbl(IfEnd, c.next);
    ExprShape(vars, cond, n);
    RunAppend(c.instrs, [TestRaxRax] + ([Je(l)] + (b.instrs + [LabelDef(l)])), st);
    ExprRuns(vars, env, cond, n, st);
    var st1 := Run(c.instrs, st);
    RunTest([Je(l)] + (b.instrs + [LabelDef(l)]), st1);
    IfBranchRuns(vars, env, body, c.next + 1, l, st1.(flags := Flags(st1.rax, 0)));
  }

  /** After the test of the condition, `je` either skips the body or runs it, and the
      end label follows. */
  lemma {:induction false} IfBranchRuns(vars: VarTable, env: Env, body: seq<Stmt>, lo: int, l: Label, st: MState)
    ensures && StmtsCode(vars, body, lo).Ok? && l.id < lo
            && Agree(vars, env, st.mem) && st.status.Running? && SlotsInjective(vars) && st.flags == Flags(st.rax, 0)
            && (st.rax != 0 ==> ExecStmts(env, body) != Stuck)
        ==> Reaches(Run([Je(l)] + (StmtsCode(vars, body, lo).value.instrs + [LabelDef(l)]), st),
                    if st.rax != 0 then ExecStmts(env, body) else Normal(env), vars)
    decreases body, 1
  {
    if && StmtsCode(vars, body, lo).Ok? && l.id < lo
       && Agree(vars, env, st.mem) && st.status.Running? && SlotsInjective(vars) && st.flags == Flags(st.rax, 0)
       && (st.rax != 0 ==> ExecStmts(env, body) != Stuck)
    {
      var b := StmtsCode(vars, body, lo).value;
      StmtsShape(vars, body, lo);
      LabelAbsent(b, lo, l);
      if st.rax == 0 {
        IfSkipRuns(b.instrs, l, st);
      } else {
        IfBodyRuns(b.instrs, l, st);
        StmtsRuns(vars, env, body, lo, st);
        LabelRuns(l, Run(b.instrs, st));
      }
    }
  }

  lemma {:induction false} ElseRuns(vars: VarTable, env: Env, body: seq<Stmt>, n: int, st: MState)
    requires StmtCode(vars, Else(body), n).Ok? && ExecStmt(env, Else(body)) != Stuck
    requires Agree(vars, env, st.mem) && st.status.Running? && SlotsInjective(vars)
    ensures Reaches(Run(StmtCode(vars, Else(body), n).value.instrs, st), ExecStmt(env, Else(body)), vars)
    decreases body, 2
  {
    var b := StmtsCode(vars, body, n + 1).value;
    StmtsShape(vars, body, n + 1);
    RunAppend(b.instrs, [LabelDef(Lbl(ElseEnd, n))], st);
    StmtsRuns(vars, env, body, n + 1, st);
    LabelRuns(Lbl(ElseEnd, n), Run(b.instrs, st));
  }

  /** The code of a statement brings the machine to the state its outcome describes. */
  lemma {:induction false} StmtRuns(vars: VarTable, env: Env, s: Stmt, n: int, st: MState)
    requires StmtCode(vars, s, n).Ok? && ExecStmt(env, s) != Stuck
    requires Agree(vars, env, st.mem) && st.status.Running? && SlotsInjective(vars)
    ensures Reaches(Run(StmtCode(vars, s, n).value.instrs, st), ExecStmt(env, s), vars)
    decreases s, 1
  {
    if s.Let? {
      LetRuns(vars, env, s.ident, s.expr, n, st);
    } else if s.Exit? {
      ExitRuns(vars, env, s.expr, n, st);
    } else if s.If? {
      IfRuns(vars, env, s.cond, s.body, n, st);
    } else if s.Else? {
      ElseRuns(vars, env, s.body, n, st);
    }
  }

  /** The code of a statement list brings the machine to the state the outcome of the
      list describes; once an `exit` has run, the rest of the code does nothing. */
  lemma {:induction false} StmtsRuns(vars: VarTable, env: Env, ss: seq<Stmt>, n: int, st: MState)
    requires StmtsCode(vars, ss, n).Ok? && ExecStmts(env, ss) != Stuck
    requires Agree(vars, env, st.mem) && st.status.Running? && SlotsInjective(vars)
    ensures Reaches(Run(StmtsCode(vars, ss, n).value.instrs, st), ExecStmts(env, ss), vars)
    decreases ss, 0
  {
    if ss != [] {
      var init, last := ss[..|ss| - 1], ss[|ss| - 1];
      var c := StmtsCode(vars, init, n).value;
      var d := StmtCode(vars, last, c.next).value;
      StmtsShape(vars, init, n);
      RunAppend(c.instrs, d.instrs, st);
      StmtsRuns(vars, env, init, n, st);
      var st1 := Run(c.instrs, st);
      match ExecStmts(env, init)
      case Normal(env1) => StmtRuns(vars, env1, last, c.next, st1);
      case Halt(k) => RunStopped(d.instrs, st1);
    }
  }

  // ---------------------------------------------------------------------------------
  // Programs

  lemma PrologueRuns(bytes: int, st: MState)
    requires st.status.Running?
    ensures Run(Prologue(bytes), st).status == Running
    ensures Run(Prologue(bytes), st).mem == st.mem
  {
    var st1 := st.(stack := st.stack + [st.rbp]);
    var tail: seq<Instr> := if bytes > 0 then [SubRsp(bytes)] else [];
    assert Prologue(bytes) == [GlobalStart] + ([StartLabel] + ([PushRbp] + ([MovRbpRsp] + tail)));
    RunNop(GlobalStart, [StartLabel] + ([PushRbp] + ([MovRbpRsp] + tail)), st);
    RunNop(StartLabel, [PushRbp] + ([MovRbpRsp] + tail), st);
    RunPushRbp([MovRbpRsp] + tail, st);
    RunNop(MovRbpRsp, tail, st1);
    if bytes > 0 {
      RunNop(SubRsp(bytes), [], st1);
      RunOne(SubRsp(bytes), st1);
    }
  }

  lemma EpilogueRuns(st: MState)
    requires st.status.Running?
    ensures Run(Epilogue, st).status == Exited(0)
  {
    Literal60();
    assert Epilogue == [MovRaxImm("60")] + ([MovRdiZero] + [Syscall]);
    EpilogueRunsWith("60", st);
  }

  lemma EpilogueRunsWith(t: string, st: MState)
    requires st.status.Running? && DecimalValue(t) == Some(60)
    ensures Run([MovRaxImm(t)] + ([MovRdiZero] + [Syscall]), st).status == Exited(0)
  {
    RunMovImm(t, 60, [MovRdiZero] + [Syscall], st);
    RunMovRdiZero([Syscall], st.(rax := 60));
    RunSyscallExit([], st.(rax := 60, rdi := 0));
  }

  /** The listing of a program, started in any running state, exits with the status of
      the first `exit` the program executes, or with status 0 when the program runs to
      its end. */
  lemma ProgramRuns(prog: seq<Stmt>, st: MState)
    requires ProgramCode(prog).Ok? && ExecStmts(map[], prog) != Stuck && st.status.Running?
    ensures Run(ProgramCode(prog).value, st).status
         == if ExecStmts(map[], prog).Halt? then Exited(ExecStmts(map[], prog).code) else Exited(0)
  {
    var a := Allocate(prog);
    var body := StmtsCode(a.vars, prog, 0).value;
    var pro := Prologue(FrameBytes(a.next));
    assert ProgramCode(prog).value == pro + body.instrs + Epilogue;
    ProloguePieces(FrameBytes(a.next));
    StmtsShape(a.vars, prog, 0);
    ClosedAppend(pro, body.instrs);
    RunAppend(pro + body.instrs, Epilogue, st);
    RunAppend(pro, body.instrs, st);
    PrologueRuns(FrameBytes(a.next), st);
    var st1 := Run(pro, st);
    AllocateInjective(prog);
    assert Agree(a.vars, map[], st1.mem);
    StmtsRuns(a.vars, map[], prog, 0, st1);
    var st2 := Run(body.instrs, st1);
    if ExecStmts(map[], prog).Halt? {
      RunStopped(Epilogue, st2);
    } else {
      EpilogueRuns(st2);
    }
  }

  /** What a waiting parent reads of the same run: the low eight bits of the status of
      the first `exit` executed, or 0. */
  lemma ProgramReportsStatus(prog: seq<Stmt>, st: MState)
    requires ProgramCode(prog).Ok? && ExecStmts(map[], prog) != Stuck && st.status.Running?
    ensures Run(ProgramCode(prog).value, st).status.Exited?
    ensures ReportedStatus(Run(ProgramCode(prog).value, st).status.code)
         == if ExecStmts(map[], prog).Halt? then ReportedStatus(ExecStmts(map[], prog).code) else 0
  {
    ProgramRuns(prog, st);
  }

  // ---------------------------------------------------------------------------------
  // Examples

  function Lit(digits: string): Rec {
    NodeRec(IntLitExpr(Tokens.Token(Tokens.IntLit, Some(digits))))
  }

  /** `exit(2 + 3 * 4);` as the parser builds it. */
  const ExitExample: seq<Stmt> :=
    [Exit(BinNode(BinExpr(Add, Lit("2"), BinRec(BinExpr(Multi, Lit("3"), Lit("4"))))))]

  /** Its listing exits with status 14, whatever state it starts in. */
  lemma ExitExampleRuns(st: MState)
    requires st.status.Running?
    ensures ProgramCode(ExitExample).Ok?
    ensures Run(ProgramCode(ExitExample).value, st).status == Exited(14)
  {
    ExitExampleHalts();
    ExitExampleCompiles();
    ProgramRuns(ExitExample, st);
  }

  lemma ExitExampleHalts()
    ensures ExecStmts(map[], ExitExample) == Halt(14)
  {
    assert "2"[..0] == [] && "3"[..0] == [] && "4"[..0] == [];
    assert ExitExample[..0] == [];
  }

  lemma ExitExampleCompiles()
    ensures ProgramCode(ExitExample).Ok?
  {
  }

  /** `exit(300);`: the system call receives 300, and a parent reads 44. */
  const WideExitExample: seq<Stmt> := [Exit(IntLitExpr(Tokens.Token(Tokens.IntLit, Some("300"))))]

  lemma WideExitReported(st: MState)
    requires st.status.Running?
    ensures ProgramCode(WideExitExample).Ok?
    ensures Run(ProgramCode(WideExitExample).value, st).status == Exited(300)
    ensures ReportedStatus(Run(ProgramCode(WideExitExample).value, st).status.code) == 44
  {
    assert "300"[..2] == "30" && "30"[..1] == "3" && "3"[..0] == [];
    assert WideExitExample[..0] == [];
    assert ExecStmts(map[], WideExitExample) == Halt(300);
    assert StmtsUses(WideExitExample) == {};
    ProgramCodeOk(WideExitExample);
    ProgramRuns(WideExitExample, st);
  }
}
