/** The code generator as the C program runs it: a generator object whose output buffer
    grows line by line, whose variable table is filled by two passes over the program, and
    a label counter that `next_label` bumps. Each method is proved to leave exactly the
    state the lowering functions describe: the text of their instructions appended to the
    output and the label counter they end with, or the error that makes the generator
    call `exit(1)`. */
module Generation {
  import opened Wrappers
  import Tokens
  import opened Ast
  import opened Asm
  import opened Semantics
  import opened Slots
  import opened Lowering

  /** `gen_data`, with the file-level `__label_counter` held as the field `labels`,
      and the block stack of the scope helpers (`None` when there is none). */
  class GenData {
    var output: seq<string>
    var vars: VarTable
    var labels: int
    var blocks: Option<seq<seq<string>>>

    /** `generate_gen_data` sets the output, the table and the counter but never the
        block stack, so `heapBlocks` stands for whatever the allocation left there. */
    constructor (heapBlocks: Option<seq<seq<string>>>)
      ensures output == [] && vars == map[] && labels == 0 && blocks == heapBlocks
    {
      output := [];
      vars := map[];
      labels := 0;
      blocks := heapBlocks;
    }


    /** `emit`: append one line; earlier output is never altered. */
    method Emit(i: Instr)
      modifies this
      ensures output == old(output) + [Render(i)]
      ensures vars == old(vars) && labels == old(labels) && blocks == old(blocks)
    {
      output := output + [Render(i)];
    }

    /** Several `emit` calls in a row. */
    method EmitAll(code: seq<Instr>)
      modifies this
      ensures output == old(output) + RenderAll(code)
      ensures vars == old(vars) && labels == old(labels) && blocks == old(blocks)
    {
      for k := 0 to |code|
        invariant output == old(output) + RenderAll(code[..k])
        invariant vars == old(vars) && labels == old(labels) && blocks == old(blocks)
      {
        ghost var before := output;
        Emit(code[k]);
        EmitStep(old(output), before, output, code, k);
      }
      assert code[..|code|] == code;
    }

    /** `next_label`: the current counter value, after which the counter is one more. */
    method NextLabel() returns (id: int)
      modifies this
      ensures id == old(labels) && labels == old(labels) + 1
      ensures output == old(output) && vars == old(vars) && blocks == old(blocks)
    {
      id := labels;
      labels := labels + 1;
    }

    /** `ensure_var_slot`. */
    method EnsureVarSlot(name: string)
      modifies this
      ensures vars == Ensure(old(vars), name)
      ensures output == old(output) && labels == old(labels) && blocks == old(blocks)
    {
      if name !in vars {
        vars := vars[name := Unassigned];
      }
    }

    /** `collect_vars_in_stmt`: walking the expressions of a statement never changes the
        table, so only `let` statements and `if` bodies act. */
    method CollectVarsInStmt(s: Stmt)
      modifies this
      ensures vars == CollectStmt(old(vars), s)
      ensures output == old(output) && labels == old(labels) && blocks == old(blocks)
      decreases s, 1
    {
      match s
      case Let(t, _) => EnsureVarSlot(TokenText(t));
      case If(_, body) => CollectVars(body);
      case _ =>
    }

    /** `collect_vars`, and the loop over an `if` body in `collect_vars_in_stmt`. */
    method CollectVars(ss: seq<Stmt>)
      modifies this
      ensures vars == CollectStmts(old(vars), ss)
      ensures output == old(output) && labels == old(labels) && blocks == old(blocks)
      decreases ss, 0
    {
      for k := 0 to |ss|
        invariant vars == CollectStmts(old(vars), ss[..k])
        invariant output == old(output) && labels == old(labels) && blocks == old(blocks)
      {
        assert ss[..k + 1][..k] == ss[..k];
        CollectVarsInStmt(ss[k]);
      }
      assert ss[..|ss|] == ss;
    }

    /** `assign_slots_in_stmt`: the slot counter behind `next_slot` goes in as `next` and
        comes out as `next'`. */
    method AssignSlotsInStmt(s: Stmt, next: int) returns (next': int)
      modifies this
      ensures Alloc(vars, next') == AssignStmt(Alloc(old(vars), next), s)
      ensures output == old(output) && labels == old(labels) && blocks == old(blocks)
      decreases s, 1
    {
      match s
      case Let(t, _) =>
        var name := TokenText(t);
        EnsureVarSlot(name);
        next' := next;
        if vars[name] == Unassigned {
          vars := vars[name := next];
          next' := next + 1;
        }
      case If(_, body) =>
        next' := AssignSlots(body, next);
      case _ =>
        next' := next;
    }

    /** The loop over statements that calls `assign_slots_in_stmt` on each. */
    method AssignSlots(ss: seq<Stmt>, next: int) returns (next': int)
      modifies this
      ensures Alloc(vars, next') == AssignStmts(Alloc(old(vars), next), ss)
      ensures output == old(output) && labels == old(labels) && blocks == old(blocks)
      decreases ss, 0
    {
      next' := next;
      for k := 0 to |ss|
        invariant Alloc(vars, next') == AssignStmts(Alloc(old(vars), next), ss[..k])
        invariant output == old(output) && labels == old(labels) && blocks == old(blocks)
      {
        assert ss[..k + 1][..k] == ss[..k];
        next' := AssignSlotsInStmt(ss[k], next');
      }
      assert ss[..|ss|] == ss;
    }

    /** `lookup_var_slot`. */
    method LookupVarSlot(name: string) returns (r: Result<int, GenError>)
      ensures r == Lookup(vars, name)
    {
      if name !in vars {
        return Err(UndefinedVar(name));
      }
      if vars[name] < 0 {
        return Err(UnassignedVar(name));
      }
      return Ok(vars[name]);
    }

    /** `gen_bindexpr_to_rax`. */
    method GenBindexprToRax(r: Rec) returns (res: Result<(), GenError>)
      modifies this
      ensures vars == old(vars) && blocks == old(blocks)
      ensures Produced(RecCode(vars, r, old(labels)), old(output), output, labels, res)
      decreases r, 0
    {
      match r
      case NullRec =>
        Emit(Comment("gen: NULL node"));
        res := Ok(());
      case BinRec(b) =>
        res := GenBinexprToRax(b);
      case NodeRec(e) =>
        if e.IntLitExpr? {
          Emit(MovRaxImm(TokenText(e.intLit)));
          res := Ok(());
        } else if e.IdentExpr? {
          var slot := LookupVarSlot(TokenText(e.ident));
          if slot.Err? {
            return Err(slot.error);
          }
          Emit(LoadVar(SlotToOffset(slot.value)));
          res := Ok(());
        } else if e.BinNode? {
          res := GenBinexprToRax(e.bin);
        } else {
          Emit(Comment("gen: unsupported node kind " + IntToString(ExprKindNumber(e))));
          res := Ok(());
        }
    }

    /** `gen_binexpr_to_rax`. */
    method GenBinexprToRax(b: BinExpr) returns (res: Result<(), GenError>)
      modifies this
      ensures vars == old(vars) && blocks == old(blocks)
      ensures Produced(BinCode(vars, b, old(labels)), old(output), output, labels, res)
      decreases b, 1
    {
      var n := labels;
      if IsArith(b.kind) || IsCompare(b.kind) {
        res := GenBindexprToRax(b.lhs);
        if res.Err? {
          return;
        }
        ghost var l := RecCode(vars, b.lhs, n).value;
        ghost var o1 := output;
        EmitAll([PushRax]);
        ghost var o2 := output;
        OutputThen(old(output), o1, o2, l.instrs, [PushRax]);
        res := GenBindexprToRax(b.rhs);
        if res.Err? {
          return;
        }
        ghost var r := RecCode(vars, b.rhs, l.next).value;
        ghost var o3 := output;
        OutputThen(old(output), o2, o3, l.instrs + [PushRax], r.instrs);
        var tail := [MovRbxRax, PopRax] + OpTail(b.kind);
        EmitAll(tail);
        OutputThen(old(output), o3, output, l.instrs + [PushRax] + r.instrs, tail);
        ArithCodeIs(vars, b, n);
      } else {
        var id := NextLabel();
        res := GenBindexprToRax(b.lhs);
        if res.Err? {
          return;
        }
        ghost var l := RecCode(vars, b.lhs, n + 1).value;
        ghost var o1 := output;
        var mid := LogicMid(b.kind, id);
        EmitAll(mid);
        ghost var o2 := output;
        OutputThen(old(output), o1, o2, l.instrs, mid);
        res := GenBindexprToRax(b.rhs);
        if res.Err? {
          return;
        }
        ghost var r := RecCode(vars, b.rhs, l.next).value;
        ghost var o3 := output;
        OutputThen(old(output), o2, o3, l.instrs + mid, r.instrs);
        var tail := LogicTail(b.kind, id);
        EmitAll(tail);
        OutputThen(old(output), o3, output, l.instrs + mid + r.instrs, tail);
        LogicCodeIs(vars, b, n);
      }
    }

    /** `gen_expr_to_rax`. */
    method GenExprToRax(e: Expr) returns (res: Result<(), GenError>)
      modifies this
      ensures vars == old(vars) && blocks == old(blocks)
      ensures Produced(ExprCode(vars, e, old(labels)), old(output), output, labels, res)
    {
      match e
      case IntLitExpr(t) =>
        Emit(MovRaxImm(TokenText(t)));
        res := Ok(());
      case IdentExpr(t) =>
        var slot := LookupVarSlot(TokenText(t));
        if slot.Err? {
          return Err(slot.error);
        }
        Emit(LoadVar(SlotToOffset(slot.value)));
        res := Ok(());
      case BinNode(b) =>
        res := GenBinexprToRax(b);
      case _ =>
        Emit(Comment("gen_expr: unknown kind " + IntToString(ExprKindNumber(e))));
        res := Ok(());
    }

    /** `gen_stmt`. */
    method GenStmt(s: Stmt) returns (res: Result<(), GenError>)
      modifies this
      ensures vars == old(vars) && blocks == old(blocks)
      ensures Produced(StmtCode(vars, s, old(labels)), old(output), output, labels, res)
      decreases s, 1
    {
      var n := labels;
      match s
      case Let(t, e) =>
        res := GenExprToRax(e);
        if res.Err? {
          assert StmtCode(vars, s, n) == Err(res.error);
          return;
        }
        ghost var c := ExprCode(vars, e, n).value;
        ghost var o1 := output;
        var slot := LookupVarSlot(TokenText(t));
        if slot.Err? {
          assert StmtCode(vars, s, n) == Err(slot.error);
          return Err(slot.error);
        }
        EmitAll([StoreVar(SlotToOffset(slot.value))]);
        OutputThen(old(output), o1, output, c.instrs, [StoreVar(SlotToOffset(slot.value))]);
        assert StmtCode(vars, s, n) == Ok(Code(c.instrs + [StoreVar(SlotToOffset(slot.value))], c.next));
      case Exit(e) =>
        res := GenExprToRax(e);
        if res.Err? {
          assert StmtCode(vars, s, n) == Err(res.error);
          return;
        }
        ghost var c := ExprCode(vars, e, n).value;
        ghost var o1 := output;
        EmitAll(ExitSeq);
        OutputThen(old(output), o1, output, c.instrs, ExitSeq);
        assert StmtCode(vars, s, n) == Ok(Code(c.instrs + ExitSeq, c.next));
      case If(cond, body) =>
        res := GenIf(cond, body);
        IfCodeIs(vars, cond, body, n);
      case Else(body) =>
        var id := NextLabel();
        res := GenStmts(body);
        if res.Err? {
          assert StmtCode(vars, s, n) == Err(res.error);
          return;
        }
        ghost var b := StmtsCode(vars, body, id + 1).value;
        ghost var o1 := output;
        EmitAll([LabelDef(Lbl(ElseEnd, id))]);
        OutputThen(old(output), o1, output, b.instrs, [LabelDef(Lbl(ElseEnd, id))]);
        assert StmtCode(vars, s, n) == Ok(Code(b.instrs + [LabelDef(Lbl(ElseEnd, n))], b.next));
      case _ =>
        Emit(Comment("gen_stmt: unknown stmt kind " + IntToString(StmtKindNumber(s))));
        RenderAllOne(Comment("gen_stmt: unknown stmt kind " + IntToString(StmtKindNumber(s))));
        res := Ok(());
    }

    /** The `if` case of `gen_stmt`: the condition, a jump past the body when it is 0,
        the body and the label after it. */
    method GenIf(cond: Expr, body: seq<Stmt>) returns (res: Result<(), GenError>)
      modifies this
      ensures vars == old(vars) && blocks == old(blocks)
      ensures Produced(IfCode(vars, cond, body, old(labels)), old(output), output, labels, res)
      decreases If(cond, body), 0
    {
      ghost var n := labels;
      ghost var vs := vars;
      ghost var o := output;
      res := GenExprToRax(cond);
      if res.Err? {
        return;
      }
      ghost var c := ExprCode(vs, cond, n).value;
      ghost var o1 := output;
      res := GenGuarded(body);
      if res.Err? {
        return;
      }
      ghost var t := GuardedCode(vs, body, c.next).value;
      OutputThen(o, o1, output, c.instrs, t.instrs);
    }

    /** The part of an `if` after its condition: test `rax`, take a fresh label, jump
        past the body to it when `rax` is zero, the body, then the label. */
    method GenGuarded(body: seq<Stmt>) returns (res: Result<(), GenError>)
      modifies this
      ensures vars == old(vars) && blocks == old(blocks)
      ensures Produced(GuardedCode(vars, body, old(labels)), old(output), output, labels, res)
      decreases body, 1
    {
      ghost var o := output;
      var id := labels;
      var jump := [TestRaxRax, Je(Lbl(IfEnd, id))];
      Emit(TestRaxRax);
      id := NextLabel();
      Emit(Je(Lbl(IfEnd, id)));
      assert output == o + RenderAll(jump) by {
        RenderAllOne(TestRaxRax);
        RenderAllOne(Je(Lbl(IfEnd, id)));
        RenderAllAppend([TestRaxRax], [Je(Lbl(IfEnd, id))]);
      }
      ghost var o1 := output;
      res := GenStmts(body);
      if res.Err? {
        return;
      }
      ghost var b := StmtsCode(vars, body, id + 1).value;
      ghost var o2 := output;
      OutputThen(o, o1, o2, jump, b.instrs);
      var end := [LabelDef(Lbl(IfEnd, id))];
      EmitAll(end);
      OutputThen(o, o2, output, jump + b.instrs, end);
    }

    /** The loop that calls `gen_stmt` on each statement of a body or of the program;
        it stops at the first error, as `exit(1)` does. */
    method GenStmts(ss: seq<Stmt>) returns (res: Result<(), GenError>)
      modifies this
      ensures vars == old(vars) && blocks == old(blocks)
      ensures Produced(StmtsCode(vars, ss, old(labels)), old(output), output, labels, res)
      decreases ss, 0
    {
      ghost var done := Code([], labels);
      assert ss[..0] == [];
      for k := 0 to |ss|
        invariant vars == old(vars) && blocks == old(blocks)
        invariant StmtsCode(vars, ss[..k], old(labels)) == Ok(done)
        invariant output == old(output) + RenderAll(done.instrs) && labels == done.next
      {
        ghost var before := output;
        res := GenStmt(ss[k]);
        if res.Err? {
          StmtsCodeStops(vars, ss, k, old(labels), done, res.error);
          return;
        }
        ghost var d := StmtCode(vars, ss[k], done.next).value;
        StmtsCodeSnoc(vars, ss, k, old(labels), done, d);
        OutputThen(old(output), before, output, done.instrs, d.instrs);
        done := Code(done.instrs + d.instrs, d.next);
      }
      assert ss[..|ss|] == ss;
      res := Ok(());
    }
  }

  /** How a lowering ends, seen from the generator: on an error the same error is
      reported; otherwise the text of the instructions follows what was there before and
      the label counter has the value the lowering ends with. */
  ghost predicate Produced(c: Result<Code, GenError>, before: seq<string>, after: seq<string>, labels: int, res: Result<(), GenError>) {
    match c
    case Err(e) => res == Err(e)
    case Ok(code) => res == Ok(()) && after == before + RenderAll(code.instrs) && labels == code.next
  }

  /** One more line of a sequence of instructions. */
  lemma EmitStep(o: seq<string>, o1: seq<string>, o2: seq<string>, code: seq<Instr>, k: nat)
    requires k < |code|
    requires o1 == o + RenderAll(code[..k])
    requires o2 == o1 + [Render(code[k])]
    ensures o2 == o + RenderAll(code[..k + 1])
  {
    assert code[..k + 1] == code[..k] + [code[k]];
    RenderAllAppend(code[..k], [code[k]]);
    RenderAllOne(code[k]);
  }

  /** Text appended after text: the pieces of code joined. */
  lemma OutputThen(o: seq<string>, o1: seq<string>, o2: seq<string>, a: seq<Instr>, b: seq<Instr>)
    requires o1 == o + RenderAll(a)
    requires o2 == o1 + RenderAll(b)
    ensures o2 == o + RenderAll(a + b)
  {
    RenderAllAppend(a, b);
  }

  /** The code of an arithmetic or comparison node whose operands both lower without
      error. */
  lemma ArithCodeIs(vars: VarTable, b: BinExpr, n: int)
    requires IsArith(b.kind) || IsCompare(b.kind)
    requires RecCode(vars, b.lhs, n).Ok?
    requires RecCode(vars, b.rhs, RecCode(vars, b.lhs, n).value.next).Ok?
    ensures var l := RecCode(vars, b.lhs, n).value;
      var r := RecCode(vars, b.rhs, l.next).value;
      BinCode(vars, b, n) == Ok(Code(l.instrs + [PushRax] + r.instrs + ([MovRbxRax, PopRax] + OpTail(b.kind)), r.next))
  {
    var l := RecCode(vars, b.lhs, n).value;
    var r := RecCode(vars, b.rhs, l.next).value;
    assert l.instrs + [PushRax] + r.instrs + ([MovRbxRax, PopRax] + OpTail(b.kind))
        == l.instrs + [PushRax] + r.instrs + [MovRbxRax, PopRax] + OpTail(b.kind);
  }

  /** The code of a logical node whose operands both lower without error. */
  lemma LogicCodeIs(vars: VarTable, b: BinExpr, n: int)
    requires !(IsArith(b.kind) || IsCompare(b.kind))
    requires RecCode(vars, b.lhs, n + 1).Ok?
    requires RecCode(vars, b.rhs, RecCode(vars, b.lhs, n + 1).value.next).Ok?
    ensures var l := RecCode(vars, b.lhs, n + 1).value;
      var r := RecCode(vars, b.rhs, l.next).value;
      BinCode(vars, b, n) == Ok(Code(l.instrs + LogicMid(b.kind, n) + r.instrs + LogicTail(b.kind, n), r.next))
  {
  }

  /** The code of an `if` whose condition and body both lower without error. */
  /** The code after an `if`'s condition, with label number `id`. */
  ghost function GuardedCode(vars: VarTable, body: seq<Stmt>, id: int): Result<Code, GenError> {
    var b :- StmtsCode(vars, body, id + 1);
    Ok(Code([TestRaxRax, Je(Lbl(IfEnd, id))] + b.instrs + [LabelDef(Lbl(IfEnd, id))], b.next))
  }

  /** An `if`: its condition's code followed by the guarded body. */
  ghost function IfCode(vars: VarTable, cond: Expr, body: seq<Stmt>, n: int): Result<Code, GenError> {
    var c :- ExprCode(vars, cond, n);
    var t :- GuardedCode(vars, body, c.next);
    Ok(Code(c.instrs + t.instrs, t.next))
  }

  lemma IfCodeIs(vars: VarTable, cond: Expr, body: seq<Stmt>, n: int)
    ensures StmtCode(vars, If(cond, body), n) == IfCode(vars, cond, body, n)
  {
    var cc := ExprCode(vars, cond, n);
    if cc.Err? {
      IfCondFails(vars, cond, body, n, cc.error);
    } else {
      var bc := StmtsCode(vars, body, cc.value.next + 1);
      if bc.Err? {
        IfBodyFails(vars, cond, body, n, cc.value, bc.error);
      } else {
        IfLowers(vars, cond, body, n, cc.value, bc.value);
      }
    }
  }

  lemma IfCondFails(vars: VarTable, cond: Expr, body: seq<Stmt>, n: int, e: GenError)
    requires ExprCode(vars, cond, n) == Err(e)
    ensures StmtCode(vars, If(cond, body), n) == Err(e) == IfCode(vars, cond, body, n)
  {
  }

  lemma IfBodyFails(vars: VarTable, cond: Expr, body: seq<Stmt>, n: int, c: Code, e: GenError)
    requires ExprCode(vars, cond, n) == Ok(c)
    requires StmtsCode(vars, body, c.next + 1) == Err(e)
    ensures StmtCode(vars, If(cond, body), n) == Err(e) == IfCode(vars, cond, body, n)
  {
  }

  lemma IfLowers(vars: VarTable, cond: Expr, body: seq<Stmt>, n: int, c: Code, b: Code)
    requires ExprCode(vars, cond, n) == Ok(c)
    requires StmtsCode(vars, body, c.next + 1) == Ok(b)
    ensures StmtCode(vars, If(cond, body), n) == IfCode(vars, cond, body, n)
  {
    var l := Lbl(IfEnd, c.next);
    IfStmtCode(vars, cond, body, n, c, b);
    IfGuardedCode(vars, cond, body, n, c, b);
    Regroup(c.instrs, [TestRaxRax, Je(l)], b.instrs, [LabelDef(l)]);
  }

  lemma IfStmtCode(vars: VarTable, cond: Expr, body: seq<Stmt>, n: int, c: Code, b: Code)
    requires ExprCode(vars, cond, n) == Ok(c)
    requires StmtsCode(vars, body, c.next + 1) == Ok(b)
    ensures StmtCode(vars, If(cond, body), n)
         == Ok(Code(c.instrs + [TestRaxRax, Je(Lbl(IfEnd, c.next))] + b.instrs + [LabelDef(Lbl(IfEnd, c.next))], b.next))
  {
  }

  lemma IfGuardedCode(vars: VarTable, cond: Expr, body: seq<Stmt>, n: int, c: Code, b: Code)
    requires ExprCode(vars, cond, n) == Ok(c)
    requires StmtsCode(vars, body, c.next + 1) == Ok(b)
    ensures IfCode(vars, cond, body, n)
         == Ok(Code(c.instrs + ([TestRaxRax, Je(Lbl(IfEnd, c.next))] + b.instrs + [LabelDef(Lbl(IfEnd, c.next))]), b.next))
  {
  }

  lemma Regroup(a: seq<Instr>, x: seq<Instr>, b: seq<Instr>, y: seq<Instr>)
    ensures a + x + b + y == a + (x + b + y)
  {
  }

  /** One more statement of a list that lowers without error so far. */
  lemma StmtsCodeSnoc(vars: VarTable, ss: seq<Stmt>, k: nat, n: int, c: Code, d: Code)
    requires k < |ss|
    requires StmtsCode(vars, ss[..k], n) == Ok(c)
    requires StmtCode(vars, ss[k], c.next) == Ok(d)
    ensures StmtsCode(vars, ss[..k + 1], n) == Ok(Code(c.instrs + d.instrs, d.next))
  {
    assert ss[..k + 1][..k] == ss[..k];
  }

  /** A statement that fails stops the whole list with its error. */
  lemma StmtsCodeStops(vars: VarTable, ss: seq<Stmt>, k: nat, n: int, c: Code, e: GenError)
    requires k < |ss|
    requires StmtsCode(vars, ss[..k], n) == Ok(c)
    requires StmtCode(vars, ss[k], c.next) == Err(e)
    ensures StmtsCode(vars, ss, n) == Err(e)
  {
    assert ss[..k + 1][..k] == ss[..k];
    StmtsCodeErrPrefix(vars, ss, k + 1, n);
  }

  /** Once a prefix of a statement list fails, the whole list fails with that error. */
  lemma {:induction false} StmtsCodeErrPrefix(vars: VarTable, ss: seq<Stmt>, k: nat, n: int)
    requires k <= |ss|
    requires StmtsCode(vars, ss[..k], n).Err?
    ensures StmtsCode(vars, ss, n) == Err(StmtsCode(vars, ss[..k], n).error)
    decreases |ss|
  {
    if k < |ss| {
      var init := ss[..|ss| - 1];
      assert init[..k] == ss[..k];
      StmtsCodeErrPrefix(vars, init, k, n);
    } else {
      assert ss[..k] == ss;
    }
  }

  /** `generate_gen_data`: a fresh generator with the label counter reset, both slot
      passes, the prologue with the rounded frame, the statements and the final
      exit(0) sequence. `heapBlocks` is the block stack the allocation leaves. */
  method GenerateGenData(prog: seq<Stmt>, heapBlocks: Option<seq<seq<string>>>) returns (g: GenData, res: Result<(), GenError>)
    ensures fresh(g)
    ensures g.vars == Allocate(prog).vars
    ensures g.blocks == heapBlocks
    ensures ProgramCode(prog).Err? ==> res == Err(ProgramCode(prog).error)
    ensures ProgramCode(prog).Ok? ==> res == Ok(()) && g.output == RenderAll(ProgramCode(prog).value)
  {
    g := new GenData(heapBlocks);
    g.CollectVars(prog);
    var slots := g.AssignSlots(prog, 0);
    var bytes := slots * 8;
    if bytes > 0 {
      bytes := ((bytes + 15) / 16) * 16;
    }
    assert bytes == FrameBytes(slots);
    g.EmitAll(Prologue(bytes));
    ghost var pro := g.output;
    res := g.GenStmts(prog);
    if res.Err? {
      return;
    }
    ghost var body := StmtsCode(g.vars, prog, 0).value;
    ghost var o2 := g.output;
    OutputThen([], pro, o2, Prologue(bytes), body.instrs);
    g.EmitAll(Epilogue);
    OutputThen([], o2, g.output, Prologue(bytes) + body.instrs, Epilogue);
  }
}
