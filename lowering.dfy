/** What the generator emits for each node, as functions of the variable table and the
    label counter: every lowering returns the instructions and the counter after them,
    or the fatal error that stops the generator.

    The code is accumulator style: an expression leaves its value in rax; a binary
    arithmetic or comparison node evaluates its lhs, saves it with `push rax`, evaluates
    its rhs, moves it to rbx and restores the lhs with `pop rax`. `&&` and `||` jump over
    their rhs, an `if` jumps over its body when its condition is 0. */
module Lowering {
  import opened Wrappers
  import Tokens
  import opened Ast
  import opened Asm
  import opened Machine
  import opened Semantics
  import opened Slots

  /** The fatal errors of `lookup_var_slot`. */
  datatype GenError = UndefinedVar(name: string) | UnassignedVar(name: string)

  /** Emitted instructions and the label counter after them. */
  datatype Code = Code(instrs: seq<Instr>, next: int)

  /** `lookup_var_slot`: a name without an entry is undefined; an entry without a slot
      is an internal error. */
  function Lookup(vars: VarTable, name: string): (r: Result<int, GenError>)
    ensures r.Ok? <==> name in vars && vars[name] >= 0
    ensures r.Ok? ==> r.value == vars[name]
    ensures r == Err(UndefinedVar(name)) <==> name !in vars
  {
    if name !in vars then Err(UndefinedVar(name))
    else if vars[name] < 0 then Err(UnassignedVar(name))
    else Ok(vars[name])
  }

  /** The instructions after `pop rax` that combine rax (lhs) and rbx (rhs). */
  function OpTail(k: BinExprKind): seq<Instr>
    requires IsArith(k) || IsCompare(k)
  {
    match k
    case Add => [AddRaxRbx]
    case Minus => [SubRaxRbx]
    case Multi => [ImulRaxRbx]
    case Divide => [Cqo, IdivRbx]
    case Eq => [CmpRaxRbx, SetCC(E), MovzxRaxAl]
    case Neq => [CmpRaxRbx, SetCC(NE), MovzxRaxAl]
    case Lt => [CmpRaxRbx, SetCC(L), MovzxRaxAl]
    case Lte => [CmpRaxRbx, SetCC(LE), MovzxRaxAl]
    case Mr => [CmpRaxRbx, SetCC(G), MovzxRaxAl]
    case Mre => [CmpRaxRbx, SetCC(GE), MovzxRaxAl]
  }

  /** `gen_bindexpr_to_rax`. */
  function RecCode(vars: VarTable, r: Rec, n: int): Result<Code, GenError>
    decreases r, 0
  {
    match r
    case NullRec => Ok(Code([Comment("gen: NULL node")], n))
    case BinRec(b) => BinCode(vars, b, n)
    case NodeRec(e) =>
      match e
      case IntLitExpr(t) => Ok(Code([MovRaxImm(TokenText(t))], n))
      case IdentExpr(t) =>
        var slot :- Lookup(vars, TokenText(t));
        Ok(Code([LoadVar(SlotToOffset(slot))], n))
      case BinNode(b) => BinCode(vars, b, n)
      case _ => Ok(Code([Comment("gen: unsupported node kind " + IntToString(ExprKindNumber(e)))], n))
  }

  /** `gen_binexpr_to_rax`. `&&` and `||` take their label number before their lhs. */
  function BinCode(vars: VarTable, b: BinExpr, n: int): Result<Code, GenError>
    decreases b, 1
  {
    if IsArith(b.kind) || IsCompare(b.kind) then
      var l :- RecCode(vars, b.lhs, n);
      var r :- RecCode(vars, b.rhs, l.next);
      Ok(Code(l.instrs + [PushRax] + r.instrs + [MovRbxRax, PopRax] + OpTail(b.kind), r.next))
    else
      var l :- RecCode(vars, b.lhs, n + 1);
      var r :- RecCode(vars, b.rhs, l.next);
      Ok(Code(l.instrs + LogicMid(b.kind, n) + r.instrs + LogicTail(b.kind, n), r.next))
  }

  /** The label a logical node jumps to when its lhs decides the result, and the label
      after the node. */
  function ShortLabel(k: BinExprKind, id: int): Label {
    if k == And then Lbl(AndFalse, id) else Lbl(OrTrue, id)
  }

  function EndLabel(k: BinExprKind, id: int): Label {
    if k == And then Lbl(AndEnd, id) else Lbl(OrEnd, id)
  }

  function LogicMid(k: BinExprKind, id: int): seq<Instr> {
    [TestRaxRax, if k == And then Je(ShortLabel(k, id)) else Jne(ShortLabel(k, id))]
  }

  function LogicTail(k: BinExprKind, id: int): seq<Instr> {
    [TestRaxRax, SetCC(NE), MovzxRaxAl, Jmp(EndLabel(k, id)),
     LabelDef(ShortLabel(k, id)), MovRaxImm(if k == And then "0" else "1"),
     LabelDef(EndLabel(k, id))]
  }

  /** `gen_expr_to_rax` of the generator. */
  function ExprCode(vars: VarTable, e: Expr, n: int): Result<Code, GenError> {
    match e
    case IntLitExpr(t) => Ok(Code([MovRaxImm(TokenText(t))], n))
    case IdentExpr(t) =>
      var slot :- Lookup(vars, TokenText(t));
      Ok(Code([LoadVar(SlotToOffset(slot))], n))
    case BinNode(b) => BinCode(vars, b, n)
    case _ => Ok(Code([Comment("gen_expr: unknown kind " + IntToString(ExprKindNumber(e)))], n))
  }

  const ExitSeq: seq<Instr> := [MovRdiRax, MovRaxImm("60"), Syscall]

  /** `gen_stmt`. An `if` takes its label number after its condition's code; an `else`
      takes it before its body. */
  function StmtCode(vars: VarTable, s: Stmt, n: int): Result<Code, GenError>
    decreases s, 1
  {
    match s
    case Let(t, e) =>
      var c :- ExprCode(vars, e, n);
      var slot :- Lookup(vars, TokenText(t));
      Ok(Code(c.instrs + [StoreVar(SlotToOffset(slot))], c.next))
    case Exit(e) =>
      var c :- ExprCode(vars, e, n);
      Ok(Code(c.instrs + ExitSeq, c.next))
    case If(cond, body) =>
      var c :- ExprCode(vars, cond, n);
      var id := c.next;
      var b :- StmtsCode(vars, body, id + 1);
      Ok(Code(c.instrs + [TestRaxRax, Je(Lbl(IfEnd, id))] + b.instrs + [LabelDef(Lbl(IfEnd, id))], b.next))
    case Else(body) =>
      var b :- StmtsCode(vars, body, n + 1);
      Ok(Code(b.instrs + [LabelDef(Lbl(ElseEnd, n))], b.next))
    case _ => Ok(Code([Comment("gen_stmt: unknown stmt kind " + IntToString(StmtKindNumber(s)))], n))
  }

  function StmtsCode(vars: VarTable, ss: seq<Stmt>, n: int): Result<Code, GenError>
    decreases ss, 0
  {
    if ss == [] then Ok(Code([], n))
    else
      var c :- StmtsCode(vars, ss[..|ss| - 1], n);
      var d :- StmtCode(vars, ss[|ss| - 1], c.next);
      Ok(Code(c.instrs + d.instrs, d.next))
  }

  function Prologue(bytes: int): seq<Instr> {
    [GlobalStart, StartLabel, PushRbp, MovRbpRsp] + (if bytes > 0 then [SubRsp(bytes)] else [])
  }

  const Epilogue: seq<Instr> := [MovRaxImm("60"), MovRdiZero, Syscall]

  /** `generate_gen_data`: allocate the slots, reserve the frame, lower the statements
      with the label counter reset to 0, and exit with status 0 at the end. */
  function ProgramCode(prog: seq<Stmt>): Result<seq<Instr>, GenError> {
    var a := Allocate(prog);
    var body :- StmtsCode(a.vars, prog, 0);
    Ok(Prologue(FrameBytes(a.next)) + body.instrs + Epilogue)
  }

  // ---------------------------------------------------------------------------------
  // Structure of the emitted code

  /** The labels defined in `c`, in order. */
  function Defs(c: seq<Instr>): seq<Label> {
    if c == [] then []
    else Defs(c[..|c| - 1]) + (if c[|c| - 1].LabelDef? then [c[|c| - 1].defined] else [])
  }

  lemma {:induction false} DefsAppend(a: seq<Instr>, b: seq<Instr>)
    ensures Defs(a + b) == Defs(a) + Defs(b)
    decreases |b|
  {
    if b == [] {
      assert a + b == a;
    } else {
      assert (a + b)[..|a + b| - 1] == a + b[..|b| - 1];
      assert (a + b)[|a + b| - 1] == b[|b| - 1];
      DefsAppend(a, b[..|b| - 1]);
    }
  }

  lemma {:induction false} DefsMember(c: seq<Instr>, l: Label)
    ensures LabelDef(l) in c <==> l in Defs(c)
    decreases |c|
  {
    if c != [] {
      var init := c[..|c| - 1];
      DefsMember(init, l);
      assert c == init + [c[|c| - 1]];
    }
  }

  /** The family of a label kind: the construct (`&&`, `||`, `if`, `else`) it belongs to. */
  function Family(k: LabelKind): int {
    match k
    case AndFalse => 0
    case AndEnd => 0
    case OrTrue => 1
    case OrEnd => 1
    case IfEnd => 2
    case ElseEnd => 3
  }

  /** No label is defined twice, and two labels with the same number belong to the
      same construct. */
  predicate WellLabelled(ls: seq<Label>) {
    && (forall i, j :: 0 <= i < j < |ls| ==> ls[i] != ls[j])
    && (forall i, j :: 0 <= i < |ls| && 0 <= j < |ls| && ls[i].id == ls[j].id ==>
          Family(ls[i].kind) == Family(ls[j].kind))
  }

  predicate IdsWithin(ls: seq<Label>, lo: int, hi: int) {
    forall l :: l in ls ==> lo <= l.id < hi
  }

  lemma WellLabelledAppend(x: seq<Label>, lx: int, hx: int, y: seq<Label>, ly: int, hy: int)
    requires WellLabelled(x) && IdsWithin(x, lx, hx)
    requires WellLabelled(y) && IdsWithin(y, ly, hy)
    requires hx <= ly || hy <= lx
    ensures WellLabelled(x + y)
  {
    var z := x + y;
    forall i, j | 0 <= i < |z| && 0 <= j < |z| && z[i].id == z[j].id
      ensures Family(z[i].kind) == Family(z[j].kind)
    {
      if i < |x| { assert z[i] in x; } else { assert z[i] == y[i - |x|] && z[i] in y; }
      if j < |x| { assert z[j] in x; } else { assert z[j] == y[j - |x|] && z[j] in y; }
    }
    forall i, j | 0 <= i < j < |z| ensures z[i] != z[j] {
      if i < |x| { assert z[i] in x; } else { assert z[i] == y[i - |x|] && z[i] in y; }
      if j < |x| { assert z[j] in x; } else { assert z[j] == y[j - |x|] && z[j] in y; }
    }
  }

  /** How many times `x` occurs in `c`. */
  function Count(c: seq<Instr>, x: Instr): nat {
    if c == [] then 0 else Count(c[..|c| - 1], x) + (if c[|c| - 1] == x then 1 else 0)
  }

  lemma {:induction false} CountAppend(a: seq<Instr>, b: seq<Instr>, x: Instr)
    ensures Count(a + b, x) == Count(a, x) + Count(b, x)
    decreases |b|
  {
    if b == [] {
      assert a + b == a;
    } else {
      assert (a + b)[..|a + b| - 1] == a + b[..|b| - 1];
      assert (a + b)[|a + b| - 1] == b[|b| - 1];
      CountAppend(a, b[..|b| - 1], x);
    }
  }

  /** No instruction of `c` is a frame reservation (`sub rsp`). */
  predicate NoFrame(c: seq<Instr>) {
    forall k :: 0 <= k < |c| ==> !c[k].SubRsp?
  }

  /** Emitted code is self-contained: the counter only grows, every jump targets a label
      defined later in the same code, labels are numbered within the counter values the
      code consumed and are defined at most once, pushes and pops are balanced, and
      only the prologue reserves stack space. */
  predicate Shape(c: Code, n: int) {
    && n <= c.next
    && Closed(c.instrs)
    && WellLabelled(Defs(c.instrs))
    && IdsWithin(Defs(c.instrs), n, c.next)
    && Count(c.instrs, PushRax) == Count(c.instrs, PopRax)
    && NoFrame(c.instrs)
  }

  lemma JumpFreeClosed(c: seq<Instr>)
    requires forall k :: 0 <= k < |c| ==> !IsJump(c[k])
    ensures Closed(c)
  {
  }

  lemma ClosedJumpCons(j: Instr, q: seq<Instr>)
    requires IsJump(j) && LabelDef(JumpTarget(j)) in q && Closed(q)
    ensures Closed([j] + q)
  {
    var c := [j] + q;
    forall k | 0 <= k < |c| && IsJump(c[k]) ensures LabelDef(JumpTarget(c[k])) in c[k + 1..] {
      if k > 0 {
        assert c[k] == q[k - 1];
        assert c[k + 1..] == q[k..];
      } else {
        assert c[1..] == q;
      }
    }
  }

  lemma DefsOne(i: Instr)
    ensures Defs([i]) == (if i.LabelDef? then [i.defined] else [])
  {
    assert [i][..0] == [];
  }

  lemma One(i: Instr)
    ensures Defs([i]) == (if i.LabelDef? then [i.defined] else [])
    ensures Count([i], PushRax) == (if i == PushRax then 1 else 0)
    ensures Count([i], PopRax) == (if i == PopRax then 1 else 0)
    ensures !IsJump(i) ==> Closed([i])
  {
    assert [i][..0] == [];
  }

  lemma Join(a: seq<Instr>, b: seq<Instr>)
    ensures Defs(a + b) == Defs(a) + Defs(b)
    ensures Count(a + b, PushRax) == Count(a, PushRax) + Count(b, PushRax)
    ensures Count(a + b, PopRax) == Count(a, PopRax) + Count(b, PopRax)
    ensures Closed(a) && Closed(b) ==> Closed(a + b)
    ensures NoFrame(a) && NoFrame(b) ==> NoFrame(a + b)
  {
    DefsAppend(a, b);
    CountAppend(a, b, PushRax);
    CountAppend(a, b, PopRax);
    if Closed(a) && Closed(b) {
      ClosedAppend(a, b);
    }
    if NoFrame(a) && NoFrame(b) {
      forall k | 0 <= k < |a + b| ensures !(a + b)[k].SubRsp? {
        if k >= |a| { assert (a + b)[k] == b[k - |a|]; }
      }
    }
  }

  /** A leaf: one instruction, no label, no push. */
  lemma SingleShape(i: Instr, n: int)
    requires !IsJump(i) && !i.LabelDef? && i != PushRax && i != PopRax && !i.SubRsp?
    ensures Shape(Code([i], n), n)
  {
    One(i);
  }

  /** Code without jumps, labels, pushes, pops or frame reservation. */
  predicate Plain(c: seq<Instr>) {
    forall k :: 0 <= k < |c| ==>
      !IsJump(c[k]) && !c[k].LabelDef? && c[k] != PushRax && c[k] != PopRax && !c[k].SubRsp?
  }

  lemma {:induction false} PlainFacts(c: seq<Instr>)
    requires Plain(c)
    ensures Closed(c) && Defs(c) == [] && Count(c, PushRax) == 0 && Count(c, PopRax) == 0
    ensures NoFrame(c)
    decreases |c|
  {
    if c != [] {
      PlainFacts(c[..|c| - 1]);
    }
  }

  lemma {:induction false} NoLabels(c: seq<Instr>)
    requires forall k :: 0 <= k < |c| ==> !c[k].LabelDef?
    ensures Defs(c) == []
    decreases |c|
  {
    if c != [] {
      NoLabels(c[..|c| - 1]);
    }
  }

  lemma {:induction false} CountAbsent(c: seq<Instr>, x: Instr)
    requires forall k :: 0 <= k < |c| ==> c[k] != x
    ensures Count(c, x) == 0
    decreases |c|
  {
    if c != [] {
      CountAbsent(c[..|c| - 1], x);
    }
  }

  lemma NoFrameAppend(a: seq<Instr>, b: seq<Instr>)
    requires NoFrame(a) && NoFrame(b)
    ensures NoFrame(a + b)
  {
    forall k | 0 <= k < |a + b| ensures !(a + b)[k].SubRsp? {
      if k >= |a| { assert (a + b)[k] == b[k - |a|]; }
    }
  }

  // `lhs ; push rax ; rhs ; mov rbx, rax ; pop rax ; op`

  lemma ArithDefs(a: seq<Instr>, b: seq<Instr>, tail: seq<Instr>)
    requires Plain(tail)
    ensures Defs(a + [PushRax] + b + [MovRbxRax, PopRax] + tail) == Defs(a) + Defs(b)
  {
    PlainFacts(tail);
    NoLabels([PushRax]);
    NoLabels([MovRbxRax, PopRax]);
    DefsAppend(a, [PushRax]);
    DefsAppend(a + [PushRax], b);
    DefsAppend(a + [PushRax] + b, [MovRbxRax, PopRax]);
    DefsAppend(a + [PushRax] + b + [MovRbxRax, PopRax], tail);
  }

  lemma ArithCount(a: seq<Instr>, b: seq<Instr>, tail: seq<Instr>, x: Instr)
    requires Plain(tail) && (x == PushRax || x == PopRax)
    ensures Count(a + [PushRax] + b + [MovRbxRax, PopRax] + tail, x) == Count(a, x) + Count(b, x) + 1
  {
    PlainFacts(tail);
    One(PushRax);
    if x == PushRax {
      CountAbsent([MovRbxRax, PopRax], x);
    } else {
      CountAbsent([MovRbxRax], x);
      One(PopRax);
      CountAppend([MovRbxRax], [PopRax], x);
      assert [MovRbxRax] + [PopRax] == [MovRbxRax, PopRax];
    }
    CountAppend(a, [PushRax], x);
    CountAppend(a + [PushRax], b, x);
    CountAppend(a + [PushRax] + b, [MovRbxRax, PopRax], x);
    CountAppend(a + [PushRax] + b + [MovRbxRax, PopRax], tail, x);
  }

  lemma ArithClosed(a: seq<Instr>, b: seq<Instr>, tail: seq<Instr>)
    requires Plain(tail) && Closed(a) && Closed(b) && NoFrame(a) && NoFrame(b)
    ensures Closed(a + [PushRax] + b + [MovRbxRax, PopRax] + tail)
    ensures NoFrame(a + [PushRax] + b + [MovRbxRax, PopRax] + tail)
  {
    PlainFacts(tail);
    JumpFreeClosed([PushRax]);
    JumpFreeClosed([MovRbxRax, PopRax]);
    ClosedAppend(a, [PushRax]);
    ClosedAppend(a + [PushRax], b);
    ClosedAppend(a + [PushRax] + b, [MovRbxRax, PopRax]);
    ClosedAppend(a + [PushRax] + b + [MovRbxRax, PopRax], tail);
    NoFrameAppend(a, [PushRax]);
    NoFrameAppend(a + [PushRax], b);
    NoFrameAppend(a + [PushRax] + b, [MovRbxRax, PopRax]);
    NoFrameAppend(a + [PushRax] + b + [MovRbxRax, PopRax], tail);
  }

  lemma ArithShape(l: Code, r: Code, tail: seq<Instr>, n: int)
    requires Shape(l, n) && Shape(r, l.next) && Plain(tail)
    ensures Shape(Code(l.instrs + [PushRax] + r.instrs + [MovRbxRax, PopRax] + tail, r.next), n)
  {
    ArithDefs(l.instrs, r.instrs, tail);
    ArithCount(l.instrs, r.instrs, tail, PushRax);
    ArithCount(l.instrs, r.instrs, tail, PopRax);
    ArithClosed(l.instrs, r.instrs, tail);
    WellLabelledAppend(Defs(l.instrs), n, l.next, Defs(r.instrs), l.next, r.next);
  }

  // `lhs ; test rax, rax ; jcc short ; rhs ; test ; setne ; movzx ; jmp end ;
  //  short: ; mov rax, k ; end:`

  lemma LogicTailSplit(k: BinExprKind, id: int)
    ensures LogicTail(k, id) == [TestRaxRax, SetCC(NE), MovzxRaxAl, Jmp(EndLabel(k, id))]
      + [LabelDef(ShortLabel(k, id))] + [MovRaxImm(if k == And then "0" else "1")]
      + [LabelDef(EndLabel(k, id))]
  {
  }

  lemma LogicTailDefs(k: BinExprKind, id: int)
    ensures Defs(LogicTail(k, id)) == [ShortLabel(k, id), EndLabel(k, id)]
  {
    var s, e := ShortLabel(k, id), EndLabel(k, id);
    var t0: seq<Instr> := [TestRaxRax, SetCC(NE), MovzxRaxAl, Jmp(e)];
    var mov := MovRaxImm(if k == And then "0" else "1");
    LogicTailSplit(k, id);
    NoLabels(t0);
    DefsOne(LabelDef(s));
    DefsOne(mov);
    DefsOne(LabelDef(e));
    DefsAppend(t0, [LabelDef(s)]);
    DefsAppend(t0 + [LabelDef(s)], [mov]);
    DefsAppend(t0 + [LabelDef(s)] + [mov], [LabelDef(e)]);
  }

  lemma LogicTailClosed(k: BinExprKind, id: int)
    ensures Closed(LogicTail(k, id)) && NoFrame(LogicTail(k, id))
    ensures LabelDef(ShortLabel(k, id)) in LogicTail(k, id)
  {
    var s, e := ShortLabel(k, id), EndLabel(k, id);
    var mov := MovRaxImm(if k == And then "0" else "1");
    var t0: seq<Instr> := [TestRaxRax, SetCC(NE), MovzxRaxAl];
    var t1: seq<Instr> := [LabelDef(s), mov, LabelDef(e)];
    JumpFreeClosed(t0);
    JumpFreeClosed(t1);
    assert t1[2] == LabelDef(e);
    ClosedJumpCons(Jmp(e), t1);
    ClosedAppend(t0, [Jmp(e)] + t1);
    assert t0 + ([Jmp(e)] + t1) == LogicTail(k, id);
    assert LogicTail(k, id)[4] == LabelDef(s);
  }

  lemma LogicDefs(k: BinExprKind, id: int, a: seq<Instr>, b: seq<Instr>)
    ensures Defs(a + LogicMid(k, id) + b + LogicTail(k, id))
         == Defs(a) + Defs(b) + [ShortLabel(k, id), EndLabel(k, id)]
  {
    NoLabels(LogicMid(k, id));
    LogicTailDefs(k, id);
    DefsAppend(a, LogicMid(k, id));
    DefsAppend(a + LogicMid(k, id), b);
    DefsAppend(a + LogicMid(k, id) + b, LogicTail(k, id));
  }

  lemma LogicCount(k: BinExprKind, id: int, a: seq<Instr>, b: seq<Instr>, x: Instr)
    requires x == PushRax || x == PopRax
    ensures Count(a + LogicMid(k, id) + b + LogicTail(k, id), x) == Count(a, x) + Count(b, x)
  {
    CountAbsent(LogicMid(k, id), x);
    CountAbsent(LogicTail(k, id), x);
    CountAppend(a, LogicMid(k, id), x);
    CountAppend(a + LogicMid(k, id), b, x);
    CountAppend(a + LogicMid(k, id) + b, LogicTail(k, id), x);
  }

  lemma LogicClosed(k: BinExprKind, id: int, a: seq<Instr>, b: seq<Instr>)
    requires Closed(a) && Closed(b) && NoFrame(a) && NoFrame(b)
    ensures Closed(a + LogicMid(k, id) + b + LogicTail(k, id))
    ensures NoFrame(a + LogicMid(k, id) + b + LogicTail(k, id))
  {
    var mid, tail := LogicMid(k, id), LogicTail(k, id);
    var j := mid[1];
    LogicTailClosed(k, id);
    ClosedAppend(b, tail);
    assert LabelDef(JumpTarget(j)) in b + tail;
    ClosedJumpCons(j, b + tail);
    JumpFreeClosed([TestRaxRax]);
    ClosedAppend([TestRaxRax], [j] + (b + tail));
    ClosedAppend(a, [TestRaxRax] + ([j] + (b + tail)));
    assert a + ([TestRaxRax] + ([j] + (b + tail))) == a + mid + b + tail;
    NoFrameAppend(a, mid);
    NoFrameAppend(a + mid, b);
    NoFrameAppend(a + mid + b, tail);
  }

  lemma LogicLabels(k: BinExprKind, n: int)
    requires k == And || k == Or
    ensures WellLabelled([ShortLabel(k, n), EndLabel(k, n)])
    ensures IdsWithin([ShortLabel(k, n), EndLabel(k, n)], n, n + 1)
  {
  }

  lemma IdsWithinAppend(x: seq<Label>, y: seq<Label>, lo: int, mid: int, hi: int)
    requires IdsWithin(x, lo, mid) && IdsWithin(y, mid, hi) && lo <= mid <= hi
    ensures IdsWithin(x + y, lo, hi)
  {
  }

  lemma LogicShape(k: BinExprKind, l: Code, r: Code, n: int)
    requires k == And || k == Or
    requires Shape(l, n + 1) && Shape(r, l.next)
    ensures Shape(Code(l.instrs + LogicMid(k, n) + r.instrs + LogicTail(k, n), r.next), n)
  {
    var ls, lr, lt := Defs(l.instrs), Defs(r.instrs), [ShortLabel(k, n), EndLabel(k, n)];
    LogicDefs(k, n, l.instrs, r.instrs);
    LogicCount(k, n, l.instrs, r.instrs, PushRax);
    LogicCount(k, n, l.instrs, r.instrs, PopRax);
    LogicClosed(k, n, l.instrs, r.instrs);
    LogicLabels(k, n);
    WellLabelledAppend(ls, n + 1, l.next, lr, l.next, r.next);
    IdsWithinAppend(ls, lr, n + 1, l.next, r.next);
    WellLabelledAppend(ls + lr, n + 1, r.next, lt, n, n + 1);
    assert IdsWithin(ls + lr + lt, n, r.next);
  }

  lemma {:induction false} RecShape(vars: VarTable, r: Rec, n: int)
    requires RecCode(vars, r, n).Ok?
    ensures Shape(RecCode(vars, r, n).value, n)
    decreases r, 0
  {
    match r
    case NullRec => SingleShape(Comment("gen: NULL node"), n);
    case BinRec(b) => BinShape(vars, b, n);
    case NodeRec(e) =>
      match e
      case IntLitExpr(t) => SingleShape(MovRaxImm(TokenText(t)), n);
      case IdentExpr(t) => SingleShape(LoadVar(SlotToOffset(vars[TokenText(t)])), n);
      case BinNode(b) => BinShape(vars, b, n);
      case _ => SingleShape(Comment("gen: unsupported node kind " + IntToString(ExprKindNumber(e))), n);
  }

  lemma {:induction false} BinShape(vars: VarTable, b: BinExpr, n: int)
    requires BinCode(vars, b, n).Ok?
    ensures Shape(BinCode(vars, b, n).value, n)
    decreases b, 1
  {
    if IsArith(b.kind) || IsCompare(b.kind) {
      RecShape(vars, b.lhs, n);
      var l := RecCode(vars, b.lhs, n).value;
      RecShape(vars, b.rhs, l.next);
      var r := RecCode(vars, b.rhs, l.next).value;
      OpTailPlain(b.kind);
      ArithShape(l, r, OpTail(b.kind), n);
    } else {
      RecShape(vars, b.lhs, n + 1);
      var l := RecCode(vars, b.lhs, n + 1).value;
      RecShape(vars, b.rhs, l.next);
      var r := RecCode(vars, b.rhs, l.next).value;
      LogicShape(b.kind, l, r, n);
    }
  }

  lemma OpTailPlain(k: BinExprKind)
    requires IsArith(k) || IsCompare(k)
    ensures Plain(OpTail(k))
  {
  }

  lemma ExprShape(vars: VarTable, e: Expr, n: int)
    requires ExprCode(vars, e, n).Ok?
    ensures Shape(ExprCode(vars, e, n).value, n)
  {
    match e
    case IntLitExpr(t) => SingleShape(MovRaxImm(TokenText(t)), n);
    case IdentExpr(t) => SingleShape(LoadVar(SlotToOffset(vars[TokenText(t)])), n);
    case BinNode(b) => BinShape(vars, b, n);
    case _ => SingleShape(Comment("gen_expr: unknown kind " + IntToString(ExprKindNumber(e))), n);
  }

  /** Joining self-contained code consuming consecutive counter ranges. */
  lemma JoinShape(a: Code, b: Code, n: int)
    requires Shape(a, n) && Shape(b, a.next)
    ensures Shape(Code(a.instrs + b.instrs, b.next), n)
  {
    Join(a.instrs, b.instrs);
    WellLabelledAppend(Defs(a.instrs), n, a.next, Defs(b.instrs), a.next, b.next);
  }

  /** Code followed by the definition of a label numbered just below the code's range. */
  lemma LabelAfterShape(c: Code, l: Label, lo: int)
    requires Shape(c, l.id + 1) && lo == l.id
    ensures Shape(Code(c.instrs + [LabelDef(l)], c.next), lo)
  {
    One(LabelDef(l));
    Join(c.instrs, [LabelDef(l)]);
    WellLabelledAppend(Defs(c.instrs), l.id + 1, c.next, [l], l.id, l.id + 1);
  }

  /** Code followed by plain instructions. */
  lemma PlainAfterShape(c: Code, p: seq<Instr>, n: int)
    requires Shape(c, n) && Plain(p)
    ensures Shape(Code(c.instrs + p, c.next), n)
  {
    PlainFacts(p);
    Join(c.instrs, p);
  }

  // `cond ; test rax, rax ; je end ; body ; end:`

  lemma Defs4(a: seq<Instr>, m: seq<Instr>, b: seq<Instr>, t: seq<Instr>)
    ensures Defs(a + m + b + t) == Defs(a) + Defs(m) + Defs(b) + Defs(t)
  {
    DefsAppend(a, m);
    DefsAppend(a + m, b);
    DefsAppend(a + m + b, t);
  }

  lemma IfDefs(a: seq<Instr>, b: seq<Instr>, l: Label)
    ensures Defs(a + [TestRaxRax, Je(l)] + b + [LabelDef(l)]) == Defs(a) + Defs(b) + [l]
  {
    NoLabels([TestRaxRax, Je(l)]);
    DefsOne(LabelDef(l));
    Defs4(a, [TestRaxRax, Je(l)], b, [LabelDef(l)]);
  }

  lemma IfCount(a: seq<Instr>, b: seq<Instr>, l: Label, x: Instr)
    requires x == PushRax || x == PopRax
    ensures Count(a + [TestRaxRax, Je(l)] + b + [LabelDef(l)], x) == Count(a, x) + Count(b, x)
  {
    CountAbsent([TestRaxRax, Je(l)], x);
    CountAbsent([LabelDef(l)], x);
    CountAppend(a, [TestRaxRax, Je(l)], x);
    CountAppend(a + [TestRaxRax, Je(l)], b, x);
    CountAppend(a + [TestRaxRax, Je(l)] + b, [LabelDef(l)], x);
  }

  lemma IfClosed(a: seq<Instr>, b: seq<Instr>, l: Label)
    requires Closed(a) && Closed(b) && NoFrame(a) && NoFrame(b)
    ensures Closed(a + [TestRaxRax, Je(l)] + b + [LabelDef(l)])
    ensures NoFrame(a + [TestRaxRax, Je(l)] + b + [LabelDef(l)])
  {
    JumpFreeClosed([LabelDef(l)]);
    ClosedAppend(b, [LabelDef(l)]);
    assert (b + [LabelDef(l)])[|b|] == LabelDef(l);
    ClosedJumpCons(Je(l), b + [LabelDef(l)]);
    JumpFreeClosed([TestRaxRax]);
    ClosedAppend([TestRaxRax], [Je(l)] + (b + [LabelDef(l)]));
    ClosedAppend(a, [TestRaxRax] + ([Je(l)] + (b + [LabelDef(l)])));
    assert a + ([TestRaxRax] + ([Je(l)] + (b + [LabelDef(l)]))) == a + [TestRaxRax, Je(l)] + b + [LabelDef(l)];
    NoFrameAppend(a, [TestRaxRax, Je(l)]);
    NoFrameAppend(a + [TestRaxRax, Je(l)], b);
    NoFrameAppend(a + [TestRaxRax, Je(l)] + b, [LabelDef(l)]);
  }

  lemma IfShape(c: Code, b: Code, n: int)
    requires Shape(c, n) && Shape(b, c.next + 1)
    ensures Shape(Code(c.instrs + [TestRaxRax, Je(Lbl(IfEnd, c.next))] + b.instrs
                       + [LabelDef(Lbl(IfEnd, c.next))], b.next), n)
  {
    var l := Lbl(IfEnd, c.next);
    IfDefs(c.instrs, b.instrs, l);
    IfCount(c.instrs, b.instrs, l, PushRax);
    IfCount(c.instrs, b.instrs, l, PopRax);
    IfClosed(c.instrs, b.instrs, l);
    WellLabelledAppend(Defs(c.instrs), n, c.next, Defs(b.instrs), c.next + 1, b.next);
    var x := Defs(c.instrs) + Defs(b.instrs);
    assert forall m :: m in x ==> m.id != l.id;
    assert WellLabelled(x + [l]) by {
      forall i, j | 0 <= i < j < |x + [l]| ensures (x + [l])[i] != (x + [l])[j] {
        if j == |x| { assert (x + [l])[i] in x; }
      }
      forall i, j | 0 <= i < |x + [l]| && 0 <= j < |x + [l]| && (x + [l])[i].id == (x + [l])[j].id
        ensures Family((x + [l])[i].kind) == Family((x + [l])[j].kind)
      {
        if i < |x| { assert (x + [l])[i] in x; }
        if j < |x| { assert (x + [l])[j] in x; }
      }
    }
  }

  lemma {:induction false} StmtShape(vars: VarTable, s: Stmt, n: int)
    requires StmtCode(vars, s, n).Ok?
    ensures Shape(StmtCode(vars, s, n).value, n)
    decreases s, 1
  {
    if s.Let? {
      LetShape(vars, s.ident, s.expr, n);
    } else if s.Exit? {
      ExitShape(vars, s.expr, n);
    } else if s.If? {
      var c := ExprCode(vars, s.cond, n).value;
      StmtsShape(vars, s.body, c.next + 1);
      IfStmtShape(vars, s.cond, s.body, n);
    } else if s.Else? {
      StmtsShape(vars, s.body, n + 1);
      ElseShape(vars, s.body, n);
    } else {
      SingleShape(Comment("gen_stmt: unknown stmt kind " + IntToString(StmtKindNumber(s))), n);
    }
  }

  lemma LetShape(vars: VarTable, t: Tokens.Token, e: Expr, n: int)
    requires StmtCode(vars, Let(t, e), n).Ok?
    ensures Shape(StmtCode(vars, Let(t, e), n).value, n)
  {
    var c := ExprCode(vars, e, n).value;
    var slot := Lookup(vars, TokenText(t)).value;
    assert StmtCode(vars, Let(t, e), n).value == Code(c.instrs + [StoreVar(SlotToOffset(slot))], c.next);
    ExprShape(vars, e, n);
    PlainAfterShape(c, [StoreVar(SlotToOffset(slot))], n);
  }

  lemma ExitShape(vars: VarTable, e: Expr, n: int)
    requires StmtCode(vars, Exit(e), n).Ok?
    ensures Shape(StmtCode(vars, Exit(e), n).value, n)
  {
    ExprShape(vars, e, n);
    PlainAfterShape(ExprCode(vars, e, n).value, ExitSeq, n);
  }

  lemma IfStmtShape(vars: VarTable, cond: Expr, body: seq<Stmt>, n: int)
    requires StmtCode(vars, If(cond, body), n).Ok?
    requires Shape(StmtsCode(vars, body, ExprCode(vars, cond, n).value.next + 1).value,
                   ExprCode(vars, cond, n).value.next + 1)
    ensures Shape(StmtCode(vars, If(cond, body), n).value, n)
  {
    ExprShape(vars, cond, n);
    var c := ExprCode(vars, cond, n).value;
    var b := StmtsCode(vars, body, c.next + 1).value;
    assert StmtCode(vars, If(cond, body), n).value
        == Code(c.instrs + [TestRaxRax, Je(Lbl(IfEnd, c.next))] + b.instrs + [LabelDef(Lbl(IfEnd, c.next))], b.next);
    IfShape(c, b, n);
  }

  lemma ElseShape(vars: VarTable, body: seq<Stmt>, n: int)
    requires StmtCode(vars, Else(body), n).Ok?
    requires Shape(StmtsCode(vars, body, n + 1).value, n + 1)
    ensures Shape(StmtCode(vars, Else(body), n).value, n)
  {
    var b := StmtsCode(vars, body, n + 1).value;
    assert StmtCode(vars, Else(body), n) == Ok(Code(b.instrs + [LabelDef(Lbl(ElseEnd, n))], b.next));
    LabelAfterShape(b, Lbl(ElseEnd, n), n);
  }

  lemma {:induction false} StmtsShape(vars: VarTable, ss: seq<Stmt>, n: int)
    requires StmtsCode(vars, ss, n).Ok?
    ensures Shape(StmtsCode(vars, ss, n).value, n)
    decreases ss, 0
  {
    if ss == [] {
      assert Defs([]) == [];
      assert Count([], PushRax) == 0 == Count([], PopRax);
    } else {
      StmtsShape(vars, ss[..|ss| - 1], n);
      var c := StmtsCode(vars, ss[..|ss| - 1], n).value;
      StmtShape(vars, ss[|ss| - 1], c.next);
      JoinShape(c, StmtCode(vars, ss[|ss| - 1], c.next).value, n);
    }
  }

  /** The listing starts with the entry point and the frame set-up, reserves the
      rounded frame right after it and nowhere else (and not at all when it is empty),
      and ends with an exit with status 0; every jump targets a later label, no label is
      defined twice, and the statements' pushes and pops are balanced. */
  lemma ProgramShape(prog: seq<Stmt>)
    requires ProgramCode(prog).Ok?
    ensures var listing := ProgramCode(prog).value; var bytes := FrameBytes(Allocate(prog).next);
      && |listing| >= 7
      && listing[..4] == [GlobalStart, StartLabel, PushRbp, MovRbpRsp]
      && (bytes > 0 ==> listing[4] == SubRsp(bytes))
      && (forall k :: 0 <= k < |listing| && listing[k].SubRsp? ==> k == 4 && bytes > 0)
      && listing[|listing| - 3..] == [MovRaxImm("60"), MovRdiZero, Syscall]
      && Closed(listing)
      && WellLabelled(Defs(listing))
      && Count(listing, PushRax) == Count(listing, PopRax)
  {
    var a := Allocate(prog);
    var body := StmtsCode(a.vars, prog, 0).value;
    StmtsShape(a.vars, prog, 0);
    var bytes := FrameBytes(a.next);
    assert ProgramCode(prog).value == Prologue(bytes) + body.instrs + Epilogue;
    ListingShape(bytes, body);
  }

  lemma ListingShape(bytes: int, body: Code)
    requires Shape(body, 0)
    ensures var listing := Prologue(bytes) + body.instrs + Epilogue;
      && |listing| >= 7
      && listing[..4] == [GlobalStart, StartLabel, PushRbp, MovRbpRsp]
      && (bytes > 0 ==> listing[4] == SubRsp(bytes))
      && (forall k :: 0 <= k < |listing| && listing[k].SubRsp? ==> k == 4 && bytes > 0)
      && listing[|listing| - 3..] == [MovRaxImm("60"), MovRdiZero, Syscall]
      && Closed(listing)
      && WellLabelled(Defs(listing))
      && Count(listing, PushRax) == Count(listing, PopRax)
  {
    ProloguePieces(bytes);
    assert Plain(Epilogue);
    PlainFacts(Epilogue);
    ListingStructure(Prologue(bytes), body, Epilogue);
    ListingEnds(bytes, body.instrs);
    ListingFrame(bytes, body.instrs);
  }

  lemma ListingStructure(pro: seq<Instr>, body: Code, epi: seq<Instr>)
    requires Shape(body, 0)
    requires Closed(pro) && Defs(pro) == [] && Count(pro, PushRax) == 0 && Count(pro, PopRax) == 0
    requires Closed(epi) && Defs(epi) == [] && Count(epi, PushRax) == 0 && Count(epi, PopRax) == 0
    ensures var listing := pro + body.instrs + epi;
      && Closed(listing)
      && WellLabelled(Defs(listing))
      && Count(listing, PushRax) == Count(listing, PopRax)
  {
    Join(pro, body.instrs);
    Join(pro + body.instrs, epi);
  }

  lemma ListingEnds(bytes: int, body: seq<Instr>)
    ensures var listing := Prologue(bytes) + body + Epilogue;
      && |listing| >= 7
      && listing[..4] == [GlobalStart, StartLabel, PushRbp, MovRbpRsp]
      && (bytes > 0 ==> listing[4] == SubRsp(bytes))
      && listing[|listing| - 3..] == [MovRaxImm("60"), MovRdiZero, Syscall]
  {
    ProloguePieces(bytes);
    assert (Prologue(bytes) + body + Epilogue)[|Prologue(bytes) + body + Epilogue| - 3..] == Epilogue;
  }

  lemma ListingFrame(bytes: int, body: seq<Instr>)
    requires NoFrame(body)
    ensures var listing := Prologue(bytes) + body + Epilogue;
      forall k :: 0 <= k < |listing| && listing[k].SubRsp? ==> k == 4 && bytes > 0
  {
    var pro := Prologue(bytes);
    PrologueFrame(bytes);
    assert NoFrame(Epilogue);
    NoFrameAppend(body, Epilogue);
    FrameOnlyAtStart(pro, body + Epilogue, if bytes > 0 then 4 else -1);
    assert pro + body + Epilogue == pro + (body + Epilogue);
  }

  lemma PrologueFrame(bytes: int)
    ensures forall k :: 0 <= k < |Prologue(bytes)| && Prologue(bytes)[k].SubRsp? ==>
              k == if bytes > 0 then 4 else -1
  {
  }

  lemma FrameOnlyAtStart(pro: seq<Instr>, rest: seq<Instr>, at: int)
    requires NoFrame(rest)
    requires forall k :: 0 <= k < |pro| && pro[k].SubRsp? ==> k == at
    ensures forall k :: 0 <= k < |pro + rest| && (pro + rest)[k].SubRsp? ==> k == at
  {
    forall k | 0 <= k < |pro + rest| && k != at ensures !(pro + rest)[k].SubRsp? {
      if k < |pro| {
        assert (pro + rest)[k] == pro[k];
      } else {
        assert (pro + rest)[k] == rest[k - |pro|];
      }
    }
  }

  lemma ProloguePieces(bytes: int)
    ensures var pro := Prologue(bytes);
      && Closed(pro) && Defs(pro) == [] && Count(pro, PushRax) == 0 && Count(pro, PopRax) == 0
      && |pro| == (if bytes > 0 then 5 else 4)
      && (forall k :: 0 <= k < |pro| && pro[k].SubRsp? ==> k == 4)
      && pro[..4] == [GlobalStart, StartLabel, PushRbp, MovRbpRsp]
      && (bytes > 0 ==> pro[4] == SubRsp(bytes))
  {
    PrologueCode(bytes);
    PrologueFrame(bytes);
  }

  lemma PrologueCode(bytes: int)
    ensures var pro := Prologue(bytes);
      Closed(pro) && Defs(pro) == [] && Count(pro, PushRax) == 0 && Count(pro, PopRax) == 0
  {
    var head: seq<Instr> := [GlobalStart, StartLabel, PushRbp, MovRbpRsp];
    PrologueHead(head);
    if bytes > 0 {
      assert Prologue(bytes) == head + [SubRsp(bytes)];
      FrameAfter(head, bytes);
    } else {
      assert Prologue(bytes) == head;
    }
  }

  lemma FrameAfter(head: seq<Instr>, bytes: int)
    requires Closed(head) && Defs(head) == [] && Count(head, PushRax) == 0 && Count(head, PopRax) == 0
    ensures var pro := head + [SubRsp(bytes)];
      Closed(pro) && Defs(pro) == [] && Count(pro, PushRax) == 0 && Count(pro, PopRax) == 0
  {
    One(SubRsp(bytes));
    Join(head, [SubRsp(bytes)]);
  }

  lemma PrologueHead(head: seq<Instr>)
    requires head == [GlobalStart, StartLabel, PushRbp, MovRbpRsp]
    ensures Closed(head) && Defs(head) == [] && Count(head, PushRax) == 0 && Count(head, PopRax) == 0
  {
    assert Plain(head);
    PlainFacts(head);
  }

  // ---------------------------------------------------------------------------------
  // The fatal errors

  predicate AllAssigned(vars: VarTable) {
    forall x :: x in vars ==> vars[x] >= 0
  }

  /** With a table in which every entry has a slot, the only fatal error left is a use
      of a name that has no entry: the "slot unassigned" check never fires. */
  lemma {:induction false} RecErrors(vars: VarTable, r: Rec, n: int)
    requires AllAssigned(vars) && RecCode(vars, r, n).Err?
    ensures RecCode(vars, r, n).error.UndefinedVar? && RecCode(vars, r, n).error.name !in vars
    decreases r, 0
  {
    match r
    case BinRec(b) => BinErrors(vars, b, n);
    case NodeRec(e) =>
      if e.BinNode? {
        BinErrors(vars, e.bin, n);
      }
    case NullRec =>
  }

  lemma {:induction false} BinErrors(vars: VarTable, b: BinExpr, n: int)
    requires AllAssigned(vars) && BinCode(vars, b, n).Err?
    ensures BinCode(vars, b, n).error.UndefinedVar? && BinCode(vars, b, n).error.name !in vars
    decreases b, 1
  {
    var n0 := if IsArith(b.kind) || IsCompare(b.kind) then n else n + 1;
    if RecCode(vars, b.lhs, n0).Err? {
      RecErrors(vars, b.lhs, n0);
    } else {
      RecErrors(vars, b.rhs, RecCode(vars, b.lhs, n0).value.next);
    }
  }

  lemma ExprErrors(vars: VarTable, e: Expr, n: int)
    requires AllAssigned(vars) && ExprCode(vars, e, n).Err?
    ensures ExprCode(vars, e, n).error.UndefinedVar? && ExprCode(vars, e, n).error.name !in vars
  {
    if e.BinNode? {
      BinErrors(vars, e.bin, n);
    }
  }

  lemma {:induction false} StmtErrors(vars: VarTable, s: Stmt, n: int)
    requires AllAssigned(vars) && StmtCode(vars, s, n).Err?
    ensures StmtCode(vars, s, n).error.UndefinedVar? && StmtCode(vars, s, n).error.name !in vars
    decreases s, 1
  {
    match s
    case Let(t, e) =>
      if ExprCode(vars, e, n).Err? { ExprErrors(vars, e, n); }
    case Exit(e) => ExprErrors(vars, e, n);
    case If(cond, body) =>
      if ExprCode(vars, cond, n).Err? {
        ExprErrors(vars, cond, n);
      } else {
        StmtsErrors(vars, body, ExprCode(vars, cond, n).value.next + 1);
      }
    case Else(body) => StmtsErrors(vars, body, n + 1);
    case _ =>
  }

  lemma {:induction false} StmtsErrors(vars: VarTable, ss: seq<Stmt>, n: int)
    requires AllAssigned(vars) && StmtsCode(vars, ss, n).Err?
    ensures StmtsCode(vars, ss, n).error.UndefinedVar? && StmtsCode(vars, ss, n).error.name !in vars
    decreases ss, 0
  {
    var init := ss[..|ss| - 1];
    if StmtsCode(vars, init, n).Err? {
      StmtsErrors(vars, init, n);
    } else {
      StmtErrors(vars, ss[|ss| - 1], StmtsCode(vars, init, n).value.next);
    }
  }

  /** Generation of a program fails only on a use of a name no `let` visited by the
      allocator declares ("Undefined variable at codegen"). */
  lemma ProgramErrors(prog: seq<Stmt>)
    requires ProgramCode(prog).Err?
    ensures ProgramCode(prog).error.UndefinedVar?
    ensures ProgramCode(prog).error.name !in Decls(prog)
  {
    AllocateSpec(prog);
    var a := Allocate(prog);
    assert AllAssigned(a.vars);
    StmtsErrors(a.vars, prog, 0);
  }

  // ---------------------------------------------------------------------------------
  // The names the code looks up

  /** The names whose slots the code of a child reads. */
  function RecUses(r: Rec): set<string>
    decreases r, 0
  {
    match r
    case BinRec(b) => BinUses(b)
    case NodeRec(e) => ExprUses(e)
    case NullRec => {}
  }

  function BinUses(b: BinExpr): set<string>
    decreases b, 1
  {
    RecUses(b.lhs) + RecUses(b.rhs)
  }

  /** The names an expression reads: its identifiers, through binary nodes. */
  function ExprUses(e: Expr): set<string>
    decreases e, 2
  {
    match e
    case IdentExpr(t) => {TokenText(t)}
    case BinNode(b) => BinUses(b)
    case _ => {}
  }

  /** The names a statement reads or writes: a `let` stores to its own name, and only
      the statement kinds the generator lowers contribute. */
  function StmtUses(s: Stmt): set<string>
    decreases s, 1
  {
    match s
    case Let(t, e) => ExprUses(e) + {TokenText(t)}
    case Exit(e) => ExprUses(e)
    case If(cond, body) => ExprUses(cond) + StmtsUses(body)
    case Else(body) => StmtsUses(body)
    case _ => {}
  }

  function StmtsUses(ss: seq<Stmt>): set<string>
    decreases ss, 0
  {
    if ss == [] then {} else StmtsUses(ss[..|ss| - 1]) + StmtUses(ss[|ss| - 1])
  }

  /** With every entry assigned, a child's code is produced exactly when every name it
      reads has an entry. */
  lemma {:induction false} RecCodeOk(vars: VarTable, r: Rec, n: int)
    requires AllAssigned(vars)
    ensures RecCode(vars, r, n).Ok? <==> RecUses(r) <= vars.Keys
    decreases r, 0
  {
    match r
    case BinRec(b) => BinCodeOk(vars, b, n);
    case NodeRec(e) =>
      if e.BinNode? {
        BinCodeOk(vars, e.bin, n);
      }
    case NullRec =>
  }

  lemma {:induction false} BinCodeOk(vars: VarTable, b: BinExpr, n: int)
    requires AllAssigned(vars)
    ensures BinCode(vars, b, n).Ok? <==> BinUses(b) <= vars.Keys
    decreases b, 1
  {
    var n0 := if IsArith(b.kind) || IsCompare(b.kind) then n else n + 1;
    RecCodeOk(vars, b.lhs, n0);
    if RecCode(vars, b.lhs, n0).Ok? {
      RecCodeOk(vars, b.rhs, RecCode(vars, b.lhs, n0).value.next);
    }
  }

  lemma ExprCodeOk(vars: VarTable, e: Expr, n: int)
    requires AllAssigned(vars)
    ensures ExprCode(vars, e, n).Ok? <==> ExprUses(e) <= vars.Keys
  {
    if e.BinNode? {
      BinCodeOk(vars, e.bin, n);
    }
  }

  lemma {:induction false} StmtCodeOk(vars: VarTable, s: Stmt, n: int)
    requires AllAssigned(vars)
    ensures StmtCode(vars, s, n).Ok? <==> StmtUses(s) <= vars.Keys
    decreases s, 1
  {
    match s
    case Let(t, e) => ExprCodeOk(vars, e, n);
    case Exit(e) => ExprCodeOk(vars, e, n);
    case If(cond, body) =>
      ExprCodeOk(vars, cond, n);
      if ExprCode(vars, cond, n).Ok? {
        StmtsCodeOk(vars, body, ExprCode(vars, cond, n).value.next + 1);
      }
    case Else(body) => StmtsCodeOk(vars, body, n + 1);
    case _ =>
  }

  lemma {:induction false} StmtsCodeOk(vars: VarTable, ss: seq<Stmt>, n: int)
    requires AllAssigned(vars)
    ensures StmtsCode(vars, ss, n).Ok? <==> StmtsUses(ss) <= vars.Keys
    decreases ss, 0
  {
    if ss != [] {
      var init := ss[..|ss| - 1];
      StmtsCodeOk(vars, init, n);
      if StmtsCode(vars, init, n).Ok? {
        StmtCodeOk(vars, ss[|ss| - 1], StmtsCode(vars, init, n).value.next);
      }
    }
  }

  /** Generation of a program succeeds exactly when every name its code reads is
      declared by a `let` the allocator visits; otherwise it stops with an undefined
      variable. */
  lemma ProgramCodeOk(prog: seq<Stmt>)
    ensures ProgramCode(prog).Ok? <==> StmtsUses(prog) <= (set x | x in Decls(prog))
  {
    AllocateSpec(prog);
    var a := Allocate(prog);
    assert AllAssigned(a.vars);
    assert a.vars.Keys == (set x | x in Decls(prog));
    StmtsCodeOk(a.vars, prog, 0);
  }
}
