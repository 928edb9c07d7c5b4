/** An abstract x86-64 machine for the generated instructions: the registers the generator
    uses (rax, rbx, al, rdi, rbp), the comparison flags, the push/pop stack, the frame
    cells addressed relative to rbp, and whether the program is still running.

    Integers are unbounded: 64-bit wrap-around of `add`, `sub` and `imul` is not modelled.
    `idiv` truncates toward zero, as the hardware does, and traps on a zero divisor. */
module Machine {
  import opened Wrappers
  import opened Asm

  /** `Exited(code)` holds the whole of rdi as the `exit` system call receives it. */
  datatype Status = Running | Exited(code: int) | Trapped

  /** The status a waiting parent reads for `Exited(code)`: the kernel keeps the low
      eight bits of rdi, which for a two's-complement value is its remainder mod 256. */
  function ReportedStatus(code: int): (r: int)
    ensures 0 <= r < 256
    ensures (code - r) % 256 == 0
  {
    code % 256
  }

  /** The operands of the last `cmp` (or `test rax, rax`, which compares rax with 0). */
  datatype Flags = Flags(x: int, y: int)

  datatype MState = MState(
    rax: int, rbx: int, al: int, rdi: int, rbp: int,
    flags: Flags,
    stack: seq<int>,      // top of stack is the last element
    mem: map<int, int>,   // frame cell at [rbp - offset], keyed by offset
    status: Status)

  predicate CondHolds(c: Cond, f: Flags) {
    match c
    case E => f.x == f.y
    case NE => f.x != f.y
    case L => f.x < f.y
    case LE => f.x <= f.y
    case G => f.x > f.y
    case GE => f.x >= f.y
  }

  /** Signed division truncating toward zero, as `idiv` computes it. */
  function TruncDiv(a: int, b: int): int
    requires b != 0
  {
    var q := (if a >= 0 then a else -a) / (if b >= 0 then b else -b);
    if (a >= 0) == (b >= 0) then q else -q
  }

  /** The value of a decimal literal as the assembler reads it; `None` when the text is
      not a non-empty digit string. */
  function DecimalValue(t: string): Option<nat> {
    if t == [] then None else DecimalDigits(t)
  }

  function DecimalDigits(t: string): Option<nat> {
    if t == [] then Some(0)
    else if !('0' <= t[|t| - 1] <= '9') then None
    else match DecimalDigits(t[..|t| - 1])
      case None => None
      case Some(v) => Some(10 * v + (t[|t| - 1] as int - '0' as int))
  }

  /** A frame cell that was never written holds an arbitrary value; any fixed choice
      will do, since nothing proved below reads such a cell. */
  function MemAt(mem: map<int, int>, off: int): int {
    if off in mem then mem[off] else 0
  }

  predicate IsJump(i: Instr) {
    i.Je? || i.Jne? || i.Jmp?
  }

  /** The effect of one straight-line (non-jump) instruction on a running machine. */
  function Step(i: Instr, st: MState): MState
    requires !IsJump(i)
  {
    match i
    case PushRbp => st.(stack := st.stack + [st.rbp])
    case MovRaxImm(t) =>
      (match DecimalValue(t)
       case Some(v) => st.(rax := v)
       case None => st.(status := Trapped))
    case MovRdiZero => st.(rdi := 0)
    case MovRdiRax => st.(rdi := st.rax)
    case LoadVar(off) => st.(rax := MemAt(st.mem, off))
    case StoreVar(off) => st.(mem := st.mem[off := st.rax])
    case PushRax => st.(stack := st.stack + [st.rax])
    case PopRax =>
      if st.stack == [] then st.(status := Trapped)
      else st.(rax := st.stack[|st.stack| - 1], stack := st.stack[..|st.stack| - 1])
    case MovRbxRax => st.(rbx := st.rax)
    case AddRaxRbx => st.(rax := st.rax + st.rbx)
    case SubRaxRbx => st.(rax := st.rax - st.rbx)
    case ImulRaxRbx => st.(rax := st.rax * st.rbx)
    case IdivRbx => if st.rbx == 0 then st.(status := Trapped) else st.(rax := TruncDiv(st.rax, st.rbx))
    case CmpRaxRbx => st.(flags := Flags(st.rax, st.rbx))
    case TestRaxRax => st.(flags := Flags(st.rax, 0))
    case SetCC(c) => st.(al := if CondHolds(c, st.flags) then 1 else 0)
    case MovzxRaxAl => st.(rax := st.al)
    case Syscall => if st.rax == 60 then st.(status := Exited(st.rdi)) else st.(status := Trapped)
    // directives, labels, comments, `cqo` (rdx is not modelled) and the frame set-up
    // (cells are addressed by their offset from rbp) change nothing observable here
    case _ => st
  }

  /** The instructions after the first definition of label `l` (none if it is absent). */
  function SkipPast(c: seq<Instr>, l: Label): (r: seq<Instr>)
    ensures |r| <= |c|
    ensures r == c[|c| - |r|..]
  {
    if c == [] then []
    else if c[0] == LabelDef(l) then c[1..]
    else SkipPast(c[1..], l)
  }

  /** Runs straight-line code and forward jumps until the code ends or the machine stops.
      Every jump the generator emits targets a label defined later in the listing, and
      the generated labels are distinct, so searching forward finds the real target. */
  function Run(code: seq<Instr>, st: MState): MState
    decreases |code|
  {
    if code == [] || !st.status.Running? then st
    else match code[0]
      case Jmp(l) => Run(SkipPast(code[1..], l), st)
      case Je(l) =>
        if st.flags.x == st.flags.y then Run(SkipPast(code[1..], l), st) else Run(code[1..], st)
      case Jne(l) =>
        if st.flags.x != st.flags.y then Run(SkipPast(code[1..], l), st) else Run(code[1..], st)
      case _ => Run(code[1..], Step(code[0], st))
  }

  function JumpTarget(i: Instr): Label
    requires IsJump(i)
  {
    match i
    case Je(l) => l
    case Jne(l) => l
    case Jmp(l) => l
  }

  /** Every jump in `c` targets a label defined later in `c`. */
  predicate Closed(c: seq<Instr>) {
    forall k :: 0 <= k < |c| && IsJump(c[k]) ==> LabelDef(JumpTarget(c[k])) in c[k + 1..]
  }

  lemma ClosedSuffix(c: seq<Instr>, j: nat)
    requires Closed(c) && j <= |c|
    ensures Closed(c[j..])
  {
    var d := c[j..];
    forall k | 0 <= k < |d| && IsJump(d[k])
      ensures LabelDef(JumpTarget(d[k])) in d[k + 1..]
    {
      assert d[k] == c[j + k];
      assert d[k + 1..] == c[j + k + 1..];
    }
  }

  lemma ClosedAppend(a: seq<Instr>, b: seq<Instr>)
    requires Closed(a) && Closed(b)
    ensures Closed(a + b)
  {
    var c := a + b;
    forall k | 0 <= k < |c| && IsJump(c[k])
      ensures LabelDef(JumpTarget(c[k])) in c[k + 1..]
    {
      if k < |a| {
        assert c[k] == a[k];
        assert c[k + 1..] == a[k + 1..] + b;
      } else {
        assert c[k] == b[k - |a|];
        assert c[k + 1..] == b[k - |a| + 1..];
      }
    }
  }

  lemma SkipPastFound(a: seq<Instr>, b: seq<Instr>, l: Label)
    requires LabelDef(l) in a
    ensures SkipPast(a + b, l) == SkipPast(a, l) + b
  {
    if a[0] != LabelDef(l) {
      assert (a + b)[1..] == a[1..] + b;
      SkipPastFound(a[1..], b, l);
    }
  }

  lemma SkipPastAbsent(a: seq<Instr>, b: seq<Instr>, l: Label)
    requires LabelDef(l) !in a
    ensures SkipPast(a + b, l) == SkipPast(b, l)
  {
    if a != [] {
      assert a[0] in a;
      assert (a + b)[0] == a[0] && (a + b)[1..] == a[1..] + b;
      assert forall i :: i in a[1..] ==> i in a;
      SkipPastAbsent(a[1..], b, l);
    } else {
      assert a + b == b;
    }
  }

  /** Running closed code followed by more code is running the two one after the other. */
  lemma {:induction false} RunAppend(c1: seq<Instr>, c2: seq<Instr>, st: MState)
    requires Closed(c1)
    ensures Run(c1 + c2, st) == Run(c2, Run(c1, st))
    decreases |c1|, 2
  {
    if c1 == [] {
      assert c1 + c2 == c2;
    } else if !st.status.Running? {
      RunStopped(c2, st);
    } else if IsJump(c1[0]) {
      RunAppendJump(c1, c2, st);
    } else {
      var c := c1 + c2;
      assert c[0] == c1[0];
      assert c[1..] == c1[1..] + c2;
      ClosedSuffix(c1, 1);
      RunAppend(c1[1..], c2, Step(c1[0], st));
    }
  }

  /** `RunAppend` when the first instruction is a jump, taken or not. */
  lemma {:induction false} RunAppendJump(c1: seq<Instr>, c2: seq<Instr>, st: MState)
    requires Closed(c1) && |c1| > 0 && IsJump(c1[0]) && st.status.Running?
    ensures Run(c1 + c2, st) == Run(c2, Run(c1, st))
    decreases |c1|, 1
  {
    var c := c1 + c2;
    assert c[0] == c1[0];
    assert c[1..] == c1[1..] + c2;
    ClosedSuffix(c1, 1);
    RunJump(c, st);
    RunJump(c1, st);
    if Taken(c1[0], st.flags) {
      JumpTaken(c1, c2, JumpTarget(c1[0]), st);
    } else {
      RunAppend(c1[1..], c2, st);
    }
  }

  /** Whether a jump is taken under the given flags. */
  predicate Taken(j: Instr, f: Flags)
    requires IsJump(j)
  {
    j.Jmp? || (j.Je? && f.x == f.y) || (j.Jne? && f.x != f.y)
  }

  /** A running machine at a jump continues after its target or after the jump. */
  lemma RunJump(c: seq<Instr>, st: MState)
    requires |c| > 0 && IsJump(c[0]) && st.status.Running?
    ensures Run(c, st) == if Taken(c[0], st.flags) then Run(SkipPast(c[1..], JumpTarget(c[0])), st)
                          else Run(c[1..], st)
  {
  }

  lemma {:induction false} JumpTaken(c1: seq<Instr>, c2: seq<Instr>, l: Label, st: MState)
    requires Closed(c1) && |c1| > 0 && IsJump(c1[0]) && JumpTarget(c1[0]) == l
    ensures Run(SkipPast((c1 + c2)[1..], l), st) == Run(c2, Run(SkipPast(c1[1..], l), st))
    decreases |c1|, 0
  {
    assert LabelDef(l) in c1[1..];
    assert (c1 + c2)[1..] == c1[1..] + c2;
    SkipPastFound(c1[1..], c2, l);
    var r := SkipPast(c1[1..], l);
    ClosedSuffix(c1, |c1| - |r|);
    RunAppend(r, c2, st);
  }

  lemma RunStopped(c: seq<Instr>, st: MState)
    requires !st.status.Running?
    ensures Run(c, st) == st
  {
  }

  // ---------------------------------------------------------------------------------
  // One instruction at a time

  lemma RunCons(i: Instr, rest: seq<Instr>, st: MState)
    requires !IsJump(i) && st.status.Running?
    ensures Run([i] + rest, st) == Run(rest, Step(i, st))
  {
    assert ([i] + rest)[0] == i && ([i] + rest)[1..] == rest;
  }

  lemma RunOne(i: Instr, st: MState)
    ensures Run([i] + [], st) == Run([i], st)
  {
    assert [i] + [] == [i];
  }

  lemma RunNop(i: Instr, rest: seq<Instr>, st: MState)
    requires i.GlobalStart? || i.StartLabel? || i.MovRbpRsp? || i.SubRsp? || i.LabelDef? || i.Comment? || i.Cqo?
    requires st.status.Running?
    ensures Run([i] + rest, st) == Run(rest, st)
  {
    assert Step(i, st) == st;
    RunCons(i, rest, st);
  }

  lemma RunPushRax(rest: seq<Instr>, st: MState)
    requires st.status.Running?
    ensures Run([PushRax] + rest, st) == Run(rest, st.(stack := st.stack + [st.rax]))
  {
    assert Step(PushRax, st) == st.(stack := st.stack + [st.rax]);
    RunCons(PushRax, rest, st);
  }

  lemma RunPushRbp(rest: seq<Instr>, st: MState)
    requires st.status.Running?
    ensures Run([PushRbp] + rest, st) == Run(rest, st.(stack := st.stack + [st.rbp]))
  {
    assert Step(PushRbp, st) == st.(stack := st.stack + [st.rbp]);
    RunCons(PushRbp, rest, st);
  }

  lemma RunPopRax(rest: seq<Instr>, st: MState)
    requires st.status.Running? && st.stack != []
    ensures Run([PopRax] + rest, st)
         == Run(rest, st.(rax := st.stack[|st.stack| - 1], stack := st.stack[..|st.stack| - 1]))
  {
    assert Step(PopRax, st) == st.(rax := st.stack[|st.stack| - 1], stack := st.stack[..|st.stack| - 1]);
    RunCons(PopRax, rest, st);
  }

  lemma RunMovRbxRax(rest: seq<Instr>, st: MState)
    requires st.status.Running?
    ensures Run([MovRbxRax] + rest, st) == Run(rest, st.(rbx := st.rax))
  {
    assert Step(MovRbxRax, st) == st.(rbx := st.rax);
    RunCons(MovRbxRax, rest, st);
  }

  lemma RunAdd(rest: seq<Instr>, st: MState)
    requires st.status.Running?
    ensures Run([AddRaxRbx] + rest, st) == Run(rest, st.(rax := st.rax + st.rbx))
  {
    assert Step(AddRaxRbx, st) == st.(rax := st.rax + st.rbx);
    RunCons(AddRaxRbx, rest, st);
  }

  lemma RunSub(rest: seq<Instr>, st: MState)
    requires st.status.Running?
    ensures Run([SubRaxRbx] + rest, st) == Run(rest, st.(rax := st.rax - st.rbx))
  {
    assert Step(SubRaxRbx, st) == st.(rax := st.rax - st.rbx);
    RunCons(SubRaxRbx, rest, st);
  }

  lemma RunImul(rest: seq<Instr>, st: MState)
    requires st.status.Running?
    ensures Run([ImulRaxRbx] + rest, st) == Run(rest, st.(rax := st.rax * st.rbx))
  {
    assert Step(ImulRaxRbx, st) == st.(rax := st.rax * st.rbx);
    RunCons(ImulRaxRbx, rest, st);
  }

  lemma RunIdiv(rest: seq<Instr>, st: MState)
    requires st.status.Running? && st.rbx != 0
    ensures Run([IdivRbx] + rest, st) == Run(rest, st.(rax := TruncDiv(st.rax, st.rbx)))
  {
    assert Step(IdivRbx, st) == st.(rax := TruncDiv(st.rax, st.rbx));
    RunCons(IdivRbx, rest, st);
  }

  lemma RunCmp(rest: seq<Instr>, st: MState)
    requires st.status.Running?
    ensures Run([CmpRaxRbx] + rest, st) == Run(rest, st.(flags := Flags(st.rax, st.rbx)))
  {
    assert Step(CmpRaxRbx, st) == st.(flags := Flags(st.rax, st.rbx));
    RunCons(CmpRaxRbx, rest, st);
  }

  lemma RunTest(rest: seq<Instr>, st: MState)
    requires st.status.Running?
    ensures Run([TestRaxRax] + rest, st) == Run(rest, st.(flags := Flags(st.rax, 0)))
  {
    assert Step(TestRaxRax, st) == st.(flags := Flags(st.rax, 0));
    RunCons(TestRaxRax, rest, st);
  }

  lemma RunSetCC(c: Cond, rest: seq<Instr>, st: MState)
    requires st.status.Running?
    ensures Run([SetCC(c)] + rest, st) == Run(rest, st.(al := if CondHolds(c, st.flags) then 1 else 0))
  {
    assert Step(SetCC(c), st) == st.(al := if CondHolds(c, st.flags) then 1 else 0);
    RunCons(SetCC(c), rest, st);
  }

  lemma RunMovzx(rest: seq<Instr>, st: MState)
    requires st.status.Running?
    ensures Run([MovzxRaxAl] + rest, st) == Run(rest, st.(rax := st.al))
  {
    assert Step(MovzxRaxAl, st) == st.(rax := st.al);
    RunCons(MovzxRaxAl, rest, st);
  }

  lemma RunMovImm(t: string, v: nat, rest: seq<Instr>, st: MState)
    requires st.status.Running? && DecimalValue(t) == Some(v)
    ensures Run([MovRaxImm(t)] + rest, st) == Run(rest, st.(rax := v))
  {
    assert Step(MovRaxImm(t), st) == st.(rax := v);
    RunCons(MovRaxImm(t), rest, st);
  }

  lemma RunLoad(off: int, rest: seq<Instr>, st: MState)
    requires st.status.Running?
    ensures Run([LoadVar(off)] + rest, st) == Run(rest, st.(rax := MemAt(st.mem, off)))
  {
    assert Step(LoadVar(off), st) == st.(rax := MemAt(st.mem, off));
    RunCons(LoadVar(off), rest, st);
  }

  lemma RunStore(off: int, rest: seq<Instr>, st: MState)
    requires st.status.Running?
    ensures Run([StoreVar(off)] + rest, st) == Run(rest, st.(mem := st.mem[off := st.rax]))
  {
    assert Step(StoreVar(off), st) == st.(mem := st.mem[off := st.rax]);
    RunCons(StoreVar(off), rest, st);
  }

  lemma RunMovRdiRax(rest: seq<Instr>, st: MState)
    requires st.status.Running?
    ensures Run([MovRdiRax] + rest, st) == Run(rest, st.(rdi := st.rax))
  {
    assert Step(MovRdiRax, st) == st.(rdi := st.rax);
    RunCons(MovRdiRax, rest, st);
  }

  lemma RunMovRdiZero(rest: seq<Instr>, st: MState)
    requires st.status.Running?
    ensures Run([MovRdiZero] + rest, st) == Run(rest, st.(rdi := 0))
  {
    assert Step(MovRdiZero, st) == st.(rdi := 0);
    RunCons(MovRdiZero, rest, st);
  }

  /** `syscall` with 60 in rax is the `exit` system call with status rdi. */
  lemma RunSyscallExit(rest: seq<Instr>, st: MState)
    requires st.status.Running? && st.rax == 60
    ensures Run([Syscall] + rest, st) == st.(status := Exited(st.rdi))
  {
    assert Step(Syscall, st) == st.(status := Exited(st.rdi));
    RunCons(Syscall, rest, st);
  }

  lemma RunJmp(l: Label, rest: seq<Instr>, st: MState)
    requires st.status.Running?
    ensures Run([Jmp(l)] + rest, st) == Run(SkipPast(rest, l), st)
  {
    assert ([Jmp(l)] + rest)[0] == Jmp(l) && ([Jmp(l)] + rest)[1..] == rest;
  }

  lemma RunCondJump(j: Instr, rest: seq<Instr>, st: MState)
    requires (j.Je? || j.Jne?) && st.status.Running?
    ensures Run([j] + rest, st)
         == if (st.flags.x == st.flags.y) == j.Je? then Run(SkipPast(rest, JumpTarget(j)), st) else Run(rest, st)
  {
    assert ([j] + rest)[0] == j && ([j] + rest)[1..] == rest;
  }

  /** The literals the generator emits are read back as the numbers they spell. */
  lemma SmallLiterals()
    ensures DecimalValue("0") == Some(0) && DecimalValue("1") == Some(1)
  {
    assert "0"[..0] == [] && "1"[..0] == [];
  }

  lemma Literal60()
    ensures DecimalValue("60") == Some(60)
  {
    assert "60"[..1] == "6" && "6"[..0] == [];
  }

  lemma SkipPastOther(i: Instr, rest: seq<Instr>, l: Label)
    requires i != LabelDef(l)
    ensures SkipPast([i] + rest, l) == SkipPast(rest, l)
  {
    assert ([i] + rest)[0] == i && ([i] + rest)[1..] == rest;
  }

  lemma SkipPastHere(rest: seq<Instr>, l: Label)
    ensures SkipPast([LabelDef(l)] + rest, l) == rest
  {
    assert ([LabelDef(l)] + rest)[0] == LabelDef(l) && ([LabelDef(l)] + rest)[1..] == rest;
  }
}
