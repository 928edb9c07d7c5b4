/** The instructions the generator emits and the exact text of each one.

    The generator's output buffer is modelled as a sequence of lines: each emitted line is
    `Render(i)` of one instruction, without its trailing newline. */
module Asm {

  /** Condition codes of the `setCC` instructions. */
  datatype Cond = E | NE | L | LE | G | GE

  /** The kinds of generated jump labels. */
  datatype LabelKind = AndFalse | AndEnd | OrTrue | OrEnd | IfEnd | ElseEnd

  /** A generated label `.L_<kind>_<id>`. */
  datatype Label = Lbl(kind: LabelKind, id: int)

  datatype Instr =
    | GlobalStart              // global _start
    | StartLabel               // _start:
    | PushRbp
    | MovRbpRsp
    | SubRsp(bytes: int)
    | MovRaxImm(text: string)  // mov rax, <literal text>
    | MovRdiZero               // mov rdi, 0
    | MovRdiRax
    | LoadVar(offset: int)     // mov rax, qword [rbp - offset]
    | StoreVar(offset: int)    // mov qword [rbp - offset], rax
    | PushRax
    | PopRax
    | MovRbxRax
    | AddRaxRbx
    | SubRaxRbx
    | ImulRaxRbx
    | Cqo
    | IdivRbx
    | CmpRaxRbx
    | TestRaxRax
    | SetCC(cond: Cond)        // set<cond> al
    | MovzxRaxAl
    | Je(target: Label)
    | Jne(target: Label)
    | Jmp(target: Label)
    | LabelDef(defined: Label)
    | Syscall
    | Comment(text: string)    // ; <text>

  /** Decimal digits of a natural number, most significant first. */
  function NatToString(n: nat): (s: string)
    ensures |s| > 0
    ensures forall i :: 0 <= i < |s| ==> '0' <= s[i] <= '9'
    decreases n
  {
    if n < 10 then [DigitChar(n)] else NatToString(n / 10) + [DigitChar(n % 10)]
  }

  function DigitChar(d: nat): (c: char)
    requires d < 10
    ensures '0' <= c <= '9'
  {
    ['0', '1', '2', '3', '4', '5', '6', '7', '8', '9'][d]
  }

  /** `printf("%d")` of an integer. */
  function IntToString(n: int): string {
    if n < 0 then "-" + NatToString(-n) else NatToString(n)
  }

  function LabelName(l: Label): string {
    LabelStem(l.kind) + IntToString(l.id)
  }

  function CondName(c: Cond): string {
    match c
    case E => "e"
    case NE => "ne"
    case L => "l"
    case LE => "le"
    case G => "g"
    case GE => "ge"
  }

  /** The line of assembly text that the generator emits for an instruction. */
  function Render(i: Instr): string {
    match i
    case GlobalStart => "global _start"
    case StartLabel => "_start:"
    case PushRbp => "   push rbp"
    case MovRbpRsp => "   mov rbp, rsp"
    case SubRsp(n) => "   sub rsp, " + IntToString(n)
    case MovRaxImm(t) => "   mov rax, " + t
    case MovRdiZero => "   mov rdi, 0"
    case MovRdiRax => "   mov rdi, rax"
    case LoadVar(off) => "   mov rax, qword [rbp - " + IntToString(off) + "]"
    case StoreVar(off) => "   mov qword [rbp - " + IntToString(off) + "], rax"
    case PushRax => "   push rax"
    case PopRax => "   pop rax"
    case MovRbxRax => "   mov rbx, rax"
    case AddRaxRbx => "   add rax, rbx"
    case SubRaxRbx => "   sub rax, rbx"
    case ImulRaxRbx => "   imul rax, rbx"
    case Cqo => "   cqo"
    case IdivRbx => "   idiv rbx"
    case CmpRaxRbx => "   cmp rax, rbx"
    case TestRaxRax => "   test rax, rax"
    case SetCC(c) => "   set" + CondName(c) + " al"
    case MovzxRaxAl => "   movzx rax, al"
    case Je(l) => "   je " + LabelName(l)
    case Jne(l) => "   jne " + LabelName(l)
    case Jmp(l) => "   jmp " + LabelName(l)
    case LabelDef(l) => LabelName(l) + ":"
    case Syscall => "   syscall"
    case Comment(t) => "   ; " + t
  }

  /** The text lines of a sequence of instructions. */
  function RenderAll(code: seq<Instr>): (lines: seq<string>)
    ensures |lines| == |code|
  {
    seq(|code|, k requires 0 <= k < |code| => Render(code[k]))
  }

  lemma RenderAllOne(i: Instr)
    ensures RenderAll([i]) == [Render(i)]
  {
  }

  lemma RenderAllAppend(a: seq<Instr>, b: seq<Instr>)
    ensures RenderAll(a + b) == RenderAll(a) + RenderAll(b)
  {
  }

  /** Decimal digit strings denote distinct numbers: `printf("%d")` is injective on
      naturals, so labels with distinct ids have distinct names. */
  lemma {:induction false} NatToStringInjective(m: nat, n: nat)
    requires NatToString(m) == NatToString(n)
    ensures m == n
    decreases m
  {
    var sm, sn := NatToString(m), NatToString(n);
    if m < 10 && n < 10 {
      assert sm[0] == DigitChar(m) && sn[0] == DigitChar(n);
      DigitCharInjective(m, n);
    } else if m >= 10 && n >= 10 {
      var pm, pn := NatToString(m / 10), NatToString(n / 10);
      assert sm == pm + [DigitChar(m % 10)];
      assert sn == pn + [DigitChar(n % 10)];
      assert pm == sm[..|sm| - 1] && pn == sn[..|sn| - 1];
      NatToStringInjective(m / 10, n / 10);
      assert sm[|sm| - 1] == DigitChar(m % 10) && sn[|sn| - 1] == DigitChar(n % 10);
      DigitCharInjective(m % 10, n % 10);
    }
  }

  lemma DigitCharInjective(a: nat, b: nat)
    requires a < 10 && b < 10 && DigitChar(a) == DigitChar(b)
    ensures a == b
  {
  }

  function LabelStem(k: LabelKind): (stem: string)
    ensures forall i :: 0 <= i < |stem| ==> !('0' <= stem[i] <= '9')
  {
    match k
    case AndFalse => ".L_and_false_"
    case AndEnd => ".L_and_end_"
    case OrTrue => ".L_or_true_"
    case OrEnd => ".L_or_end_"
    case IfEnd => ".L_if_end_"
    case ElseEnd => ".L_else_end_"
  }

  /** The position of the first decimal digit of a word (its length if there is none). */
  function FirstDigit(w: string): (k: nat)
    ensures k <= |w|
  {
    if w == [] then 0 else if '0' <= w[0] <= '9' then 0 else 1 + FirstDigit(w[1..])
  }

  lemma {:induction false} FirstDigitAfterStem(s: string, d: string)
    requires forall i :: 0 <= i < |s| ==> !('0' <= s[i] <= '9')
    requires |d| > 0 && '0' <= d[0] <= '9'
    ensures FirstDigit(s + d) == |s|
  {
    if s != [] {
      assert (s + d)[1..] == s[1..] + d;
      FirstDigitAfterStem(s[1..], d);
    } else {
      assert s + d == d;
    }
  }

  /** A word made of a digit-free stem followed by a non-empty digit string splits in
      exactly one way. */
  lemma SplitStemDigits(s1: string, d1: string, s2: string, d2: string)
    requires forall i :: 0 <= i < |s1| ==> !('0' <= s1[i] <= '9')
    requires forall i :: 0 <= i < |s2| ==> !('0' <= s2[i] <= '9')
    requires |d1| > 0 && '0' <= d1[0] <= '9'
    requires |d2| > 0 && '0' <= d2[0] <= '9'
    requires s1 + d1 == s2 + d2
    ensures s1 == s2 && d1 == d2
  {
    var w := s1 + d1;
    FirstDigitAfterStem(s1, d1);
    FirstDigitAfterStem(s2, d2);
    assert s1 == w[..|s1|] == s2;
    assert d1 == w[|s1|..] == d2;
  }

  /** Distinct labels get distinct names, so no two generated labels collide in the
      assembly text. */
  lemma LabelNameInjective(l1: Label, l2: Label)
    requires l1.id >= 0 && l2.id >= 0
    requires LabelName(l1) == LabelName(l2)
    ensures l1 == l2
  {
    SplitStemDigits(LabelStem(l1.kind), NatToString(l1.id), LabelStem(l2.kind), NatToString(l2.id));
    NatToStringInjective(l1.id, l2.id);
  }
}
