/** What the binary-expression builder means on a window of well-formed arithmetic.

    The window holds operands at even offsets `0, 2, ..., ptrMax` and `+ - * /`
    operators at the odd offsets in between. Reading a tree back in order (`Flat`) must
    give back the tokens it was built from. A `*`/`/` node must cover its own run of `*`/`/`
    (its "group"). A `+`/`-` node must cover everything from the start of the window to
    the end of the group on its right. */
module Precedence {
  import opened Wrappers
  import opened Tokens
  import opened Ast
  import opened Parser
  import opened BinStmt

  predicate IsOperand(t: Token) {
    t.kind == Ident || t.kind == IntLit
  }

  /** An arithmetic operator token as the scanner makes it: no text. */
  predicate IsArithOp(t: Token) {
    (IsAddSub(t.kind) || IsMulDiv(t.kind)) && t.value.None?
  }

  /** Operators `lo` to `hi - 1` (operator `m` sits between operands `m` and `m + 1`)
      are `+ - * /`. */
  predicate ArithOps(ts: seq<Token>, idx: nat, lo: int, hi: int) {
    forall m :: lo <= m < hi ==> 0 <= idx + 2 * m + 1 < |ts| && IsArithOp(ts[idx + 2 * m + 1])
  }

  /** Operand `m` of a window of `n` operators is an identifier or a literal, the operator
      after it (when `m < n`) is `+ - * /`, and the window is not preceded by a `*` or
      `/` (the builder looks one place before it). */
  predicate Slot(ts: seq<Token>, idx: nat, n: nat, m: int) {
    && 0 <= m <= n && idx + 2 * n < |ts|
    && IsOperand(ts[idx + 2 * m])
    && (m < n ==> IsArithOp(ts[idx + 2 * m + 1]))
    && !(1 <= idx && IsMulDiv(ts[idx - 1].kind))
  }

  /** A window of `n + 1` operands (offsets `0, 2, ..., 2n`) with `n` operators between
      them, starting at `idx`. */
  predicate Window(ts: seq<Token>, idx: nat, n: nat) {
    idx + 2 * n < |ts| && forall m :: 0 <= m <= n ==> Slot(ts, idx, n, m)
  }

  /** Operand `m` of a window. */
  lemma OperandAt(ts: seq<Token>, idx: nat, n: nat, m: nat)
    requires Window(ts, idx, n) && m <= n
    ensures IsOperand(ts[idx + 2 * m])
  {
    assert Slot(ts, idx, n, m);
  }

  /** Operator `m` of a window, between operands `m` and `m + 1`. */
  lemma OperatorAt(ts: seq<Token>, idx: nat, n: nat, m: nat)
    requires Window(ts, idx, n) && m < n
    ensures IsArithOp(ts[idx + 2 * m + 1])
  {
    assert Slot(ts, idx, n, m);
  }

  /** Operators `lo` to `n - 1` of a window. */
  lemma OperatorsFrom(ts: seq<Token>, idx: nat, n: nat, lo: int)
    requires Window(ts, idx, n) && 0 <= lo
    ensures ArithOps(ts, idx, lo, n)
  {
    forall m | lo <= m < n
      ensures 0 <= idx + 2 * m + 1 < |ts| && IsArithOp(ts[idx + 2 * m + 1])
    {
      assert Slot(ts, idx, n, m);
    }
  }

  /** The token an operator node stands for. */
  function OpToken(k: BinExprKind): Token {
    match k
    case Add => Token(Plus, None)
    case Minus => Token(Tokens.Minus, None)
    case Multi => Token(Tokens.Multi, None)
    case Divide => Token(Tokens.Divide, None)
    case _ => EmptyToken
  }

  /** The tokens of a tree, read in order. */
  function Flat(r: Rec): seq<Token> {
    match r
    case NullRec => []
    case NodeRec(e) =>
      (match e
       case IntLitExpr(t) => [t]
       case IdentExpr(t) => [t]
       case _ => [])
    case BinRec(b) => Flat(b.lhs) + [OpToken(b.kind)] + Flat(b.rhs)
  }

  /** The last operand of the `*`/`/` run starting at operand `e`. */
  function GroupEnd(ts: seq<Token>, idx: nat, n: nat, e: nat): (r: nat)
    ensures e <= r && (e <= n ==> r <= n)
    decreases n - e
  {
    if n <= e || !(0 <= idx + 2 * e + 1 < |ts|) || IsAddSub(ts[idx + 2 * e + 1].kind) then e
    else GroupEnd(ts, idx, n, e + 1)
  }

  /** The first operand of the `*`/`/` run ending at operand `g`. */
  function GroupStart(ts: seq<Token>, idx: nat, g: nat): (r: nat)
    ensures r <= g
  {
    if g == 0 || !(0 <= idx + 2 * g - 1 < |ts|) || IsAddSub(ts[idx + 2 * g - 1].kind) then g
    else GroupStart(ts, idx, g - 1)
  }

  /** No `+`/`-` lies inside a run. */
  lemma {:induction false} InsideRun(ts: seq<Token>, idx: nat, n: nat, a: nat, x: nat)
    requires a <= x < GroupEnd(ts, idx, n, a)
    ensures 0 <= idx + 2 * x + 1 < |ts| && x < n && !IsAddSub(ts[idx + 2 * x + 1].kind)
    decreases x - a
  {
    if a < x {
      InsideRun(ts, idx, n, a + 1, x);
    }
  }

  /** Inside a run that starts at operand `a`, every operand has `a` as its group start. */
  lemma {:induction false} GroupStartInRun(ts: seq<Token>, idx: nat, n: nat, a: nat, g: nat)
    requires a <= g <= GroupEnd(ts, idx, n, a)
    requires a == 0 || (0 <= idx + 2 * a - 1 < |ts| && IsAddSub(ts[idx + 2 * a - 1].kind))
    ensures GroupStart(ts, idx, g) == a
    decreases g - a
  {
    if a < g {
      InsideRun(ts, idx, n, a, g - 1);
      GroupStartInRun(ts, idx, n, a, g - 1);
    }
  }

  /** Scanning left from the `+`/`-` operator `o` for a `+`/`-`: a hit is an operator
      whose run ends right before `o`; a miss means no `+`/`-` lies to the left. */
  lemma {:induction false} ScanLeftPlus(ts: seq<Token>, idx: nat, n: nat, o: nat, i: nat)
    requires 0 <= idx && idx + 2 * n < |ts|
    requires o < n && 1 <= i <= o + 1
    requires GroupEnd(ts, idx, n, o + 1 - i) == o
    requires GroupStart(ts, idx, o + 1 - i) == GroupStart(ts, idx, o)
    ensures var r := ScanLeft(ts, idx, 2 * o + 1, i, true);
            if r.Some? then i <= r.value <= o && GroupEnd(ts, idx, n, o + 1 - r.value) == o
            else GroupStart(ts, idx, o) == 0
    decreases o + 1 - i
  {
    if i <= o {
      if !IsAddSub(ts[idx + 2 * (o - i) + 1].kind) {
        ScanLeftPlus(ts, idx, n, o, i + 1);
      }
    }
  }

  /** Under `StopAtAddSub`, the right scan from the `+`/`-` operator `o` ends at the last
      `*`/`/` of the run to its right. */
  lemma {:induction false} ScanRightGroup(ts: seq<Token>, idx: nat, n: nat, o: nat, j: nat, lastJ: int)
    requires 0 <= idx && idx + 2 * n < |ts| && ArithOps(ts, idx, o + j, n)
    requires o < n && 1 <= j && o + j <= n && lastJ == j - 1
    ensures ScanRight(ts, idx, 2 * o + 1, 2 * n, j, lastJ, StopAtAddSub).0 == GroupEnd(ts, idx, n, o + j) - o - 1
    decreases n - o - j
  {
    var ptr := 2 * o + 1;
    if o + j < n {
      var t := ts[idx + ptr + 2 * j];
      assert PeekAt(ts, idx, ptr + 2 * j) == Peeked(true, t);
      if !IsAddSub(t.kind) {
        assert IsMulDiv(t.kind);
        assert ScanRight(ts, idx, ptr, 2 * n, j, j - 1, StopAtAddSub) == ScanRight(ts, idx, ptr, 2 * n, j + 1, j, StopAtAddSub);
        assert GroupEnd(ts, idx, n, o + j) == GroupEnd(ts, idx, n, o + j + 1);
        ScanRightGroup(ts, idx, n, o, j + 1, j);
      } else {
        assert ScanRight(ts, idx, ptr, 2 * n, j, j - 1, StopAtAddSub) == (j - 1, j);
        assert GroupEnd(ts, idx, n, o + j) == o + j;
      }
    } else {
      assert ScanRight(ts, idx, ptr, 2 * n, j, j - 1, StopAtAddSub) == (j - 1, j);
      assert GroupEnd(ts, idx, n, o + j) == o + j;
    }
  }

  /** An operator node reads back as the operator token it was made from. */
  lemma OpTokenOf(t: Token)
    requires IsArithOp(t)
    ensures OpToken(OpKind(t.kind)) == t
  {
  }

  /** The leaf of operand `m` reads back as its token. */
  lemma LeafFlat(ts: seq<Token>, idx: nat, n: nat, m: nat, missing: BuildError)
    requires Window(ts, idx, n) && m <= n
    ensures LeafAt(ts, idx, 2 * m, missing).Ok?
    ensures Flat(LeafAt(ts, idx, 2 * m, missing).value) == [ts[idx + 2 * m]]
    ensures !LeafAt(ts, idx, 2 * m, missing).value.BinRec?
  {
    OperandAt(ts, idx, n, m);
  }

  /** The `*`/`/` operator `o` builds a tree that reads back as its run: from the run's
      first operand to its own right operand, whichever right scan the builder uses. */
  lemma {:induction false} MulDivCovers(ts: seq<Token>, idx: nat, n: nat, o: nat, scan: RightScan)
    requires Window(ts, idx, n) && o < n && IsMulDiv(ts[idx + 2 * o + 1].kind)
    ensures Subtree(ts, idx, 2 * o + 1, 2 * n, scan).Ok? && Subtree(ts, idx, 2 * o + 1, 2 * n, scan).value.BinRec?
    ensures Flat(Subtree(ts, idx, 2 * o + 1, 2 * n, scan).value) == ts[idx + 2 * GroupStart(ts, idx, o) .. idx + 2 * o + 3]
    decreases o, 3
  {
    var q := 2 * o + 1;
    var top := Fresh(OpKind(ts[idx + q].kind));
    var g := GroupStart(ts, idx, o);
    OperatorAt(ts, idx, n, o);
    LeafFlat(ts, idx, n, o + 1, RhsMissing);
    MulDivLeftCovers(ts, idx, n, o, top, scan);
    MulDivNodeFlat(ts, idx, q, 2 * n, scan);
    SliceThree(ts, idx + 2 * g, idx + q);
  }

  /** A completed `*`/`/` node reads back as its left child, its operator and its
      right leaf. */
  lemma MulDivNodeFlat(ts: seq<Token>, idx: nat, q: int, ptrMax: int, scan: RightScan)
    requires PeekAt(ts, idx, q).hasValue && IsArithOp(ts[idx + q]) && IsMulDiv(ts[idx + q].kind)
    requires FillMulDivLeft(ts, idx, Fresh(OpKind(ts[idx + q].kind)), q, ptrMax, scan).Ok?
    requires LeafAt(ts, idx, q + 1, RhsMissing).Ok?
    ensures Subtree(ts, idx, q, ptrMax, scan).Ok? && Subtree(ts, idx, q, ptrMax, scan).value.BinRec?
    ensures Flat(Subtree(ts, idx, q, ptrMax, scan).value)
         == Flat(FillMulDivLeft(ts, idx, Fresh(OpKind(ts[idx + q].kind)), q, ptrMax, scan).value)
            + [ts[idx + q]] + Flat(LeafAt(ts, idx, q + 1, RhsMissing).value)
  {
    OpTokenOf(ts[idx + q]);
  }

  /** The left child of the `*`/`/` operator `o` reads back as its run up to operand `o`. */
  lemma {:induction false} MulDivLeftCovers(ts: seq<Token>, idx: nat, n: nat, o: nat, top: BinExpr, scan: RightScan)
    requires Window(ts, idx, n) && o < n && IsMulDivKind(top.kind)
    ensures FillMulDivLeft(ts, idx, top, 2 * o + 1, 2 * n, scan).Ok?
    ensures Flat(FillMulDivLeft(ts, idx, top, 2 * o + 1, 2 * n, scan).value) == ts[idx + 2 * GroupStart(ts, idx, o) .. idx + 2 * o + 1]
    decreases o, 2
  {
    if 1 <= o && IsMulDiv(ts[idx + 2 * o - 1].kind) {
      MulDivChainCovers(ts, idx, n, o, top, scan);
    } else {
      MulDivLeafCovers(ts, idx, n, o, top, scan);
    }
  }

  /** ... when the operator before `o` is `*` or `/`: the subtree of that operator. */
  lemma {:induction false} MulDivChainCovers(ts: seq<Token>, idx: nat, n: nat, o: nat, top: BinExpr, scan: RightScan)
    requires Window(ts, idx, n) && 1 <= o < n && IsMulDivKind(top.kind) && IsMulDiv(ts[idx + 2 * o - 1].kind)
    ensures FillMulDivLeft(ts, idx, top, 2 * o + 1, 2 * n, scan).Ok?
    ensures Flat(FillMulDivLeft(ts, idx, top, 2 * o + 1, 2 * n, scan).value) == ts[idx + 2 * GroupStart(ts, idx, o) .. idx + 2 * o + 1]
    decreases o, 1
  {
    var o' := o - 1;
    assert idx + 2 * o' + 1 == idx + 2 * o - 1;
    assert GroupStart(ts, idx, o) == GroupStart(ts, idx, o');
    assert idx + 2 * o' + 3 == idx + 2 * o + 1;
    MulDivCovers(ts, idx, n, o', scan);
    MulDivChainIs(ts, idx, o', top, 2 * o + 1, 2 * n, scan);
  }

  lemma MulDivChainIs(ts: seq<Token>, idx: nat, o': nat, top: BinExpr, ptr: int, ptrMax: int, scan: RightScan)
    requires 0 <= idx + 2 * o' + 1 < |ts| && IsMulDivKind(top.kind) && IsMulDiv(ts[idx + 2 * o' + 1].kind)
    requires ptr == 2 * o' + 3
    ensures FillMulDivLeft(ts, idx, top, ptr, ptrMax, scan) == Subtree(ts, idx, 2 * o' + 1, ptrMax, scan)
  {
    assert idx + ptr - 2 == idx + 2 * o' + 1;
  }

  /** ... otherwise: the leaf of operand `o`, which starts its run. */
  lemma MulDivLeafCovers(ts: seq<Token>, idx: nat, n: nat, o: nat, top: BinExpr, scan: RightScan)
    requires Window(ts, idx, n) && o < n && IsMulDivKind(top.kind)
    requires !(1 <= o && IsMulDiv(ts[idx + 2 * o - 1].kind))
    ensures FillMulDivLeft(ts, idx, top, 2 * o + 1, 2 * n, scan) == LeafAt(ts, idx, 2 * o, LhsMissing)
    ensures LeafAt(ts, idx, 2 * o, LhsMissing).Ok?
    ensures Flat(LeafAt(ts, idx, 2 * o, LhsMissing).value) == ts[idx + 2 * GroupStart(ts, idx, o) .. idx + 2 * o + 1]
  {
    if 1 <= o {
      OperatorAt(ts, idx, n, o - 1);
    } else {
      assert Slot(ts, idx, n, 0);
    }
    assert GroupStart(ts, idx, o) == o;
    LeafFlat(ts, idx, n, o, LhsMissing);
  }

  /** A slice ending with two more tokens. */
  lemma SliceThree(ts: seq<Token>, a: int, c: int)
    requires 0 <= a <= c && c + 2 <= |ts|
    ensures ts[a .. c + 2] == ts[a .. c] + [ts[c]] + [ts[c + 1]]
  {
  }

  /** A slice split around one token. */
  lemma SliceAround(ts: seq<Token>, a: int, c: int, b: int)
    requires 0 <= a <= c < b <= |ts|
    ensures ts[a .. b] == ts[a .. c] + [ts[c]] + ts[c + 1 .. b]
  {
  }

  /** Under `StopAtAddSub`, the `+`/`-` operator `o` builds a tree that reads back as
      the window from its first operand to the end of the run right of `o`. */
  lemma {:induction false} AddSubCovers(ts: seq<Token>, idx: nat, n: nat, o: nat)
    requires Window(ts, idx, n) && o < n && IsAddSub(ts[idx + 2 * o + 1].kind)
    ensures Subtree(ts, idx, 2 * o + 1, 2 * n, StopAtAddSub).Ok?
    ensures Flat(Subtree(ts, idx, 2 * o + 1, 2 * n, StopAtAddSub).value) == ts[idx .. idx + 2 * GroupEnd(ts, idx, n, o + 1) + 1]
    decreases o, 3
  {
    OperatorAt(ts, idx, n, o);
    AddSubLeftCovers(ts, idx, n, o, Fresh(OpKind(ts[idx + 2 * o + 1].kind)));
    AddSubJoin(ts, idx, n, o);
  }

  /** Given the left child of the `+`/`-` operator `o`, the node reads back as the window
      up to the end of the run right of `o`. */
  lemma AddSubJoin(ts: seq<Token>, idx: nat, n: nat, o: nat)
    requires Window(ts, idx, n) && o < n && IsAddSub(ts[idx + 2 * o + 1].kind)
    ensures && FillAddSubLeft(ts, idx, Fresh(OpKind(ts[idx + 2 * o + 1].kind)), 2 * o + 1, 2 * n, StopAtAddSub).Ok?
            && Flat(FillAddSubLeft(ts, idx, Fresh(OpKind(ts[idx + 2 * o + 1].kind)), 2 * o + 1, 2 * n, StopAtAddSub).value) == ts[idx .. idx + 2 * o + 1]
        ==> && Subtree(ts, idx, 2 * o + 1, 2 * n, StopAtAddSub).Ok?
            && Flat(Subtree(ts, idx, 2 * o + 1, 2 * n, StopAtAddSub).value) == ts[idx .. idx + 2 * GroupEnd(ts, idx, n, o + 1) + 1]
  {
    JoinSlices(ts, idx, n, o);
    AddSubNodeFlat(ts, idx, o, 2 * n, StopAtAddSub);
    AddSubRightCovers(ts, idx, n, o);
  }

  /** The window up to the end of the run right of the operator `o` splits at `o`. */
  lemma JoinSlices(ts: seq<Token>, idx: nat, n: nat, o: nat)
    requires Window(ts, idx, n) && o < n
    ensures IsArithOp(ts[idx + 2 * o + 1])
    ensures ts[idx .. idx + 2 * GroupEnd(ts, idx, n, o + 1) + 1]
         == ts[idx .. idx + 2 * o + 1] + [ts[idx + 2 * o + 1]] + ts[idx + 2 * o + 2 .. idx + 2 * GroupEnd(ts, idx, n, o + 1) + 1]
  {
    var e := GroupEnd(ts, idx, n, o + 1);
    OperatorAt(ts, idx, n, o);
    SliceAround(ts, idx, idx + 2 * o + 1, idx + 2 * e + 1);
    assert idx + 2 * o + 1 + 1 == idx + 2 * o + 2;
  }

  /** The right child of a `+`/`-` node once the operand after the operator is
      considered: a tree is kept, anything else becomes that operand's leaf. */
  function Immediate(ts: seq<Token>, idx: nat, o: int, rhs1: Rec): Rec
    requires rhs1.BinRec? || LeafAt(ts, idx, 2 * o + 2, RhsMissing).Ok?
  {
    if rhs1.BinRec? then rhs1 else LeafAt(ts, idx, 2 * o + 2, RhsMissing).value
  }

  /** A completed `+`/`-` node at offset `2 * o + 1` reads back as its left child, its
      operator and its right child, where an unset or leaf right child is replaced by the
      operand after the operator. */
  lemma AddSubNodeFlat(ts: seq<Token>, idx: nat, o: int, ptrMax: int, scan: RightScan)
    ensures && 0 <= idx + 2 * o + 1 < |ts| && IsArithOp(ts[idx + 2 * o + 1]) && IsAddSub(ts[idx + 2 * o + 1].kind)
            && FillAddSubLeft(ts, idx, Fresh(OpKind(ts[idx + 2 * o + 1].kind)), 2 * o + 1, ptrMax, scan).Ok?
            && FillAddSubRight(ts, idx, Fresh(OpKind(ts[idx + 2 * o + 1].kind)), 2 * o + 1, ptrMax, scan).Ok?
            && LeafAt(ts, idx, 2 * o + 2, RhsMissing).Ok?
        ==> && Subtree(ts, idx, 2 * o + 1, ptrMax, scan).Ok?
            && Flat(Subtree(ts, idx, 2 * o + 1, ptrMax, scan).value)
               == Flat(FillAddSubLeft(ts, idx, Fresh(OpKind(ts[idx + 2 * o + 1].kind)), 2 * o + 1, ptrMax, scan).value)
                  + [ts[idx + 2 * o + 1]]
                  + Flat(Immediate(ts, idx, o, FillAddSubRight(ts, idx, Fresh(OpKind(ts[idx + 2 * o + 1].kind)), 2 * o + 1, ptrMax, scan).value))
  {
    if 0 <= idx + 2 * o + 1 < |ts| && IsArithOp(ts[idx + 2 * o + 1]) {
      assert 2 * o + 1 + 1 == 2 * o + 2 && idx + (2 * o + 1) == idx + 2 * o + 1;
      OpTokenOf(ts[idx + 2 * o + 1]);
    }
  }

  /** The left child of the `+`/`-` operator `o` reads back as the window up to operand
      `o`. */
  lemma {:induction false} AddSubLeftCovers(ts: seq<Token>, idx: nat, n: nat, o: nat, top: BinExpr)
    requires Window(ts, idx, n) && o < n && IsAddSubKind(top.kind) && IsAddSub(ts[idx + 2 * o + 1].kind)
    ensures FillAddSubLeft(ts, idx, top, 2 * o + 1, 2 * n, StopAtAddSub).Ok?
    ensures Flat(FillAddSubLeft(ts, idx, top, 2 * o + 1, 2 * n, StopAtAddSub).value) == ts[idx .. idx + 2 * o + 1]
    decreases o, 2
  {
    ScanLeftPlus(ts, idx, n, o, 1);
    match ScanLeft(ts, idx, 2 * o + 1, 1, true)
    case Some(i) =>
      var o' := o - i;
      assert o' + 1 == o + 1 - i;
      AddSubLeftPlusCovers(ts, idx, n, o, o', i, top);
    case None =>
      AddSubLeftRestCovers(ts, idx, n, o, top);
  }

  /** ... when a `+`/`-` lies to the left: the subtree of the nearest one, `o'`. */
  lemma {:induction false} AddSubLeftPlusCovers(ts: seq<Token>, idx: nat, n: nat, o: nat, o': nat, i: nat, top: BinExpr)
    requires Window(ts, idx, n) && o < n && IsAddSubKind(top.kind)
    requires ScanLeft(ts, idx, 2 * o + 1, 1, true) == Some(i) && o' == o - i
    requires GroupEnd(ts, idx, n, o' + 1) == o
    ensures FillAddSubLeft(ts, idx, top, 2 * o + 1, 2 * n, StopAtAddSub).Ok?
    ensures Flat(FillAddSubLeft(ts, idx, top, 2 * o + 1, 2 * n, StopAtAddSub).value) == ts[idx .. idx + 2 * o + 1]
    decreases o, 1
  {
    AddSubLeftPlusAt(ts, idx, 2 * o + 1, i, o');
    AddSubCovers(ts, idx, n, o');
    AddSubLeftPlusIs(ts, idx, 2 * o + 1, 2 * n, top, i, o');
  }

  lemma AddSubLeftPlusAt(ts: seq<Token>, idx: nat, ptr: int, i: int, o': int)
    requires ScanLeft(ts, idx, ptr, 1, true) == Some(i) && 2 * o' + 1 == ptr - 2 * i
    ensures 0 <= idx + 2 * o' + 1 < |ts| && IsAddSub(ts[idx + 2 * o' + 1].kind)
  {
    assert idx + ptr - 2 * i == idx + 2 * o' + 1;
  }

  lemma AddSubLeftPlusIs(ts: seq<Token>, idx: nat, ptr: int, ptrMax: int, top: BinExpr, i: int, o': int)
    requires IsAddSubKind(top.kind) && ScanLeft(ts, idx, ptr, 1, true) == Some(i) && 2 * o' + 1 == ptr - 2 * i
    ensures FillAddSubLeft(ts, idx, top, ptr, ptrMax, StopAtAddSub) == Subtree(ts, idx, 2 * o' + 1, ptrMax, StopAtAddSub)
  {
  }

  /** ... when no `+`/`-` lies to the left: the `*`/`/` run before `o`, or the first
      operand. */
  lemma AddSubLeftRestCovers(ts: seq<Token>, idx: nat, n: nat, o: nat, top: BinExpr)
    requires Window(ts, idx, n) && o < n && IsAddSubKind(top.kind)
    requires ScanLeft(ts, idx, 2 * o + 1, 1, true).None? && GroupStart(ts, idx, o) == 0
    ensures FillAddSubLeft(ts, idx, top, 2 * o + 1, 2 * n, StopAtAddSub).Ok?
    ensures Flat(FillAddSubLeft(ts, idx, top, 2 * o + 1, 2 * n, StopAtAddSub).value) == ts[idx .. idx + 2 * o + 1]
  {
    if 1 <= o {
      AddSubLeftRunCovers(ts, idx, n, o, o - 1, top);
    } else {
      LeafFlat(ts, idx, n, 0, LhsMissing);
      assert idx + 2 * 0 == idx && idx + 2 * o + 1 == idx + 1;
      AddSubLeftLeafIs(ts, idx, 2 * o + 1, 2 * n, top);
    }
  }

  /** ... when that is a `*`/`/` run: the subtree of its last operator `o'`. */
  lemma AddSubLeftRunCovers(ts: seq<Token>, idx: nat, n: nat, o: nat, o': nat, top: BinExpr)
    requires Window(ts, idx, n) && o < n && o' + 1 == o && IsAddSubKind(top.kind)
    requires ScanLeft(ts, idx, 2 * o + 1, 1, true).None? && GroupStart(ts, idx, o) == 0
    ensures FillAddSubLeft(ts, idx, top, 2 * o + 1, 2 * n, StopAtAddSub).Ok?
    ensures Flat(FillAddSubLeft(ts, idx, top, 2 * o + 1, 2 * n, StopAtAddSub).value) == ts[idx .. idx + 2 * o + 1]
  {
    OperatorAt(ts, idx, n, o');
    AddSubLeftMiss(ts, idx, 2 * o + 1, o');
    assert idx + 2 * o - 1 == idx + 2 * o' + 1;
    assert GroupStart(ts, idx, o') == 0;
    assert idx + 2 * GroupStart(ts, idx, o') == idx && idx + 2 * o' + 3 == idx + 2 * o + 1;
    MulDivCovers(ts, idx, n, o', StopAtAddSub);
    AddSubLeftMulIs(ts, idx, 2 * o + 1, 2 * n, top, o');
  }

  lemma AddSubLeftMiss(ts: seq<Token>, idx: nat, ptr: int, o': int)
    requires ScanLeft(ts, idx, ptr, 1, true).None? && ptr == 2 * o' + 3 && 0 <= o'
    requires 0 <= idx + 2 * o' + 1 < |ts|
    ensures !IsAddSub(ts[idx + 2 * o' + 1].kind)
  {
    assert idx + ptr - 2 * 1 == idx + 2 * o' + 1;
  }

  lemma AddSubLeftLeafIs(ts: seq<Token>, idx: nat, ptr: int, ptrMax: int, top: BinExpr)
    requires IsAddSubKind(top.kind) && ScanLeft(ts, idx, ptr, 1, true).None? && ptr == 1
    ensures FillAddSubLeft(ts, idx, top, ptr, ptrMax, StopAtAddSub) == LeafAt(ts, idx, 0, LhsMissing)
  {
    assert ScanLeft(ts, idx, ptr, 1, false).None?;
  }

  lemma AddSubLeftMulIs(ts: seq<Token>, idx: nat, ptr: int, ptrMax: int, top: BinExpr, o': int)
    requires IsAddSubKind(top.kind) && ScanLeft(ts, idx, ptr, 1, true).None? && ptr == 2 * o' + 3 && 0 <= o'
    requires 0 <= idx + 2 * o' + 1 < |ts| && IsMulDiv(ts[idx + 2 * o' + 1].kind)
    ensures FillAddSubLeft(ts, idx, top, ptr, ptrMax, StopAtAddSub) == Subtree(ts, idx, 2 * o' + 1, ptrMax, StopAtAddSub)
  {
    assert idx + ptr - 2 * 1 == idx + 2 * o' + 1;
    assert ScanLeft(ts, idx, ptr, 1, false) == Some(1);
  }

  /** The right child of the `+`/`-` operator `o`, once the operand after `o` is
      considered, reads back as the `*`/`/` run right of `o`. */
  lemma AddSubRightCovers(ts: seq<Token>, idx: nat, n: nat, o: nat)
    ensures Window(ts, idx, n) && o < n && IsAddSub(ts[idx + 2 * o + 1].kind) ==>
      && FillAddSubRight(ts, idx, Fresh(OpKind(ts[idx + 2 * o + 1].kind)), 2 * o + 1, 2 * n, StopAtAddSub).Ok?
      && LeafAt(ts, idx, 2 * o + 2, RhsMissing).Ok?
      && Flat(Immediate(ts, idx, o, FillAddSubRight(ts, idx, Fresh(OpKind(ts[idx + 2 * o + 1].kind)), 2 * o + 1, 2 * n, StopAtAddSub).value))
         == ts[idx + 2 * o + 2 .. idx + 2 * GroupEnd(ts, idx, n, o + 1) + 1]
  {
    if Window(ts, idx, n) && o < n && IsAddSub(ts[idx + 2 * o + 1].kind) {
      if o + 1 < n {
        OperatorAt(ts, idx, n, o + 1);
      }
      if o + 1 < n && !IsAddSub(ts[idx + 2 * o + 3].kind) {
        AddSubRightRunCovers(ts, idx, n, o, Fresh(OpKind(ts[idx + 2 * o + 1].kind)));
        AddSubRightOperand(ts, idx, n, o);
      } else {
        assert GroupEnd(ts, idx, n, o + 1) == o + 1;
        AddSubRightOperand(ts, idx, n, o);
        AddSubRightLeafIs(ts, idx, 2 * o + 1, 2 * n, Fresh(OpKind(ts[idx + 2 * o + 1].kind)));
      }
    }
  }

  /** The operand after the `+`/`-` operator `o` makes a leaf. */
  lemma AddSubRightOperand(ts: seq<Token>, idx: nat, n: nat, o: nat)
    requires Window(ts, idx, n) && o < n
    ensures LeafAt(ts, idx, 2 * o + 2, RhsMissing).Ok?
    ensures Flat(LeafAt(ts, idx, 2 * o + 2, RhsMissing).value) == ts[idx + 2 * o + 2 .. idx + 2 * o + 3]
  {
    LeafFlat(ts, idx, n, o + 1, RhsMissing);
    assert 2 * (o + 1) == 2 * o + 2;
  }

  /** ... when a `*` or `/` follows the operand after `o`: the subtree of the last
      operator of that run. */
  lemma AddSubRightRunCovers(ts: seq<Token>, idx: nat, n: nat, o: nat, top: BinExpr)
    requires Window(ts, idx, n) && o + 1 < n && IsAddSubKind(top.kind)
    requires IsAddSub(ts[idx + 2 * o + 1].kind) && !IsAddSub(ts[idx + 2 * o + 3].kind)
    ensures FillAddSubRight(ts, idx, top, 2 * o + 1, 2 * n, StopAtAddSub).Ok?
    ensures FillAddSubRight(ts, idx, top, 2 * o + 1, 2 * n, StopAtAddSub).value.BinRec?
    ensures Flat(FillAddSubRight(ts, idx, top, 2 * o + 1, 2 * n, StopAtAddSub).value)
         == ts[idx + 2 * o + 2 .. idx + 2 * GroupEnd(ts, idx, n, o + 1) + 1]
  {
    var e := GroupEnd(ts, idx, n, o + 1);
    RunRightOf(ts, idx, n, o);
    var m := e - 1;
    assert idx + 2 * GroupStart(ts, idx, m) == idx + 2 * o + 2 && idx + 2 * m + 3 == idx + 2 * e + 1;
    MulDivCovers(ts, idx, n, m, StopAtAddSub);
    AddSubRightSubtreeIs(ts, idx, o, 2 * n, top, e - o - 1, m);
  }

  /** The `*`/`/` run right of the `+`/`-` operator `o`: the right scan stops at its last
      operator, which is `*` or `/` and has the run's first operand as its group start. */
  lemma RunRightOf(ts: seq<Token>, idx: nat, n: nat, o: nat)
    requires Window(ts, idx, n) && o + 1 < n
    requires IsAddSub(ts[idx + 2 * o + 1].kind) && !IsAddSub(ts[idx + 2 * o + 3].kind)
    ensures GroupEnd(ts, idx, n, o + 1) > o + 1
    ensures ScanRight(ts, idx, 2 * o + 1, 2 * n, 1, 0, StopAtAddSub).0 == GroupEnd(ts, idx, n, o + 1) - o - 1
    ensures IsMulDiv(ts[idx + 2 * (GroupEnd(ts, idx, n, o + 1) - 1) + 1].kind)
    ensures GroupStart(ts, idx, GroupEnd(ts, idx, n, o + 1) - 1) == o + 1
  {
    OperatorsFrom(ts, idx, n, o + 1);
    ScanRightGroup(ts, idx, n, o, 1, 0);
    LastOfRun(ts, idx, n, o);
  }

  /** The last operator of the run that starts right of the `+`/`-` operator `o`. */
  lemma LastOfRun(ts: seq<Token>, idx: nat, n: nat, o: nat)
    requires Window(ts, idx, n) && o + 1 < n
    requires IsAddSub(ts[idx + 2 * o + 1].kind) && !IsAddSub(ts[idx + 2 * o + 3].kind)
    ensures GroupEnd(ts, idx, n, o + 1) > o + 1
    ensures IsMulDiv(ts[idx + 2 * (GroupEnd(ts, idx, n, o + 1) - 1) + 1].kind)
    ensures GroupStart(ts, idx, GroupEnd(ts, idx, n, o + 1) - 1) == o + 1
  {
    var m := GroupEnd(ts, idx, n, o + 1) - 1;
    InsideRun(ts, idx, n, o + 1, m);
    OperatorAt(ts, idx, n, m);
    assert idx + 2 * (o + 1) - 1 == idx + 2 * o + 1;
    GroupStartInRun(ts, idx, n, o + 1, m);
  }

  lemma AddSubRightSubtreeIs(ts: seq<Token>, idx: nat, o: int, ptrMax: int, top: BinExpr, k: int, m: int)
    requires IsAddSubKind(top.kind) && 1 <= k && 2 * o + 1 + 2 * k == 2 * m + 1
    requires 0 <= idx + 2 * o + 3 < |ts| && !IsAddSub(ts[idx + 2 * o + 3].kind)
    requires ScanRight(ts, idx, 2 * o + 1, ptrMax, 1, 0, StopAtAddSub).0 == k
    ensures FillAddSubRight(ts, idx, top, 2 * o + 1, ptrMax, StopAtAddSub) == Subtree(ts, idx, 2 * m + 1, ptrMax, StopAtAddSub)
  {
    assert idx + (2 * o + 1) + 2 == idx + 2 * o + 3;
  }

  /** ... otherwise: no tree, so the operand after `o` is taken. */
  lemma AddSubRightLeafIs(ts: seq<Token>, idx: nat, ptr: int, ptrMax: int, top: BinExpr)
    requires top == Fresh(top.kind) && IsAddSubKind(top.kind) && ptr + 1 <= ptrMax
    requires !(PeekAt(ts, idx, ptr + 2).hasValue && ptr + 2 <= ptrMax && !IsAddSub(ts[idx + ptr + 2].kind))
    requires LeafAt(ts, idx, ptr + 1, RhsMissing).Ok?
    ensures FillAddSubRight(ts, idx, top, ptr, ptrMax, StopAtAddSub).Ok?
    ensures !FillAddSubRight(ts, idx, top, ptr, ptrMax, StopAtAddSub).value.BinRec?
  {
    if PeekAt(ts, idx, ptr + 2).hasValue && !IsAddSub(ts[idx + ptr + 2].kind) {
      assert ScanRight(ts, idx, ptr, ptrMax, 1, 0, StopAtAddSub) == (0, 1);
    }
  }

  /** The entry point run on the last `+`/`-` operator of a window, with the right scan
      stopping at the next `+`/`-`, builds a tree that reads back as the whole window: no
      operand is lost and none is repeated. */
  lemma LastAddSubKeepsWindow(ts: seq<Token>, idx: nat, n: nat, o: nat)
    requires Window(ts, idx, n) && o < n && IsAddSub(ts[idx + 2 * o + 1].kind)
    requires GroupEnd(ts, idx, n, o + 1) == n
    ensures ParseBinStmtRec(ts, idx, Some(Fresh(OpKind(ts[idx + 2 * o + 1].kind))), 2 * o + 1, 2 * n, StopAtAddSub).Ok?
    ensures Flat(ParseBinStmtRec(ts, idx, Some(Fresh(OpKind(ts[idx + 2 * o + 1].kind))), 2 * o + 1, 2 * n, StopAtAddSub).value)
         == ts[idx .. idx + 2 * n + 1]
  {
    AddSubCovers(ts, idx, n, o);
  }

  /** A window without `+`/`-`, built from its last operator with either right scan,
      reads back as the whole window. */
  lemma ProductKeepsWindow(ts: seq<Token>, idx: nat, n: nat, scan: RightScan)
    requires Window(ts, idx, n) && 0 < n && GroupEnd(ts, idx, n, 0) == n
    ensures ParseBinStmtRec(ts, idx, Some(Fresh(OpKind(ts[idx + 2 * n - 1].kind))), 2 * n - 1, 2 * n, scan).Ok?
    ensures Flat(ParseBinStmtRec(ts, idx, Some(Fresh(OpKind(ts[idx + 2 * n - 1].kind))), 2 * n - 1, 2 * n, scan).value)
         == ts[idx .. idx + 2 * n + 1]
  {
    var o := n - 1;
    OperatorAt(ts, idx, n, o);
    InsideRun(ts, idx, n, 0, o);
    GroupStartInRun(ts, idx, n, 0, o);
    assert idx + 2 * o + 1 == idx + 2 * n - 1 && 2 * o + 1 == 2 * n - 1 && idx + 2 * o + 3 == idx + 2 * n + 1;
    MulDivCovers(ts, idx, n, o, scan);
  }

  /** A literal token of one digit, and its leaf. */
  function Digit(d: char): Token {
    Token(IntLit, Some([d]))
  }

  function DigitLeaf(d: char): Rec {
    NodeRec(IntLitExpr(Digit(d)))
  }

  function Node(k: BinExprKind, l: Rec, r: Rec): Rec {
    BinRec(BinExpr(k, l, r))
  }

  /** The tokens of `1 + 2 * 3 + 4 * 5`. */
  function Sample(): seq<Token> {
    [Digit('1'), Token(Plus, None), Digit('2'), Token(Tokens.Multi, None), Digit('3'),
     Token(Plus, None), Digit('4'), Token(Tokens.Multi, None), Digit('5')]
  }

  /** Both products of the sample, under either right scan. */
  lemma SampleProducts(scan: RightScan)
    ensures Subtree(Sample(), 0, 7, 8, scan) == Ok(Node(BinExprKind.Multi, DigitLeaf('4'), DigitLeaf('5')))
    ensures Subtree(Sample(), 0, 3, 8, scan) == Ok(Node(BinExprKind.Multi, DigitLeaf('2'), DigitLeaf('3')))
  {
    assert FillMulDivLeft(Sample(), 0, Fresh(BinExprKind.Multi), 7, 8, scan) == Ok(DigitLeaf('4'));
    assert FillMulDivLeft(Sample(), 0, Fresh(BinExprKind.Multi), 3, 8, scan) == Ok(DigitLeaf('2'));
  }

  /** As written, the builder rooted at the second `+` of `1 + 2 * 3 + 4 * 5` gives
      `(1 + 4 * 5) + 4 * 5`: the right scan of the first `+` runs past the second `+` to
      the last `*`, so `2 * 3` is lost and `4 * 5` appears twice. */
  lemma WholeWindowLosesOperands()
    ensures ParseBinStmtRec(Sample(), 0, Some(Fresh(Add)), 5, 8, WholeWindow)
         == Ok(Node(Add, Node(Add, DigitLeaf('1'), Node(BinExprKind.Multi, DigitLeaf('4'), DigitLeaf('5'))),
                    Node(BinExprKind.Multi, DigitLeaf('4'), DigitLeaf('5'))))
    ensures Flat(ParseBinStmtRec(Sample(), 0, Some(Fresh(Add)), 5, 8, WholeWindow).value) != Sample()
  {
    var ts := Sample();
    var m45 := Node(BinExprKind.Multi, DigitLeaf('4'), DigitLeaf('5'));
    SampleProducts(WholeWindow);
    assert ScanRight(ts, 0, 1, 8, 1, 0, WholeWindow) == (3, 4);
    assert FillAddSubRight(ts, 0, Fresh(Add), 1, 8, WholeWindow) == Ok(m45);
    assert FillAddSubLeft(ts, 0, Fresh(Add), 1, 8, WholeWindow) == Ok(DigitLeaf('1'));
    assert Subtree(ts, 0, 1, 8, WholeWindow) == Ok(Node(Add, DigitLeaf('1'), m45));
    assert ScanRight(ts, 0, 5, 8, 1, 0, WholeWindow) == (1, 2);
    assert FillAddSubRight(ts, 0, Fresh(Add), 5, 8, WholeWindow) == Ok(m45);
    assert ScanLeft(ts, 0, 5, 1, true) == Some(2);
    assert Flat(ParseBinStmtRec(ts, 0, Some(Fresh(Add)), 5, 8, WholeWindow).value)[2] == Digit('4');
  }

  /** With the right scan stopping at the next `+`/`-`, the same call gives
      `(1 + 2 * 3) + 4 * 5`, which reads back as the window. */
  lemma StopAtAddSubKeepsOperands()
    ensures ParseBinStmtRec(Sample(), 0, Some(Fresh(Add)), 5, 8, StopAtAddSub)
         == Ok(Node(Add, Node(Add, DigitLeaf('1'), Node(BinExprKind.Multi, DigitLeaf('2'), DigitLeaf('3'))),
                    Node(BinExprKind.Multi, DigitLeaf('4'), DigitLeaf('5'))))
    ensures Flat(ParseBinStmtRec(Sample(), 0, Some(Fresh(Add)), 5, 8, StopAtAddSub).value) == Sample()
  {
    var ts := Sample();
    var m23 := Node(BinExprKind.Multi, DigitLeaf('2'), DigitLeaf('3'));
    SampleProducts(StopAtAddSub);
    assert ScanRight(ts, 0, 1, 8, 1, 0, StopAtAddSub) == (1, 2);
    assert FillAddSubRight(ts, 0, Fresh(Add), 1, 8, StopAtAddSub) == Ok(m23);
    assert FillAddSubLeft(ts, 0, Fresh(Add), 1, 8, StopAtAddSub) == Ok(DigitLeaf('1'));
    assert Subtree(ts, 0, 1, 8, StopAtAddSub) == Ok(Node(Add, DigitLeaf('1'), m23));
    assert ScanRight(ts, 0, 5, 8, 1, 0, StopAtAddSub) == (1, 2);
    assert FillAddSubRight(ts, 0, Fresh(Add), 5, 8, StopAtAddSub) == Ok(Node(BinExprKind.Multi, DigitLeaf('4'), DigitLeaf('5')));
    assert ScanLeft(ts, 0, 5, 1, true) == Some(2);
  }
}
