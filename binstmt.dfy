/** The binary-expression tree builder for `+ - * /` over a window of tokens addressed
    by offsets from the parser's cursor.

    A `+`/`-` node takes as its left child the subtree of the nearest `+`/`-` an even
    number of places to its left, else the nearest `*`/`/` there, else the operand just
    before it; its right child is the subtree of the rightmost `*`/`/` up to `ptrMax` when
    the token two places on is not `+`/`-`, and otherwise the operand just after it. A
    `*`/`/` node chains to a `*`/`/` two places to its left and takes the operand after it
    as its right child, so such chains associate to the left.

    `Fill` states the tree the C function builds and `ParseBinStmtRec` is its entry point;
    the methods `FillNode` and `Build` perform the same steps with the C loops. Both are
    parametrised by how far the right-hand scan looks (`RightScan`): the C loop scans the
    whole window, and `StopAtAddSub` is the corrected scan. */
module BinStmt {
  import opened Wrappers
  import opened Tokens
  import opened Ast
  import opened Parser

  /** How far the right-hand scan of a `+`/`-` node looks for `*` or `/`: over the whole
      window up to `ptrMax` as the C loop does, or only up to the next `+` or `-`. */
  datatype RightScan = WholeWindow | StopAtAddSub

  /** Why the C builder stops with `exit(1)`. */
  datatype BuildError =
    | NullTop                          // `top` is a NULL pointer
    | LhsMissing                       // no operand where the left leaf should be
    | RhsMissing                       // no operand where the right leaf should be
    | UnexpectedLeaf(kind: TokenType)  // an operand position holds another kind of token

  predicate IsAddSub(k: TokenType) {
    k == Plus || k == Tokens.Minus
  }

  predicate IsMulDiv(k: TokenType) {
    k == Tokens.Multi || k == Tokens.Divide
  }

  /** The node kind an operator token makes. */
  function OpKind(k: TokenType): (r: BinExprKind)
    ensures IsAddSub(k) ==> IsAddSubKind(r)
    ensures IsMulDiv(k) ==> IsMulDivKind(r)
  {
    if k == Plus then Add
    else if k == Tokens.Minus then BinExprKind.Minus
    else if k == Tokens.Multi then BinExprKind.Multi
    else BinExprKind.Divide
  }

  predicate IsAddSubKind(k: BinExprKind) {
    k == Add || k == BinExprKind.Minus
  }

  predicate IsMulDivKind(k: BinExprKind) {
    k == BinExprKind.Multi || k == BinExprKind.Divide
  }

  /** A new node of kind `k`, both children unset. */
  function Fresh(k: BinExprKind): BinExpr {
    BinExpr(k, NullRec, NullRec)
  }

  /** A position clamped at zero, for termination measures. */
  function Pos(x: int): nat {
    if x < 0 then 0 else x
  }

  /** `+`/`-` nodes rank above `*`/`/` nodes: every recursive call either goes down one
      rank or stays at a rank and moves the pointer to the left. */
  function Rank(k: BinExprKind): nat {
    if IsAddSubKind(k) then 1 else 0
  }

  /** The leaf an operand token makes. */
  function Leaf(t: Token): (r: Result<Expr, BuildError>)
    ensures r.Ok? <==> t.kind == Ident || t.kind == IntLit
    ensures r.Ok? ==> IsLeafOf(r.value, t)
    ensures r.Err? ==> r.error == UnexpectedLeaf(t.kind)
  {
    if t.kind == Ident then Ok(IdentExpr(t))
    else if t.kind == IntLit then Ok(IntLitExpr(t))
    else Err(UnexpectedLeaf(t.kind))
  }

  /** The leaf made from the token at the offset, or `missing` when there is none. */
  function LeafAt(ts: seq<Token>, idx: int, off: int, missing: BuildError): (r: Result<Rec, BuildError>)
    ensures r.Ok? <==> PeekAt(ts, idx, off).hasValue && Leaf(ts[idx + off]).Ok?
    ensures r.Ok? ==> r.value == NodeRec(Leaf(ts[idx + off]).value)
    ensures !PeekAt(ts, idx, off).hasValue ==> r == Err(missing)
  {
    var t := PeekAt(ts, idx, off);
    if !t.hasValue then Err(missing)
    else
      var e :- Leaf(t.value);
      Ok(NodeRec(e))
  }

  /** The left scan: the first `i` from the given one with `ptr - 2*i` at or above 0 whose token is
      an operator of the wanted class, stopping at the first missing token. */
  function ScanLeft(ts: seq<Token>, idx: int, ptr: int, i: int, addSub: bool): (r: Option<int>)
    ensures r.Some? ==> i <= r.value && PeekAt(ts, idx, ptr - 2 * r.value).hasValue
    ensures r.Some? ==> var k := ts[idx + ptr - 2 * r.value].kind;
                        if addSub then IsAddSub(k) else IsMulDiv(k)
    decreases ptr - 2 * i
  {
    if ptr - 2 * i < 0 then None
    else
      var ot := PeekAt(ts, idx, ptr - 2 * i);
      if !ot.hasValue then None
      else if (if addSub then IsAddSub(ot.value.kind) else IsMulDiv(ot.value.kind)) then Some(i)
      else ScanLeft(ts, idx, ptr, i + 1, addSub)
  }

  /** The right scan: from `j` while `ptr + 2*j <= ptrMax` and a token is there (and,
      under `StopAtAddSub`, that token is not `+` or `-`), the last `j` holding `*` or `/`
      (or `lastJ`), and the `j` at which the scan stopped. */
  function ScanRight(ts: seq<Token>, idx: int, ptr: int, ptrMax: int, j: int, lastJ: int, scan: RightScan): (r: (int, int))
    requires 0 <= lastJ < j
    ensures r.0 == lastJ || (PeekAt(ts, idx, ptr + 2 * r.0).hasValue && IsMulDiv(ts[idx + ptr + 2 * r.0].kind))
    decreases ptrMax - ptr - 2 * j
  {
    if ptr + 2 * j > ptrMax then (lastJ, j)
    else
      var ot := PeekAt(ts, idx, ptr + 2 * j);
      if !ot.hasValue || (scan == StopAtAddSub && IsAddSub(ot.value.kind)) then (lastJ, j)
      else ScanRight(ts, idx, ptr, ptrMax, j + 1, if IsMulDiv(ot.value.kind) then j else lastJ, scan)
  }

  /** The node `top` filled in, for a `top` at offset `ptr` and a window ending at
      `ptrMax`. Nodes of other kinds are returned as they are. */
  function Fill(ts: seq<Token>, idx: int, top: BinExpr, ptr: int, ptrMax: int, scan: RightScan): (r: Result<BinExpr, BuildError>)
    ensures r.Ok? ==> r.value.kind == top.kind
    decreases Rank(top.kind), Pos(idx + ptr), 2
  {
    if IsAddSubKind(top.kind) then
      var lhs :- FillAddSubLeft(ts, idx, top, ptr, ptrMax, scan);
      var rhs1 :- FillAddSubRight(ts, idx, top, ptr, ptrMax, scan);
      var rhs :- if PeekAt(ts, idx, ptr + 1).hasValue && !rhs1.BinRec? then
                   LeafAt(ts, idx, ptr + 1, RhsMissing)
                 else Ok(rhs1);
      Ok(BinExpr(top.kind, lhs, rhs))
    else if IsMulDivKind(top.kind) then
      var lhs :- FillMulDivLeft(ts, idx, top, ptr, ptrMax, scan);
      var rhs :- LeafAt(ts, idx, ptr + 1, RhsMissing);
      Ok(BinExpr(top.kind, lhs, rhs))
    else Ok(top)
  }

  /** The subtree rooted at the operator token at offset `at`, as a child record. */
  function Subtree(ts: seq<Token>, idx: int, at: int, ptrMax: int, scan: RightScan): (r: Result<Rec, BuildError>)
    requires PeekAt(ts, idx, at).hasValue
    decreases Rank(OpKind(ts[idx + at].kind)), Pos(idx + at), 3
  {
    var sub :- Fill(ts, idx, Fresh(OpKind(ts[idx + at].kind)), at, ptrMax, scan);
    Ok(BinRec(sub))
  }

  /** The left child of a `+`/`-` node. */
  function FillAddSubLeft(ts: seq<Token>, idx: int, top: BinExpr, ptr: int, ptrMax: int, scan: RightScan): Result<Rec, BuildError>
    requires IsAddSubKind(top.kind)
    decreases Rank(top.kind), Pos(idx + ptr), 1
  {
    match ScanLeft(ts, idx, ptr, 1, true)
    case Some(i) => Subtree(ts, idx, ptr - 2 * i, ptrMax, scan)
    case None =>
      match ScanLeft(ts, idx, ptr, 1, false)
      case Some(i) => Subtree(ts, idx, ptr - 2 * i, ptrMax, scan)
      case None => LeafAt(ts, idx, ptr - 1, LhsMissing)
  }

  /** The right child of a `+`/`-` node before the immediate operand is considered. */
  function FillAddSubRight(ts: seq<Token>, idx: int, top: BinExpr, ptr: int, ptrMax: int, scan: RightScan): Result<Rec, BuildError>
    requires IsAddSubKind(top.kind)
    decreases Rank(top.kind), Pos(idx + ptr), 1
  {
    if PeekAt(ts, idx, ptr + 2).hasValue && !IsAddSub(ts[idx + ptr + 2].kind) then
      var found := ScanRight(ts, idx, ptr, ptrMax, 1, 0, scan);
      if found.0 > 0 then Subtree(ts, idx, ptr + 2 * found.0, ptrMax, scan)
      else if ptr + 2 * found.1 - 1 <= ptrMax then LeafAt(ts, idx, ptr + 2 * found.1 - 1, RhsMissing)
      else Ok(top.rhs)
    else Ok(top.rhs)
  }

  /** The left child of a `*`/`/` node: a chain to the `*`/`/` two places to the left, or
      the operand just before it. */
  function FillMulDivLeft(ts: seq<Token>, idx: int, top: BinExpr, ptr: int, ptrMax: int, scan: RightScan): Result<Rec, BuildError>
    requires IsMulDivKind(top.kind)
    decreases Rank(top.kind), Pos(idx + ptr), 1
  {
    if PeekAt(ts, idx, ptr - 2).hasValue && IsMulDiv(ts[idx + ptr - 2].kind) then
      Subtree(ts, idx, ptr - 2, ptrMax, scan)
    else LeafAt(ts, idx, ptr - 1, LhsMissing)
  }

  /** The entry point: a NULL `top` is fatal; otherwise the record points at `top`
      filled in. */
  function ParseBinStmtRec(ts: seq<Token>, idx: int, top: Option<BinExpr>, ptr: int, ptrMax: int, scan: RightScan): (r: Result<Rec, BuildError>)
    ensures top.None? ==> r == Err(NullTop)
    ensures r.Ok? ==> top.Some? && r.value.BinRec? && r.value.bin.kind == top.value.kind
  {
    if top.None? then Err(NullTop)
    else
      var b :- Fill(ts, idx, top.value, ptr, ptrMax, scan);
      Ok(BinRec(b))
  }

  /** The left scan loop of a `+`/`-` node. */
  method FindLeft(p: Parser, ptr: int, addSub: bool) returns (found: bool, i: int)
    ensures found <==> ScanLeft(p.tokens, p.index, ptr, 1, addSub).Some?
    ensures found ==> i == ScanLeft(p.tokens, p.index, ptr, 1, addSub).value
  {
    i := 1;
    found := false;
    while ptr - 2 * i >= 0
      invariant ScanLeft(p.tokens, p.index, ptr, 1, addSub) == ScanLeft(p.tokens, p.index, ptr, i, addSub)
      decreases ptr - 2 * i
    {
      var ot := PeekAt(p.tokens, p.index, ptr - 2 * i);
      if !ot.hasValue {
        break;
      }
      if (if addSub then IsAddSub(ot.value.kind) else IsMulDiv(ot.value.kind)) {
        found := true;
        break;
      }
      i := i + 1;
    }
  }

  /** The right scan loop of a `+`/`-` node: the last `*`/`/` and where the scan stopped. */
  method FindLastMulDiv(p: Parser, ptr: int, ptrMax: int, scan: RightScan) returns (lastJ: int, j: int)
    ensures lastJ == ScanRight(p.tokens, p.index, ptr, ptrMax, 1, 0, scan).0
    ensures j == ScanRight(p.tokens, p.index, ptr, ptrMax, 1, 0, scan).1
  {
    lastJ := 0;
    j := 1;
    while ptr + 2 * j <= ptrMax
      invariant 0 <= lastJ < j
      invariant ScanRight(p.tokens, p.index, ptr, ptrMax, 1, 0, scan) == ScanRight(p.tokens, p.index, ptr, ptrMax, j, lastJ, scan)
      decreases ptrMax - ptr - 2 * j
    {
      var ot := PeekAt(p.tokens, p.index, ptr + 2 * j);
      if !ot.hasValue || (scan == StopAtAddSub && IsAddSub(ot.value.kind)) {
        break;
      }
      if IsMulDiv(ot.value.kind) {
        lastJ := j;
      }
      j := j + 1;
    }
  }

  /** A leaf from the token at an offset. */
  method LeafNode(p: Parser, off: int, missing: BuildError) returns (r: Result<Rec, BuildError>)
    ensures r == LeafAt(p.tokens, p.index, off, missing)
  {
    var tok := PeekAt(p.tokens, p.index, off);
    if !tok.hasValue {
      return Err(missing);
    }
    if tok.value.kind == Ident {
      r := Ok(NodeRec(IdentExpr(tok.value)));
    } else if tok.value.kind == IntLit {
      r := Ok(NodeRec(IntLitExpr(tok.value)));
    } else {
      r := Err(UnexpectedLeaf(tok.value.kind));
    }
  }

  /** The subtree for an operator node at `ptr`, the children set one after the other. */
  method FillNode(p: Parser, top: BinExpr, ptr: int, ptrMax: int, scan: RightScan) returns (r: Result<BinExpr, BuildError>)
    ensures r == Fill(p.tokens, p.index, top, ptr, ptrMax, scan)
    decreases Rank(top.kind), Pos(p.index + ptr), 3
  {
    if IsAddSubKind(top.kind) {
      var lhs := AddSubLeft(p, top, ptr, ptrMax, scan);
      if lhs.Err? {
        return Err(lhs.error);
      }
      var rhs := AddSubRight(p, top, ptr, ptrMax, scan);
      if rhs.Err? {
        return Err(rhs.error);
      }
      // the operand just after the operator replaces a right child that is not a subtree
      var t3 := PeekAt(p.tokens, p.index, ptr + 1);
      if t3.hasValue && !rhs.value.BinRec? {
        rhs := LeafNode(p, ptr + 1, RhsMissing);
        if rhs.Err? {
          return Err(rhs.error);
        }
      }
      return Ok(BinExpr(top.kind, lhs.value, rhs.value));
    } else if IsMulDivKind(top.kind) {
      var lhs := MulDivLeft(p, top, ptr, ptrMax, scan);
      if lhs.Err? {
        return Err(lhs.error);
      }
      var rhs := LeafNode(p, ptr + 1, RhsMissing);
      if rhs.Err? {
        return Err(rhs.error);
      }
      return Ok(BinExpr(top.kind, lhs.value, rhs.value));
    }
    return Ok(top);
  }

  /** The subtree of the operator token at offset `at`, of kind `k`, in a fresh node. */
  method SubtreeNode(p: Parser, k: BinExprKind, at: int, ptrMax: int, scan: RightScan) returns (r: Result<Rec, BuildError>)
    requires PeekAt(p.tokens, p.index, at).hasValue && k == OpKind(p.tokens[p.index + at].kind)
    ensures r == Subtree(p.tokens, p.index, at, ptrMax, scan)
    decreases Rank(k), Pos(p.index + at), 4
  {
    var sub := FillNode(p, Fresh(k), at, ptrMax, scan);
    if sub.Err? {
      return Err(sub.error);
    }
    return Ok(BinRec(sub.value));
  }

  /** The left child of a `+`/`-` node: the two scans to the left, then the operand. */
  method AddSubLeft(p: Parser, top: BinExpr, ptr: int, ptrMax: int, scan: RightScan) returns (r: Result<Rec, BuildError>)
    requires IsAddSubKind(top.kind)
    ensures r == FillAddSubLeft(p.tokens, p.index, top, ptr, ptrMax, scan)
    decreases Rank(top.kind), Pos(p.index + ptr), 2
  {
    var found, i := FindLeft(p, ptr, true);
    if !found {
      found, i := FindLeft(p, ptr, false);
    }
    if found {
      var op := PeekAt(p.tokens, p.index, ptr - 2 * i);
      var k := OpKind(op.value.kind);
      assert Pos(p.index + ptr - 2 * i) < Pos(p.index + ptr);
      r := SubtreeNode(p, k, ptr - 2 * i, ptrMax, scan);
    } else {
      r := LeafNode(p, ptr - 1, LhsMissing);
    }
  }

  /** The right child of a `+`/`-` node before the operand just after it is considered. */
  method AddSubRight(p: Parser, top: BinExpr, ptr: int, ptrMax: int, scan: RightScan) returns (r: Result<Rec, BuildError>)
    requires IsAddSubKind(top.kind)
    ensures r == FillAddSubRight(p.tokens, p.index, top, ptr, ptrMax, scan)
    decreases Rank(top.kind), Pos(p.index + ptr), 2
  {
    var t2 := PeekAt(p.tokens, p.index, ptr + 2);
    if t2.hasValue && !IsAddSub(t2.value.kind) {
      r := ScannedRight(p, top, ptr, ptrMax, scan);
    } else {
      r := Ok(top.rhs);
    }
  }

  /** The right child of a `+`/`-` node followed by an operand and no `+`/`-`: the scan
      for the rightmost `*`/`/`, else the operand where the scan stopped. */
  method ScannedRight(p: Parser, top: BinExpr, ptr: int, ptrMax: int, scan: RightScan) returns (r: Result<Rec, BuildError>)
    requires IsAddSubKind(top.kind)
    requires PeekAt(p.tokens, p.index, ptr + 2).hasValue && !IsAddSub(p.tokens[p.index + ptr + 2].kind)
    ensures r == FillAddSubRight(p.tokens, p.index, top, ptr, ptrMax, scan)
    decreases Rank(top.kind), Pos(p.index + ptr), 1
  {
    var lastJ, j := FindLastMulDiv(p, ptr, ptrMax, scan);
    if lastJ > 0 {
      var op := PeekAt(p.tokens, p.index, ptr + 2 * lastJ);
      var k := OpKind(op.value.kind);
      assert IsMulDivKind(k);
      r := SubtreeNode(p, k, ptr + 2 * lastJ, ptrMax, scan);
    } else if ptr + 2 * j - 1 <= ptrMax {
      r := LeafNode(p, ptr + 2 * j - 1, RhsMissing);
    } else {
      r := Ok(top.rhs);
    }
  }

  /** The left child of a `*`/`/` node. */
  method MulDivLeft(p: Parser, top: BinExpr, ptr: int, ptrMax: int, scan: RightScan) returns (r: Result<Rec, BuildError>)
    requires IsMulDivKind(top.kind)
    ensures r == FillMulDivLeft(p.tokens, p.index, top, ptr, ptrMax, scan)
    decreases Rank(top.kind), Pos(p.index + ptr), 2
  {
    var t := PeekAt(p.tokens, p.index, ptr - 2);
    if t.hasValue && IsMulDiv(t.value.kind) {
      var k := OpKind(t.value.kind);
      assert IsMulDivKind(k);
      r := SubtreeNode(p, k, ptr - 2, ptrMax, scan);
    } else {
      r := LeafNode(p, ptr - 1, LhsMissing);
    }
  }

  /** The C entry point `parse_bin_stmt_rec`. */
  method Build(p: Parser, top: Option<BinExpr>, ptr: int, ptrMax: int, scan: RightScan) returns (r: Result<Rec, BuildError>)
    ensures r == ParseBinStmtRec(p.tokens, p.index, top, ptr, ptrMax, scan)
  {
    if top.None? {
      return Err(NullTop);
    }
    var b := FillNode(p, top.value, ptr, ptrMax, scan);
    if b.Err? {
      return Err(b.error);
    }
    return Ok(BinRec(b.value));
  }

  /** A leaf the builder makes: a literal or a name from a token of the matching kind. */
  predicate IsLeaf(e: Expr) {
    (e.IntLitExpr? && e.intLit.kind == IntLit) || (e.IdentExpr? && e.ident.kind == Ident)
  }

  predicate IsAddSubNode(r: Rec) {
    r.BinRec? && IsAddSubKind(r.bin.kind)
  }

  /** The shape of the trees the builder makes: only `+ - * /` nodes and leaves; no
      right child is a `+`/`-` node, so `+`/`-` associate to the left; a `*`/`/` node's
      right child is a leaf and no `+`/`-` node sits below it, so `*`/`/` bind tighter
      and associate to the left. An unset right child is allowed. */
  predicate ShapedRec(r: Rec)
    decreases r, 0
  {
    match r
    case NullRec => true
    case NodeRec(e) => IsLeaf(e)
    case BinRec(b) => ShapedBin(b)
  }

  predicate ShapedBin(b: BinExpr)
    decreases b, 1
  {
    && (IsAddSubKind(b.kind) || IsMulDivKind(b.kind))
    && ShapedRec(b.lhs) && ShapedRec(b.rhs) && !IsAddSubNode(b.rhs)
    && (IsMulDivKind(b.kind) ==> b.rhs.NodeRec? && !IsAddSubNode(b.lhs))
  }

  /** Every tree the builder completes for a fresh operator node has that shape. */
  lemma {:induction false} FillShaped(ts: seq<Token>, idx: int, top: BinExpr, ptr: int, ptrMax: int, scan: RightScan)
    requires top == Fresh(top.kind) && (IsAddSubKind(top.kind) || IsMulDivKind(top.kind))
    requires Fill(ts, idx, top, ptr, ptrMax, scan).Ok?
    ensures ShapedBin(Fill(ts, idx, top, ptr, ptrMax, scan).value)
    decreases Rank(top.kind), Pos(idx + ptr), 2
  {
    if IsAddSubKind(top.kind) {
      AddSubLeftShaped(ts, idx, top, ptr, ptrMax, scan);
      AddSubRightShaped(ts, idx, top, ptr, ptrMax, scan);
    } else {
      MulDivLeftShaped(ts, idx, top, ptr, ptrMax, scan);
    }
  }

  lemma {:induction false} AddSubLeftShaped(ts: seq<Token>, idx: int, top: BinExpr, ptr: int, ptrMax: int, scan: RightScan)
    requires IsAddSubKind(top.kind)
    requires FillAddSubLeft(ts, idx, top, ptr, ptrMax, scan).Ok?
    ensures ShapedRec(FillAddSubLeft(ts, idx, top, ptr, ptrMax, scan).value)
    decreases Rank(top.kind), Pos(idx + ptr), 1
  {
    match ScanLeft(ts, idx, ptr, 1, true)
    case Some(i) => SubtreeShaped(ts, idx, ptr - 2 * i, ptrMax, scan);
    case None =>
      match ScanLeft(ts, idx, ptr, 1, false)
      case Some(i) => SubtreeShaped(ts, idx, ptr - 2 * i, ptrMax, scan);
      case None =>
  }

  lemma {:induction false} AddSubRightShaped(ts: seq<Token>, idx: int, top: BinExpr, ptr: int, ptrMax: int, scan: RightScan)
    requires top == Fresh(top.kind) && IsAddSubKind(top.kind)
    requires FillAddSubRight(ts, idx, top, ptr, ptrMax, scan).Ok?
    ensures ShapedRec(FillAddSubRight(ts, idx, top, ptr, ptrMax, scan).value)
    ensures !IsAddSubNode(FillAddSubRight(ts, idx, top, ptr, ptrMax, scan).value)
    decreases Rank(top.kind), Pos(idx + ptr), 1
  {
    if PeekAt(ts, idx, ptr + 2).hasValue && !IsAddSub(ts[idx + ptr + 2].kind) {
      var found := ScanRight(ts, idx, ptr, ptrMax, 1, 0, scan);
      if found.0 > 0 {
        SubtreeShaped(ts, idx, ptr + 2 * found.0, ptrMax, scan);
      }
    }
  }

  lemma {:induction false} MulDivLeftShaped(ts: seq<Token>, idx: int, top: BinExpr, ptr: int, ptrMax: int, scan: RightScan)
    requires IsMulDivKind(top.kind)
    requires FillMulDivLeft(ts, idx, top, ptr, ptrMax, scan).Ok?
    ensures ShapedRec(FillMulDivLeft(ts, idx, top, ptr, ptrMax, scan).value)
    ensures !IsAddSubNode(FillMulDivLeft(ts, idx, top, ptr, ptrMax, scan).value)
    decreases Rank(top.kind), Pos(idx + ptr), 1
  {
    if PeekAt(ts, idx, ptr - 2).hasValue && IsMulDiv(ts[idx + ptr - 2].kind) {
      SubtreeShaped(ts, idx, ptr - 2, ptrMax, scan);
    }
  }

  /** The subtree of an operator token has the shape; a `*`/`/` subtree is not a `+`/`-`
      node. */
  lemma {:induction false} SubtreeShaped(ts: seq<Token>, idx: int, at: int, ptrMax: int, scan: RightScan)
    requires PeekAt(ts, idx, at).hasValue
    requires IsAddSub(ts[idx + at].kind) || IsMulDiv(ts[idx + at].kind)
    requires Subtree(ts, idx, at, ptrMax, scan).Ok?
    ensures ShapedRec(Subtree(ts, idx, at, ptrMax, scan).value)
    ensures IsMulDiv(ts[idx + at].kind) ==> !IsAddSubNode(Subtree(ts, idx, at, ptrMax, scan).value)
    decreases Rank(OpKind(ts[idx + at].kind)), Pos(idx + at), 3
  {
    FillShaped(ts, idx, Fresh(OpKind(ts[idx + at].kind)), at, ptrMax, scan);
  }

  /** The entry point called with a fresh `+ - * /` node: a completed tree has the
      shape, and its root is that node. */
  lemma ParseBinStmtRecShaped(ts: seq<Token>, idx: int, k: BinExprKind, ptr: int, ptrMax: int, scan: RightScan)
    requires IsAddSubKind(k) || IsMulDivKind(k)
    requires ParseBinStmtRec(ts, idx, Some(Fresh(k)), ptr, ptrMax, scan).Ok?
    ensures ShapedRec(ParseBinStmtRec(ts, idx, Some(Fresh(k)), ptr, ptrMax, scan).value)
    ensures ParseBinStmtRec(ts, idx, Some(Fresh(k)), ptr, ptrMax, scan).value.bin.kind == k
  {
    FillShaped(ts, idx, Fresh(k), ptr, ptrMax, scan);
  }
}
