/** The scope helpers, and the copy of the generator helpers kept beside them.

    The copy is the generator's code except in three places, which are modelled here:
    its first pass also registers the statement that starts a `for` loop, its second
    pass walks `for` loops, and its `gen_expr_to_rax` reports an empty expression with a
    comment of its own. Everything else the copy shares with the generator (`emit`,
    `ensure_var_slot`, `lookup_var_slot`, the binary-node lowering) is modelled once,
    in `Generation`. The copy has a label counter of its own, so its expression
    lowering runs the shared code on that counter and not on the generator's.

    The helpers are free functions over a `gen_data` in the C program, so they are
    methods over a `GenData` object here. */
module Helper {
  import opened Wrappers
  import Tokens
  import opened Ast
  import opened Asm
  import opened Semantics
  import opened Slots
  import opened Lowering
  import opened Generation

  // ---------------------------------------------------------------------------------
  // Statements without `for` loops, on which the copy and the generator agree

  predicate NoForStmt(s: Stmt)
    decreases s, 1
  {
    match s
    case For(_, _, _, _) => false
    case If(_, body) => NoForStmts(body)
    case _ => true
  }

  predicate NoForStmts(ss: seq<Stmt>)
    decreases ss, 0
  {
    forall i :: 0 <= i < |ss| ==> NoForStmt(ss[i])
  }

  // ---------------------------------------------------------------------------------
  // The first pass of the copy

  /** `collect_vars_in_stmt` of the copy: as the generator's, and a `for` loop
      registers what its first statement declares (its body is not visited). */
  function CollectStmtH(vars: VarTable, s: Stmt): VarTable
    decreases s, 1
  {
    match s
    case Let(t, _) => Ensure(vars, TokenText(t))
    case If(_, body) => CollectStmtsH(vars, body)
    case For(init, _, _, _) => CollectStmtH(vars, init)
    case _ => vars
  }

  function CollectStmtsH(vars: VarTable, ss: seq<Stmt>): VarTable
    decreases ss, 0
  {
    if ss == [] then vars else CollectStmtH(CollectStmtsH(vars, ss[..|ss| - 1]), ss[|ss| - 1])
  }

  /** Without `for` loops the copy's first pass builds the generator's table. */
  lemma {:induction false} CollectStmtsAgree(vars: VarTable, ss: seq<Stmt>)
    requires NoForStmts(ss)
    ensures CollectStmtsH(vars, ss) == CollectStmts(vars, ss)
    decreases ss, 0
  {
    if ss != [] {
      var init := ss[..|ss| - 1];
      assert NoForStmts(init) by {
        forall i | 0 <= i < |init| ensures NoForStmt(init[i]) {
          assert init[i] == ss[i];
        }
      }
      CollectStmtsAgree(vars, init);
      CollectStmtAgree(CollectStmts(vars, init), ss[|ss| - 1]);
    }
  }

  lemma {:induction false} CollectStmtAgree(vars: VarTable, s: Stmt)
    requires NoForStmt(s)
    ensures CollectStmtH(vars, s) == CollectStmt(vars, s)
    decreases s, 1
  {
    match s
    case If(_, body) => CollectStmtsAgree(vars, body);
    case Let(_, _) =>
    case Exit(_) =>
    case CharDecl(_, _) =>
    case IntDecl(_, _) =>
    case ShortDecl(_, _) =>
    case LongDecl(_, _) =>
    case Vchange(_, _) =>
    case Else(_) =>
    case While(_, _) =>
  }

  /** `collect_vars_in_stmt` of the copy. */
  method CollectVarsInStmt(g: GenData, s: Stmt)
    modifies g
    ensures g.vars == CollectStmtH(old(g.vars), s)
    ensures g.output == old(g.output) && g.labels == old(g.labels) && g.blocks == old(g.blocks)
    decreases s, 1
  {
    match s
    case Let(t, _) => g.EnsureVarSlot(TokenText(t));
    case If(_, body) => CollectVars(g, body);
    case For(init, _, _, _) => CollectVarsInStmt(g, init);
    case _ =>
  }

  /** `collect_vars` of the copy, and the loop over an `if` body. */
  method CollectVars(g: GenData, ss: seq<Stmt>)
    modifies g
    ensures g.vars == CollectStmtsH(old(g.vars), ss)
    ensures g.output == old(g.output) && g.labels == old(g.labels) && g.blocks == old(g.blocks)
    decreases ss, 0
  {
    for k := 0 to |ss|
      invariant g.vars == CollectStmtsH(old(g.vars), ss[..k])
      invariant g.output == old(g.output) && g.labels == old(g.labels) && g.blocks == old(g.blocks)
    {
      assert ss[..k + 1][..k] == ss[..k];
      CollectVarsInStmt(g, ss[k]);
    }
    assert ss[..|ss|] == ss;
  }

  // ---------------------------------------------------------------------------------
  // The second pass of the copy, as written

  /** `assign_slots_in_stmt` of the copy. Its `for` case hands `next_slot` to the loop's
      first statement with `next_slot++`, which advances the pointer rather than the
      counter, so the body is given a pointer one past the counter. `counter` says
      whether `next_slot` still points at the counter; a declaration that needs a new
      slot through the advanced pointer is undefined behaviour, `None` here. */
  function AssignStmtH(a: Alloc, s: Stmt, counter: bool): Option<Alloc>
    decreases s, 1
  {
    match s
    case Let(t, _) =>
      var name := TokenText(t);
      var v := Ensure(a.vars, name);
      if v[name] != Unassigned then Some(Alloc(v, a.next))
      else if counter then Some(Alloc(v[name := a.next], a.next + 1))
      else None
    case If(_, body) => AssignStmtsH(a, body, counter)
    case For(init, _, _, body) =>
      var a1 :- AssignStmtH(a, init, counter);
      AssignStmtsH(a1, body, false)
    case _ => Some(a)
  }

  function AssignStmtsH(a: Alloc, ss: seq<Stmt>, counter: bool): Option<Alloc>
    decreases ss, 0
  {
    if ss == [] then Some(a)
    else
      var a1 :- AssignStmtsH(a, ss[..|ss| - 1], counter);
      AssignStmtH(a1, ss[|ss| - 1], counter)
  }

  /** Without `for` loops the copy's second pass is the generator's. */
  lemma {:induction false} AssignStmtsAgree(a: Alloc, ss: seq<Stmt>)
    requires NoForStmts(ss)
    ensures AssignStmtsH(a, ss, true) == Some(AssignStmts(a, ss))
    decreases ss, 0
  {
    if ss != [] {
      var init := ss[..|ss| - 1];
      assert NoForStmts(init) by {
        forall i | 0 <= i < |init| ensures NoForStmt(init[i]) {
          assert init[i] == ss[i];
        }
      }
      AssignStmtsAgree(a, init);
      AssignStmtAgree(AssignStmts(a, init), ss[|ss| - 1]);
    }
  }

  lemma {:induction false} AssignStmtAgree(a: Alloc, s: Stmt)
    requires NoForStmt(s)
    ensures AssignStmtH(a, s, true) == Some(AssignStmt(a, s))
    decreases s, 1
  {
    match s
    case If(_, body) => AssignStmtsAgree(a, body);
    case Let(_, _) =>
    case Exit(_) =>
    case CharDecl(_, _) =>
    case IntDecl(_, _) =>
    case ShortDecl(_, _) =>
    case LongDecl(_, _) =>
    case Vchange(_, _) =>
    case Else(_) =>
    case While(_, _) =>
  }

  /** Once a statement of a list is undefined, so is the whole list. */
  lemma {:induction false} AssignStmtsUndefinedPrefix(a: Alloc, ss: seq<Stmt>, k: nat, counter: bool)
    requires k <= |ss|
    requires AssignStmtsH(a, ss[..k], counter) == None
    ensures AssignStmtsH(a, ss, counter) == None
    decreases |ss| - k
  {
    if k < |ss| {
      assert ss[..k + 1][..k] == ss[..k];
      AssignStmtsUndefinedPrefix(a, ss, k + 1, counter);
    } else {
      assert ss[..k] == ss;
    }
  }

  /** A `for` loop whose body starts by declaring a name that has no slot after the
      loop's first statement makes the second pass write through the advanced pointer. */
  lemma ForBodyDeclUndefined(a: Alloc, init: Stmt, cond: Expr, step: Stmt, t: Tokens.Token, e: Expr, rest: seq<Stmt>)
    requires AssignStmtH(a, init, true).Some?
    requires var a1 := AssignStmtH(a, init, true).value;
      TokenText(t) !in a1.vars || a1.vars[TokenText(t)] == Unassigned
    ensures AssignStmtH(a, For(init, cond, step, [Let(t, e)] + rest), true) == None
  {
    var a1 := AssignStmtH(a, init, true).value;
    var body := [Let(t, e)] + rest;
    assert body[..1] == [Let(t, e)];
    assert body[..1][..0] == [];
    assert AssignStmtsH(a1, body[..1], false) == None;
    AssignStmtsUndefinedPrefix(a1, body, 1, false);
  }

  /** The smallest such program: `for (let i = 0; …) { let j = 1; }` from an empty
      table. The generator, which ignores `for`, leaves the table as it is. */
  lemma ForExampleUndefined(i: Tokens.Token, j: Tokens.Token, zero: Expr, one: Expr, cond: Expr, step: Stmt)
    requires TokenText(i) != TokenText(j)
    ensures AssignStmtH(Alloc(map[], 0), For(Let(i, zero), cond, step, [Let(j, one)]), true) == None
    ensures AssignStmt(Alloc(map[], 0), For(Let(i, zero), cond, step, [Let(j, one)])) == Alloc(map[], 0)
  {
    ForBodyDeclUndefined(Alloc(map[], 0), Let(i, zero), cond, step, j, one, []);
    assert [Let(j, one)] + [] == [Let(j, one)];
  }

  /** `assign_slots_in_stmt` of the copy: the counter goes in as `next` and comes out
      in `r`; `None` is the write through the advanced pointer. */
  method AssignSlotsInStmt(g: GenData, s: Stmt, next: int, counter: bool) returns (r: Option<int>)
    modifies g
    ensures r.Some? <==> AssignStmtH(Alloc(old(g.vars), next), s, counter).Some?
    ensures r.Some? ==> Alloc(g.vars, r.value) == AssignStmtH(Alloc(old(g.vars), next), s, counter).value
    ensures g.output == old(g.output) && g.labels == old(g.labels) && g.blocks == old(g.blocks)
    decreases s, 1
  {
    match s
    case Let(t, _) =>
      var name := TokenText(t);
      g.EnsureVarSlot(name);
      if g.vars[name] != Unassigned {
        return Some(next);
      }
      if !counter {
        return None;
      }
      g.vars := g.vars[name := next];
      return Some(next + 1);
    case If(_, body) =>
      r := AssignSlots(g, body, next, counter);
    case For(init, _, _, body) =>
      r := AssignSlotsInStmt(g, init, next, counter);
      if r.None? {
        return;
      }
      r := AssignSlots(g, body, r.value, false);
    case _ =>
      r := Some(next);
  }

  /** The loop over an `if` or `for` body in `assign_slots_in_stmt` of the copy. */
  method AssignSlots(g: GenData, ss: seq<Stmt>, next: int, counter: bool) returns (r: Option<int>)
    modifies g
    ensures r.Some? <==> AssignStmtsH(Alloc(old(g.vars), next), ss, counter).Some?
    ensures r.Some? ==> Alloc(g.vars, r.value) == AssignStmtsH(Alloc(old(g.vars), next), ss, counter).value
    ensures g.output == old(g.output) && g.labels == old(g.labels) && g.blocks == old(g.blocks)
    decreases ss, 0
  {
    var cur := next;
    assert ss[..0] == [];
    for k := 0 to |ss|
      invariant AssignStmtsH(Alloc(old(g.vars), next), ss[..k], counter) == Some(Alloc(g.vars, cur))
      invariant g.output == old(g.output) && g.labels == old(g.labels) && g.blocks == old(g.blocks)
    {
      assert ss[..k + 1][..k] == ss[..k];
      var step := AssignSlotsInStmt(g, ss[k], cur, counter);
      if step.None? {
        AssignStmtsUndefinedPrefix(Alloc(old(g.vars), next), ss, k + 1, counter);
        return None;
      }
      cur := step.value;
    }
    assert ss[..|ss|] == ss;
    r := Some(cur);
  }

  // ---------------------------------------------------------------------------------
  // The second pass with the `for` case as evidently intended

  /** The names declared, in the order the second pass visits them, `for` loops
      included: the loop's first statement, then its body. */
  function DeclsStmtF(s: Stmt): seq<string>
    decreases s, 1
  {
    match s
    case Let(t, _) => [TokenText(t)]
    case If(_, body) => DeclsF(body)
    case For(init, _, _, body) => DeclsStmtF(init) + DeclsF(body)
    case _ => []
  }

  function DeclsF(ss: seq<Stmt>): seq<string>
    decreases ss, 0
  {
    if ss == [] then [] else DeclsF(ss[..|ss| - 1]) + DeclsStmtF(ss[|ss| - 1])
  }

  /** The `for` case passing `next_slot` itself to the first statement and the body. */
  function AssignStmtFixed(a: Alloc, s: Stmt): Alloc
    decreases s, 1
  {
    match s
    case Let(_, _) => AssignStmt(a, s)
    case If(_, body) => AssignStmtsFixed(a, body)
    case For(init, _, _, body) => AssignStmtsFixed(AssignStmtFixed(a, init), body)
    case _ => a
  }

  function AssignStmtsFixed(a: Alloc, ss: seq<Stmt>): Alloc
    decreases ss, 0
  {
    if ss == [] then a else AssignStmtFixed(AssignStmtsFixed(a, ss[..|ss| - 1]), ss[|ss| - 1])
  }

  /** With the correction, the pass keeps slots following the first-occurrence order of
      the declared names, `for` loops included, so distinct names get distinct slots
      0..n-1. */
  lemma {:induction false} AssignStmtsFixedSpec(vars: VarTable, L: seq<string>, ss: seq<Stmt>)
    requires SlotsFollow(vars, L)
    ensures var a := AssignStmtsFixed(Alloc(vars, |L|), ss);
      && SlotsFollow(a.vars, Extend(L, DeclsF(ss)))
      && a.next == |Extend(L, DeclsF(ss))|
    decreases ss, 0
  {
    if ss != [] {
      var init, last := ss[..|ss| - 1], ss[|ss| - 1];
      AssignStmtsFixedSpec(vars, L, init);
      var a1 := AssignStmtsFixed(Alloc(vars, |L|), init);
      AssignStmtFixedSpec(a1.vars, Extend(L, DeclsF(init)), last);
      ExtendAppend(L, DeclsF(init), DeclsStmtF(last));
    }
  }

  lemma {:induction false} AssignStmtFixedSpec(vars: VarTable, L: seq<string>, s: Stmt)
    requires SlotsFollow(vars, L)
    ensures var a := AssignStmtFixed(Alloc(vars, |L|), s);
      && SlotsFollow(a.vars, Extend(L, DeclsStmtF(s)))
      && a.next == |Extend(L, DeclsStmtF(s))|
    decreases s, 1
  {
    match s
    case Let(_, _) =>
      AssignStmtSpec(vars, L, s);
    case If(_, body) =>
      AssignStmtsFixedSpec(vars, L, body);
    case For(init, _, _, body) =>
      AssignStmtFixedSpec(vars, L, init);
      var a1 := AssignStmtFixed(Alloc(vars, |L|), init);
      AssignStmtsFixedSpec(a1.vars, Extend(L, DeclsStmtF(init)), body);
      ExtendAppend(L, DeclsStmtF(init), DeclsF(body));
    case Exit(_) =>
    case CharDecl(_, _) =>
    case IntDecl(_, _) =>
    case ShortDecl(_, _) =>
    case LongDecl(_, _) =>
    case Vchange(_, _) =>
    case Else(_) =>
    case While(_, _) =>
  }

  /** The corrected pass accepts the program the pass as written cannot. */
  lemma ForExampleFixed(i: Tokens.Token, j: Tokens.Token, zero: Expr, one: Expr, cond: Expr, step: Stmt)
    requires TokenText(i) != TokenText(j)
    ensures var a := AssignStmtFixed(Alloc(map[], 0), For(Let(i, zero), cond, step, [Let(j, one)]));
      a.vars == map[TokenText(i) := 0, TokenText(j) := 1] && a.next == 2
  {
    var a1 := AssignStmtFixed(Alloc(map[], 0), Let(i, zero));
    assert a1 == Alloc(map[TokenText(i) := 0], 1);
    assert [Let(j, one)][..0] == [];
    var v := Ensure(a1.vars, TokenText(j));
    assert v == map[TokenText(i) := 0, TokenText(j) := Unassigned];
    assert AssignStmtsFixed(a1, [Let(j, one)]) == AssignStmt(a1, Let(j, one));
    assert AssignStmt(a1, Let(j, one)) == Alloc(v[TokenText(j) := 1], 2);
    assert v[TokenText(j) := 1] == map[TokenText(i) := 0, TokenText(j) := 1];
  }

  // ---------------------------------------------------------------------------------
  // `gen_expr_to_rax` of the copy

  /** `gen_expr_to_rax` of the copy: an empty expression gives the comment
      `; gen_expr: NULL`; the other kinds lower as in the generator. */
  function ExprCodeH(vars: VarTable, e: Expr, n: int): Result<Code, GenError> {
    match e
    case EmptyExpr => Ok(Code([Comment("gen_expr: NULL")], n))
    case IntLitExpr(t) => Ok(Code([MovRaxImm(TokenText(t))], n))
    case IdentExpr(t) =>
      var slot :- Lookup(vars, TokenText(t));
      Ok(Code([LoadVar(SlotToOffset(slot))], n))
    case BinNode(b) => BinCode(vars, b, n)
    case CharExpr(_) => Ok(Code([Comment("gen_expr: unknown kind " + IntToString(ExprKindNumber(e)))], n))
  }

  /** The two copies of `gen_expr_to_rax` differ only on the empty expression, where the
      copy emits one comment line and leaves the label counter alone. */
  lemma ExprCodeAgree(vars: VarTable, e: Expr, n: int)
    ensures !e.EmptyExpr? ==> ExprCodeH(vars, e, n) == ExprCode(vars, e, n)
    ensures e.EmptyExpr? ==>
      && ExprCodeH(vars, e, n) == Ok(Code([Comment("gen_expr: NULL")], n))
      && ExprCode(vars, e, n) == Ok(Code([Comment("gen_expr: unknown kind 4")], n))
  {
    if e.EmptyExpr? {
      assert DigitChar(4) == '4';
      assert NatToString(4) == "4";
      assert IntToString(4) == "4";
      assert ExprKindNumber(e) == 4;
      assert "gen_expr: unknown kind " + "4" == "gen_expr: unknown kind 4";
    }
  }

  /** `gen_expr_to_rax` of the copy. The copy numbers its labels with a counter of its
      own (the non-static `__label_counter` of `helper.c`, which `generate_gen_data`
      never resets): its value comes in as `counter` and goes out as `counter'`, and the
      generator's counter `g.labels` is left as it was. */
  method GenExprToRax(g: GenData, e: Expr, counter: int) returns (res: Result<(), GenError>, counter': int)
    modifies g
    ensures g.vars == old(g.vars) && g.blocks == old(g.blocks) && g.labels == old(g.labels)
    ensures Produced(ExprCodeH(g.vars, e, counter), old(g.output), g.output, counter', res)
  {
    var saved := g.labels;
    g.labels := counter;
    match e {
      case EmptyExpr =>
        g.Emit(Comment("gen_expr: NULL"));
        RenderAllOne(Comment("gen_expr: NULL"));
        res := Ok(());
      case IntLitExpr(t) =>
        g.Emit(MovRaxImm(TokenText(t)));
        RenderAllOne(MovRaxImm(TokenText(t)));
        res := Ok(());
      case IdentExpr(t) =>
        var slot := g.LookupVarSlot(TokenText(t));
        if slot.Err? {
          res := Err(slot.error);
        } else {
          g.Emit(LoadVar(SlotToOffset(slot.value)));
          RenderAllOne(LoadVar(SlotToOffset(slot.value)));
          res := Ok(());
        }
      case BinNode(b) =>
        res := g.GenBinexprToRax(b);
      case CharExpr(_) =>
        g.Emit(Comment("gen_expr: unknown kind " + IntToString(ExprKindNumber(e))));
        RenderAllOne(Comment("gen_expr: unknown kind " + IntToString(ExprKindNumber(e))));
        res := Ok(());
    }
    counter' := g.labels;
    g.labels := saved;
  }

  // ---------------------------------------------------------------------------------
  // Scope helpers

  /** The fatal errors of `delete_local_var`. */
  datatype ScopeError = NoBlock | NotFound(name: string)

  /** Removing names from the table one after another; the first name with no entry
      (such as a name listed twice, the second time) is fatal. */
  function DeleteNames(vars: VarTable, names: seq<string>): Result<VarTable, ScopeError> {
    if names == [] then Ok(vars)
    else
      var v :- DeleteNames(vars, names[..|names| - 1]);
      var x := names[|names| - 1];
      if x in v then Ok(v - {x}) else Err(NotFound(x))
  }

  /** Deleting succeeds exactly when the names are distinct and all have entries, and
      then it removes exactly those names: every other entry keeps its slot. */
  lemma {:induction false} DeleteNamesSpec(vars: VarTable, names: seq<string>)
    ensures DeleteNames(vars, names).Ok? <==> Distinct(names) && forall i :: 0 <= i < |names| ==> names[i] in vars
    ensures DeleteNames(vars, names).Ok? ==>
      && (forall x :: x in DeleteNames(vars, names).value <==> x in vars && x !in names)
      && (forall x :: x in DeleteNames(vars, names).value ==> DeleteNames(vars, names).value[x] == vars[x])
  {
    if names != [] {
      var init, x := names[..|names| - 1], names[|names| - 1];
      DeleteNamesSpec(vars, init);
      assert forall y :: y in names <==> y in init || y == x by {
        assert names == init + [x];
      }
      assert Distinct(names) <==> Distinct(init) && x !in init by {
        if Distinct(names) {
          forall i | 0 <= i < |init| ensures init[i] != x {
            assert init[i] == names[i] && x == names[|names| - 1];
          }
        }
        if Distinct(init) && x !in init {
          forall i, j | 0 <= i < j < |names| ensures names[i] != names[j] {
            if j < |names| - 1 {
              assert names[i] == init[i] && names[j] == init[j];
            } else {
              assert names[i] == init[i];
            }
          }
        }
      }
      assert (forall i :: 0 <= i < |names| ==> names[i] in vars)
          <==> (forall i :: 0 <= i < |init| ==> init[i] in vars) && x in vars by {
        if forall i :: 0 <= i < |names| ==> names[i] in vars {
          forall i | 0 <= i < |init| ensures init[i] in vars {
            assert init[i] == names[i];
          }
          assert names[|names| - 1] in vars;
        }
        if (forall i :: 0 <= i < |init| ==> init[i] in vars) && x in vars {
          forall i | 0 <= i < |names| ensures names[i] in vars {
            if i < |init| {
              assert names[i] == init[i];
            }
          }
        }
      }
    }
  }

  /** What `delete_local_var` does, as a function of the table and the block stack. */
  function DeleteLocal(vars: VarTable, blocks: Option<seq<seq<string>>>): Result<VarTable, ScopeError> {
    if blocks.None? || |blocks.value| == 0 then Err(NoBlock)
    else DeleteNames(vars, blocks.value[|blocks.value| - 1])
  }

  /** `delete_local_var`: remove the names of the innermost block from the table. The
      block stack, the output and the label counter are left as they are. */
  method DeleteLocalVar(g: GenData) returns (res: Result<(), ScopeError>)
    modifies g
    ensures res.Err? <==> DeleteLocal(old(g.vars), old(g.blocks)).Err?
    ensures res.Err? ==> res.error == DeleteLocal(old(g.vars), old(g.blocks)).error
    ensures res.Ok? ==> g.vars == DeleteLocal(old(g.vars), old(g.blocks)).value
    ensures g.blocks == old(g.blocks) && g.output == old(g.output) && g.labels == old(g.labels)
  {
    if g.blocks.None? || |g.blocks.value| == 0 {
      return Err(NoBlock);
    }
    var last := g.blocks.value[|g.blocks.value| - 1];
    for i := 0 to |last|
      invariant DeleteNames(old(g.vars), last[..i]) == Ok(g.vars)
      invariant g.blocks == old(g.blocks) && g.output == old(g.output) && g.labels == old(g.labels)
    {
      var key := last[i];
      assert last[..i + 1][..i] == last[..i];
      if key !in g.vars {
        DeleteNamesFails(old(g.vars), last, i + 1);
        return Err(NotFound(key));
      }
      g.vars := g.vars - {key};
    }
    assert last[..|last|] == last;
    res := Ok(());
  }

  /** A name that fails stops the deletion with its error, whatever follows it. */
  lemma {:induction false} DeleteNamesFails(vars: VarTable, names: seq<string>, k: nat)
    requires 0 < k <= |names|
    requires DeleteNames(vars, names[..k]).Err?
    ensures DeleteNames(vars, names) == DeleteNames(vars, names[..k])
    decreases |names| - k
  {
    if k < |names| {
      assert names[..k + 1][..k] == names[..k];
      DeleteNamesFails(vars, names, k + 1);
    } else {
      assert names[..k] == names;
    }
  }

  /** The block stack after `remove_last_block`. */
  function PopBlock(blocks: Option<seq<seq<string>>>): (r: Option<seq<seq<string>>>)
    ensures blocks.None? || |blocks.value| == 0 ==> r == blocks
    ensures blocks.Some? && |blocks.value| > 0 ==>
      && r.Some? && |r.value| == |blocks.value| - 1
      && forall i :: 0 <= i < |r.value| ==> r.value[i] == blocks.value[i]
  {
    if blocks.None? || |blocks.value| == 0 then blocks
    else Some(blocks.value[..|blocks.value| - 1])
  }

  /** `remove_last_block`: nothing to do without blocks; otherwise the innermost block
      is dropped and the others stay as they are. */
  method RemoveLastBlock(g: GenData)
    modifies g
    ensures g.blocks == PopBlock(old(g.blocks))
    ensures g.vars == old(g.vars) && g.output == old(g.output) && g.labels == old(g.labels)
  {
    if g.blocks.None? || |g.blocks.value| == 0 {
      return;
    }
    g.blocks := Some(g.blocks.value[..|g.blocks.value| - 1]);
  }

  /** Leaving a scope, `delete_local_var` then `remove_last_block`: the names of the
      innermost block are gone from the table, the other entries keep their slots, and
      the stack has one block fewer. */
  lemma LeaveScope(vars: VarTable, outer: seq<seq<string>>, inner: seq<string>)
    requires Distinct(inner) && forall i :: 0 <= i < |inner| ==> inner[i] in vars
    ensures DeleteLocal(vars, Some(outer + [inner])).Ok?
    ensures var v := DeleteLocal(vars, Some(outer + [inner])).value;
      && (forall x :: x in v <==> x in vars && x !in inner)
      && (forall x :: x in v ==> v[x] == vars[x])
    ensures PopBlock(Some(outer + [inner])) == Some(outer)
  {
    assert (outer + [inner])[|outer + [inner]| - 1] == inner;
    DeleteNamesSpec(vars, inner);
    assert (outer + [inner])[..|outer|] == outer;
  }
}
