/** The variable-slot allocator of the generator: the table from names to stack slots
    (`-1` standing for "no slot yet"), its two passes over the program, the slot-to-offset
    mapping and the frame size.

    The passes visit `let` statements and the bodies of `if` statements; an `else` or any
    other statement contributes nothing. Walking the expressions of `let`, `exit` and `if`
    never changes the table, so those walks do not appear here. */
module Slots {
  import opened Wrappers
  import opened Ast
  import opened Semantics

  type VarTable = map<string, int>

  const Unassigned: int := -1

  /** The frame offset of a slot: slot `i` is the 8-byte cell at `[rbp - 8*(i+1)]`. */
  function SlotToOffset(slot: int): (off: int)
    ensures off % 8 == 0
    ensures slot >= 0 ==> off >= 8
  {
    8 * (slot + 1)
  }

  /** Distinct slots get disjoint 8-byte cells (and so distinct offsets). */
  lemma SlotCellsDisjoint(s1: int, s2: int)
    requires s1 >= 0 && s2 >= 0 && s1 != s2
    ensures SlotToOffset(s1) + 8 <= SlotToOffset(s2) || SlotToOffset(s2) + 8 <= SlotToOffset(s1)
  {
  }

  /** Bytes reserved below rbp: `8*slots` rounded up to a multiple of 16 when positive. */
  function FrameBytes(slots: int): (bytes: int)
    ensures slots > 0 ==> bytes % 16 == 0 && 8 * slots <= bytes < 8 * slots + 16
    ensures slots <= 0 ==> bytes == 8 * slots
  {
    var b := slots * 8;
    if b > 0 then ((b + 15) / 16) * 16 else b
  }

  /** `ensure_var_slot`: give a name an entry with no slot, unless it has one already. */
  function Ensure(vars: VarTable, name: string): (r: VarTable)
    ensures r.Keys == vars.Keys + {name}
    ensures forall x :: x in vars ==> r[x] == vars[x]
    ensures name !in vars ==> r[name] == Unassigned
  {
    if name in vars then vars else vars[name := Unassigned]
  }

  lemma EnsureIdempotent(vars: VarTable, name: string)
    ensures Ensure(Ensure(vars, name), name) == Ensure(vars, name)
  {
  }

  /** The names declared by `let` statements, in the order the passes visit them. */
  function DeclsStmt(s: Stmt): seq<string>
    decreases s, 1
  {
    match s
    case Let(t, _) => [TokenText(t)]
    case If(_, body) => Decls(body)
    case _ => []
  }

  function Decls(ss: seq<Stmt>): seq<string>
    decreases ss, 0
  {
    if ss == [] then [] else Decls(ss[..|ss| - 1]) + DeclsStmt(ss[|ss| - 1])
  }

  /** The first pass (`collect_vars_in_stmt`): an entry for every declared name. */
  function CollectStmt(vars: VarTable, s: Stmt): VarTable
    decreases s, 1
  {
    match s
    case Let(t, _) => Ensure(vars, TokenText(t))
    case If(_, body) => CollectStmts(vars, body)
    case _ => vars
  }

  function CollectStmts(vars: VarTable, ss: seq<Stmt>): VarTable
    decreases ss, 0
  {
    if ss == [] then vars else CollectStmt(CollectStmts(vars, ss[..|ss| - 1]), ss[|ss| - 1])
  }

  /** The table and the next free slot during the second pass. */
  datatype Alloc = Alloc(vars: VarTable, next: int)

  /** The second pass (`assign_slots_in_stmt`): a declared name that has no slot yet
      gets the next one. */
  function AssignStmt(a: Alloc, s: Stmt): Alloc
    decreases s, 1
  {
    match s
    case Let(t, _) =>
      var name := TokenText(t);
      var v := Ensure(a.vars, name);
      if v[name] == Unassigned then Alloc(v[name := a.next], a.next + 1) else Alloc(v, a.next)
    case If(_, body) => AssignStmts(a, body)
    case _ => a
  }

  function AssignStmts(a: Alloc, ss: seq<Stmt>): Alloc
    decreases ss, 0
  {
    if ss == [] then a else AssignStmt(AssignStmts(a, ss[..|ss| - 1]), ss[|ss| - 1])
  }

  /** Both passes over a whole program, starting from an empty table and slot 0. */
  function Allocate(prog: seq<Stmt>): Alloc {
    AssignStmts(Alloc(CollectStmts(map[], prog), 0), prog)
  }

  // ---------------------------------------------------------------------------------
  // The first-occurrence order of declared names

  predicate Distinct(L: seq<string>) {
    forall i, j :: 0 <= i < j < |L| ==> L[i] != L[j]
  }

  /** `L` followed by the names that do not occur earlier, each once, in order. */
  function Extend(L: seq<string>, names: seq<string>): seq<string> {
    if names == [] then L
    else
      var L1 := Extend(L, names[..|names| - 1]);
      if names[|names| - 1] in L1 then L1 else L1 + [names[|names| - 1]]
  }

  function IndexOf(L: seq<string>, x: string): (i: int)
    requires x in L
    ensures 0 <= i < |L| && L[i] == x
    ensures forall j :: 0 <= j < i ==> L[j] != x
  {
    if L[0] == x then 0 else 1 + IndexOf(L[1..], x)
  }

  lemma {:induction false} ExtendFacts(L: seq<string>, names: seq<string>)
    requires Distinct(L)
    ensures Distinct(Extend(L, names))
    ensures forall x :: x in Extend(L, names) <==> x in L || x in names
    ensures L <= Extend(L, names)
  {
    if names != [] {
      var init := names[..|names| - 1];
      ExtendFacts(L, init);
      forall x ensures x in names <==> x in init || x == names[|names| - 1] {
        assert names == init + [names[|names| - 1]];
      }
    }
  }

  lemma {:induction false} ExtendAppend(L: seq<string>, a: seq<string>, b: seq<string>)
    ensures Extend(L, a + b) == Extend(Extend(L, a), b)
  {
    if b == [] {
      assert a + b == a;
    } else {
      var b0 := b[..|b| - 1];
      assert (a + b)[..|a + b| - 1] == a + b0;
      assert (a + b)[|a + b| - 1] == b[|b| - 1];
      ExtendAppend(L, a, b0);
    }
  }

  // ---------------------------------------------------------------------------------
  // The passes, stated against the first-occurrence order

  /** The entries of `vars`: the names of `L` hold their index in `L` as slot, every
      other entry has no slot yet. */
  predicate SlotsFollow(vars: VarTable, L: seq<string>) {
    && Distinct(L)
    && (forall i :: 0 <= i < |L| ==> L[i] in vars && vars[L[i]] == i)
    && (forall x :: x in vars && x !in L ==> vars[x] == Unassigned)
  }

  lemma {:induction false} CollectStmtsSpec(vars: VarTable, ss: seq<Stmt>)
    ensures CollectStmts(vars, ss).Keys == vars.Keys + (set x | x in Decls(ss))
    ensures forall x :: x in vars ==> CollectStmts(vars, ss)[x] == vars[x]
    ensures forall x :: x in CollectStmts(vars, ss) && x !in vars ==> CollectStmts(vars, ss)[x] == Unassigned
    decreases ss, 0
  {
    if ss != [] {
      var init, last := ss[..|ss| - 1], ss[|ss| - 1];
      CollectStmtsSpec(vars, init);
      CollectStmtSpec(CollectStmts(vars, init), last);
    }
  }

  lemma {:induction false} CollectStmtSpec(vars: VarTable, s: Stmt)
    ensures CollectStmt(vars, s).Keys == vars.Keys + (set x | x in DeclsStmt(s))
    ensures forall x :: x in vars ==> CollectStmt(vars, s)[x] == vars[x]
    ensures forall x :: x in CollectStmt(vars, s) && x !in vars ==> CollectStmt(vars, s)[x] == Unassigned
    decreases s, 1
  {
    match s
    case If(_, body) => CollectStmtsSpec(vars, body);
    case Let(t, _) =>
    case _ =>
  }

  /** The second pass keeps slots following the first-occurrence order: each name
      declared for the first time gets the next slot, a redeclared name keeps its slot,
      and the pass adds exactly the declared names to the table. */
  lemma {:induction false} AssignStmtsSpec(vars: VarTable, L: seq<string>, ss: seq<Stmt>)
    requires SlotsFollow(vars, L)
    ensures var a := AssignStmts(Alloc(vars, |L|), ss);
      && SlotsFollow(a.vars, Extend(L, Decls(ss)))
      && a.next == |Extend(L, Decls(ss))|
      && a.vars.Keys == vars.Keys + (set x | x in Decls(ss))
    decreases ss, 0
  {
    if ss != [] {
      var init, last := ss[..|ss| - 1], ss[|ss| - 1];
      AssignStmtsSpec(vars, L, init);
      var a1 := AssignStmts(Alloc(vars, |L|), init);
      var L1 := Extend(L, Decls(init));
      AssignStmtSpec(a1.vars, L1, last);
      ExtendAppend(L, Decls(init), DeclsStmt(last));
    }
  }

  lemma {:induction false} AssignStmtSpec(vars: VarTable, L: seq<string>, s: Stmt)
    requires SlotsFollow(vars, L)
    ensures var a := AssignStmt(Alloc(vars, |L|), s);
      && SlotsFollow(a.vars, Extend(L, DeclsStmt(s)))
      && a.next == |Extend(L, DeclsStmt(s))|
      && a.vars.Keys == vars.Keys + (set x | x in DeclsStmt(s))
    decreases s, 1
  {
    match s
    case If(_, body) => AssignStmtsSpec(vars, L, body);
    case Let(t, _) =>
      var name := TokenText(t);
      assert DeclsStmt(s) == [name];
      assert Extend(L, [name]) == (if name in L then L else L + [name]) by {
        assert [name][..0] == [];
      }
      if name in L {
        var i := IndexOf(L, name);
        assert vars[name] == i;
      } else {
        var L' := L + [name];
        var v := Ensure(vars, name);
        assert v[name] == Unassigned;
        var v' := v[name := |L|];
        forall i | 0 <= i < |L'| ensures L'[i] in v' && v'[L'[i]] == i {
          if i < |L| {
            assert L'[i] == L[i] != name;
          }
        }
      }
    case _ =>
  }

  /** After both passes every entry has a slot: the table holds exactly the declared
      names, the slot of a name is the position of its first declaration among the
      distinct declared names, and the slot count is the number of distinct names, so
      the slots are exactly 0..n-1. */
  lemma AllocateSpec(prog: seq<Stmt>)
    ensures var a := Allocate(prog); var order := Extend([], Decls(prog));
      && Distinct(order)
      && a.next == |order|
      && (forall x :: x in a.vars <==> x in Decls(prog))
      && (forall x :: x in a.vars ==> x in order && a.vars[x] == IndexOf(order, x))
      && (forall i :: 0 <= i < |order| ==> order[i] in a.vars && a.vars[order[i]] == i)
  {
    var c := CollectStmts(map[], prog);
    CollectStmtsSpec(map[], prog);
    assert SlotsFollow(c, []);
    AssignStmtsSpec(c, [], prog);
    var a := Allocate(prog);
    var order := Extend([], Decls(prog));
    ExtendFacts([], Decls(prog));
    forall x | x in a.vars ensures x in order && a.vars[x] == IndexOf(order, x) {
      assert x in Decls(prog);
      var i := IndexOf(order, x);
      assert a.vars[order[i]] == i;
    }
  }

  /** Distinct names never share a slot, and every slot is a valid index. */
  predicate SlotsInjective(vars: VarTable) {
    forall x, y :: x in vars && y in vars && x != y && vars[x] >= 0 ==> vars[x] != vars[y]
  }

  lemma AllocateInjective(prog: seq<Stmt>)
    ensures SlotsInjective(Allocate(prog).vars)
    ensures forall x :: x in Allocate(prog).vars ==> 0 <= Allocate(prog).vars[x] < Allocate(prog).next
  {
    AllocateSpec(prog);
  }
}
