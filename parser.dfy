/** The statement parser: a cursor over the token vector, one-token lookahead, the
    primary-expression parser and the `exit(...)`/`let x = ...` statement forms.

    The pure functions over a token sequence and a position (`PeekAt`, `ExprAt`,
    `StmtAt`, `ProgFrom`) say what each step yields and where the cursor ends up; the
    `Parser` class performs the same steps by moving its cursor, and each of its methods
    is proved to agree with the matching function. */
module Parser {
  import opened Wrappers
  import opened Tokens
  import opened Ast

  /** The result of a lookahead: a flag and the token, the empty token when there is none. */
  datatype Peeked = Peeked(hasValue: bool, value: Token)

  /** A parsed primary expression; without a value it holds the empty expression. */
  datatype OptionalExpr = OptionalExpr(hasValue: bool, value: Expr)

  /** The result of parsing one statement. `PastEnd` stands for the unconditional
      read after `exit` when no token is left: an access outside the vector in C.
      `NoPrimary` is an `exit` or `let` form with no literal or name where its
      expression belongs: the C statement is returned with that field never assigned,
      so its expression is indeterminate. */
  datatype StmtResult = Got(stmt: Stmt) | NoStmt | PastEnd | NoPrimary

  /** How parsing a whole program ends. `NeverEnds(at)`: the statement at `at` is not
      recognised, nothing is consumed, and the C loop repeats the same step forever.
      `Indeterminate(at)`: the statement at `at` carries an uninitialised expression. */
  datatype ProgOutcome = Program(stmts: seq<Stmt>) | NeverEnds(at: int) | ReadPastEnd | Indeterminate(at: int)

  /** The token `offset` places after position `i`. The C sum is compared with an
      unsigned size, so a negative position also reads as "no token". */
  function PeekAt(ts: seq<Token>, i: int, offset: int): (r: Peeked)
    ensures r.hasValue <==> 0 <= i + offset < |ts|
    ensures r.hasValue ==> r.value == ts[i + offset]
    ensures !r.hasValue ==> r.value == EmptyToken
  {
    if i + offset < 0 || i + offset >= |ts| then Peeked(false, EmptyToken)
    else Peeked(true, ts[i + offset])
  }

  /** The token `offset` places after `i` exists and has kind `k`. */
  predicate KindAt(ts: seq<Token>, i: int, offset: int, k: TokenType) {
    PeekAt(ts, i, offset).hasValue && PeekAt(ts, i, offset).value.kind == k
  }

  /** A primary expression at `i` and the position after it. */
  function ExprAt(ts: seq<Token>, i: int): (r: (OptionalExpr, int))
    ensures r.0.hasValue <==> KindAt(ts, i, 0, IntLit) || KindAt(ts, i, 0, Ident)
    ensures r.0.hasValue ==> r.1 == i + 1 && IsLeafOf(r.0.value, ts[i])
    ensures !r.0.hasValue ==> r.1 == i && r.0.value == EmptyExpr
  {
    if KindAt(ts, i, 0, IntLit) then (OptionalExpr(true, IntLitExpr(ts[i])), i + 1)
    else if KindAt(ts, i, 0, Ident) then (OptionalExpr(true, IdentExpr(ts[i])), i + 1)
    else (OptionalExpr(false, EmptyExpr), i)
  }

  /** `e` is the leaf expression the token `t` makes: a literal for a literal token, a
      name for an identifier token. */
  predicate IsLeafOf(e: Expr, t: Token) {
    (t.kind == IntLit && e == IntLitExpr(t)) || (t.kind == Ident && e == IdentExpr(t))
  }

  /** The position after an optional token of kind `k` at `i`. */
  function SkipIf(ts: seq<Token>, i: int, k: TokenType): int {
    if KindAt(ts, i, 0, k) then i + 1 else i
  }

  /** The `let` form starts at `i`: `let`, an identifier and `=`. */
  predicate LetFormAt(ts: seq<Token>, i: int) {
    KindAt(ts, i, 0, LetKw) && KindAt(ts, i, 1, Ident) && KindAt(ts, i, 2, EqKw)
  }

  /** One statement at `i` and the position after it. An `exit` statement's parenthesis
      and semicolons are optional (a missing one is only reported). A form without a
      primary where its expression belongs still moves the cursor as a complete one
      does, but yields `NoPrimary`. */
  function StmtAt(ts: seq<Token>, i: int): (r: (StmtResult, int))
    ensures r.0.Got? || r.0.NoPrimary? ==> i < r.1 <= |ts|
    ensures r.0.NoStmt? ==> r.1 == i
  {
    if KindAt(ts, i, 0, ExitKw) then
      if i + 1 >= |ts| then (PastEnd, i + 1)
      else
        var (e, j) := ExprAt(ts, i + 2);
        (if e.hasValue then Got(Exit(e.value)) else NoPrimary, SkipIf(ts, SkipIf(ts, j, CloseParen), Semi))
    else if LetFormAt(ts, i) then
      var (e, j) := ExprAt(ts, i + 3);
      (if e.hasValue then Got(Let(ts[i + 1], e.value)) else NoPrimary, SkipIf(ts, j, Semi))
    else (NoStmt, i)
  }

  /** The statements before `rest`'s, in order. */
  function Prepend(pre: seq<Stmt>, rest: ProgOutcome): ProgOutcome {
    match rest
    case Program(ss) => Program(pre + ss)
    case other => other
  }

  /** A whole program from position `i`: statements are parsed while a token is left. */
  function ProgFrom(ts: seq<Token>, i: int): ProgOutcome
    decreases |ts| - i
  {
    if !PeekAt(ts, i, 0).hasValue then Program([])
    else
      var (r, n) := StmtAt(ts, i);
      match r
      case Got(s) => Prepend([s], ProgFrom(ts, n))
      case NoStmt => NeverEnds(i)
      case PastEnd => ReadPastEnd
      case NoPrimary => Indeterminate(i)
  }

  /** The parser state: the token vector and the cursor. */
  class Parser {
    var tokens: seq<Token>
    var index: int

    constructor (src: seq<Token>)
      ensures tokens == src && index == 0
    {
      tokens := src;
      index := 0;
    }

    /** The token at the cursor; the cursor moves one place. */
    method Consume() returns (t: Token)
      requires 0 <= index < |tokens|
      modifies this
      ensures t == old(tokens[index])
      ensures index == old(index) + 1 && tokens == old(tokens)
    {
      t := tokens[index];
      index := index + 1;
    }

    /** A primary expression: a literal or a name, consuming its token. */
    method ParseExpr() returns (r: OptionalExpr)
      modifies this
      ensures tokens == old(tokens)
      ensures (r, index) == ExprAt(old(tokens), old(index))
    {
      var t := PeekAt(tokens, index, 0);
      if t.hasValue && t.value.kind == IntLit {
        var tok := Consume();
        r := OptionalExpr(true, IntLitExpr(tok));
      } else if t.hasValue && t.value.kind == Ident {
        var tok := Consume();
        r := OptionalExpr(true, IdentExpr(tok));
      } else {
        r := OptionalExpr(false, EmptyExpr);
      }
    }

    /** Consumes a token of kind `k` when one is at the cursor; otherwise reports it. */
    method ExpectOptional(k: TokenType)
      modifies this
      ensures tokens == old(tokens)
      ensures index == SkipIf(old(tokens), old(index), k)
    {
      var t := PeekAt(tokens, index, 0);
      if t.hasValue && t.value.kind == k {
        var _ := Consume();
      }
    }

    /** One statement: the `exit` form, the `let` form, or nothing. */
    method ParseStmt() returns (r: StmtResult)
      modifies this
      ensures tokens == old(tokens)
      ensures (r, index) == StmtAt(old(tokens), old(index))
    {
      var t0 := PeekAt(tokens, index, 0);
      if t0.hasValue && t0.value.kind == ExitKw {
        var _ := Consume();
        // the opening parenthesis is only checked for a diagnostic
        if index >= |tokens| {
          return PastEnd;
        }
        var _ := Consume();
        var e := ParseExpr();
        ExpectOptional(CloseParen);
        ExpectOptional(Semi);
        if !e.hasValue {
          return NoPrimary;
        }
        return Got(Exit(e.value));
      }
      var t1 := PeekAt(tokens, index, 1);
      var t2 := PeekAt(tokens, index, 2);
      if t0.hasValue && t0.value.kind == LetKw
         && t1.hasValue && t1.value.kind == Ident
         && t2.hasValue && t2.value.kind == EqKw
      {
        var _ := Consume();
        var ident := Consume();
        var _ := Consume();
        var e := ParseExpr();
        ExpectOptional(Semi);
        if !e.hasValue {
          return NoPrimary;
        }
        return Got(Let(ident, e.value));
      }
      return NoStmt;
    }

    /** The whole program: statements until the tokens run out. Where the C loop would
        repeat an unrecognised statement forever, this stops with `NeverEnds`. */
    method ParseProg() returns (r: ProgOutcome)
      modifies this
      ensures tokens == old(tokens)
      ensures r == ProgFrom(old(tokens), old(index))
    {
      var stmts: seq<Stmt> := [];
      while PeekAt(tokens, index, 0).hasValue
        invariant tokens == old(tokens)
        invariant ProgFrom(tokens, old(index)) == Prepend(stmts, ProgFrom(tokens, index))
        decreases |tokens| - index
      {
        var i := index;
        var s := ParseStmt();
        match s
        case Got(st) =>
          PrependAssoc(stmts, [st], ProgFrom(tokens, index));
          stmts := stmts + [st];
        case NoStmt =>
          return NeverEnds(i);
        case PastEnd =>
          return ReadPastEnd;
        case NoPrimary =>
          return Indeterminate(i);
      }
      assert stmts + [] == stmts;
      return Program(stmts);
    }
  }

  lemma PrependAssoc(a: seq<Stmt>, b: seq<Stmt>, rest: ProgOutcome)
    ensures Prepend(a, Prepend(b, rest)) == Prepend(a + b, rest)
  {
    if rest.Program? {
      assert a + (b + rest.stmts) == (a + b) + rest.stmts;
    }
  }

  /** The expression of a parsed statement: a leaf made from a literal or identifier
      token. */
  predicate LeafExpr(e: Expr) {
    match e
    case IntLitExpr(t) => t.kind == IntLit
    case IdentExpr(t) => t.kind == Ident
    case _ => false
  }

  /** The only statements the parser builds: `exit` of a leaf and `let` of an identifier
      to a leaf. */
  predicate ParsedShape(s: Stmt) {
    match s
    case Exit(e) => LeafExpr(e)
    case Let(t, e) => t.kind == Ident && LeafExpr(e)
    case _ => false
  }

  /** Every identifier and literal token carries its text, as the scanner produces them. */
  predicate TextTokens(ts: seq<Token>) {
    forall k :: 0 <= k < |ts| && HasText(ts[k].kind) ==> ts[k].value.Some?
  }

  /** A statement the parser builds has the parsed shape, and its tokens carry their text
      when the scanner's do. */
  lemma StmtAtShape(ts: seq<Token>, i: int)
    requires StmtAt(ts, i).0.Got?
    ensures ParsedShape(StmtAt(ts, i).0.stmt)
    ensures TextTokens(ts) ==> WellFormedStmt(StmtAt(ts, i).0.stmt)
  {
    if KindAt(ts, i, 0, ExitKw) {
      var (e, j) := ExprAt(ts, i + 2);
      assert e.hasValue ==> IsLeafOf(e.value, ts[i + 2]);
    } else {
      var (e, j) := ExprAt(ts, i + 3);
      assert e.hasValue ==> IsLeafOf(e.value, ts[i + 3]);
      assert ts[i + 1].kind == Ident;
    }
  }

  /** A parsed program holds only `exit` and `let` statements, and it is well formed for
      the generator when the scanner's tokens carry their text. */
  lemma {:induction false} ProgFromShape(ts: seq<Token>, i: int)
    requires ProgFrom(ts, i).Program?
    ensures AllParsedShape(ProgFrom(ts, i).stmts)
    ensures TextTokens(ts) ==> WellFormedStmts(ProgFrom(ts, i).stmts)
    decreases |ts| - i
  {
    if PeekAt(ts, i, 0).hasValue {
      var (r, n) := StmtAt(ts, i);
      StmtAtShape(ts, i);
      ProgFromShape(ts, n);
      assert ProgFrom(ts, i).stmts == [r.stmt] + ProgFrom(ts, n).stmts;
    }
  }

  /** Parsing never ends exactly when it reaches a token that starts neither form;
      nothing before it was skipped. */
  lemma {:induction false} ProgFromNeverEnds(ts: seq<Token>, i: int)
    requires ProgFrom(ts, i).NeverEnds?
    ensures i <= ProgFrom(ts, i).at < |ts|
    ensures !KindAt(ts, ProgFrom(ts, i).at, 0, ExitKw) && !LetFormAt(ts, ProgFrom(ts, i).at)
    decreases |ts| - i
  {
    var (r, n) := StmtAt(ts, i);
    if r.Got? {
      ProgFromNeverEnds(ts, n);
    }
  }

  /** A statement is left with an uninitialised expression exactly at an `exit` or `let`
      form that lacks its primary; every statement before it was parsed. */
  lemma {:induction false} ProgFromIndeterminate(ts: seq<Token>, i: int)
    requires ProgFrom(ts, i).Indeterminate?
    ensures var at := ProgFrom(ts, i).at;
      && i <= at < |ts|
      && ((KindAt(ts, at, 0, ExitKw) && at + 1 < |ts| && !ExprAt(ts, at + 2).0.hasValue)
          || (LetFormAt(ts, at) && !ExprAt(ts, at + 3).0.hasValue))
    decreases |ts| - i
  {
    var (r, n) := StmtAt(ts, i);
    if r.Got? {
      ProgFromIndeterminate(ts, n);
    }
  }

  /** The read past the end happens only for an `exit` that is the last token. */
  lemma {:induction false} ProgFromReadPastEnd(ts: seq<Token>, i: int)
    requires ProgFrom(ts, i).ReadPastEnd?
    ensures |ts| > 0 && ts[|ts| - 1].kind == ExitKw
    decreases |ts| - i
  {
    var (r, n) := StmtAt(ts, i);
    if r.Got? {
      ProgFromReadPastEnd(ts, n);
    }
  }

  function LeafToken(e: Expr): Token
    requires LeafExpr(e)
  {
    if e.IntLitExpr? then e.intLit else e.ident
  }

  /** The tokens of a statement written out in full: `exit ( e ) ;` or `let x = e ;`. */
  function StmtTokens(s: Stmt): (r: seq<Token>)
    requires ParsedShape(s)
    ensures |r| == 5
  {
    match s
    case Exit(e) =>
      [Token(ExitKw, None), Token(OpenParen, None), LeafToken(e), Token(CloseParen, None),
       Token(Semi, None)]
    case Let(t, e) =>
      [Token(LetKw, None), t, Token(EqKw, None), LeafToken(e), Token(Semi, None)]
  }

  predicate AllParsedShape(ss: seq<Stmt>) {
    forall k :: 0 <= k < |ss| ==> ParsedShape(ss[k])
  }

  /** The tokens of a statement list, statement after statement. */
  function ProgTokens(ss: seq<Stmt>): (r: seq<Token>)
    requires AllParsedShape(ss)
    ensures |r| == 5 * |ss|
  {
    if ss == [] then [] else StmtTokens(ss[0]) + ProgTokens(ss[1..])
  }

  /** A statement written out in full is parsed back from any position holding it. */
  lemma StmtAtTokens(ts: seq<Token>, i: int, s: Stmt)
    requires ParsedShape(s)
    requires 0 <= i && i + 5 <= |ts| && ts[i..i + 5] == StmtTokens(s)
    ensures StmtAt(ts, i) == (Got(s), i + 5)
  {
    var u := StmtTokens(s);
    assert forall k :: 0 <= k < 5 ==> ts[i + k] == u[k] by {
      forall k | 0 <= k < 5 ensures ts[i + k] == u[k] {
        assert ts[i..i + 5][k] == ts[i + k];
      }
    }
    var e := s.expr;
    assert ts[i + 3] == LeafToken(e) || ts[i + 2] == LeafToken(e);
  }

  /** Parsing inverts writing out: the tokens of a statement list parse back to exactly
      that list, in order. */
  lemma {:induction false} ProgFromTokens(ts: seq<Token>, i: int, ss: seq<Stmt>)
    requires AllParsedShape(ss)
    requires 0 <= i <= |ts| && ts[i..] == ProgTokens(ss)
    ensures ProgFrom(ts, i) == Program(ss)
    decreases |ss|
  {
    if ss == [] {
      assert |ts[i..]| == 0;
    } else {
      var u := StmtTokens(ss[0]);
      assert ts[i..] == u + ProgTokens(ss[1..]);
      assert ts[i..i + 5] == u by {
        assert ts[i..i + 5] == ts[i..][..5];
      }
      StmtAtTokens(ts, i, ss[0]);
      assert ProgFrom(ts, i) == Prepend([ss[0]], ProgFrom(ts, i + 5));
      assert ts[i + 5..] == ProgTokens(ss[1..]) by {
        assert ts[i + 5..] == ts[i..][5..];
      }
      ProgFromTokens(ts, i + 5, ss[1..]);
      assert [ss[0]] + ss[1..] == ss;
    }
  }

  /** A whole token vector written from a statement list parses back to it. */
  lemma ParseProgTokens(ss: seq<Stmt>)
    requires AllParsedShape(ss)
    ensures ProgFrom(ProgTokens(ss), 0) == Program(ss)
  {
    var ts := ProgTokens(ss);
    assert ts[0..] == ts;
    ProgFromTokens(ts, 0, ss);
  }
}
