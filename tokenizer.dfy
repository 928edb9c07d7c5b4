/** The scanner: a cursor over the source text, a bounded lexeme buffer and the loop
    that turns characters into tokens.

    `Lex` says, on the remaining text, which tokens the scanner yields; the `Scanner`
    class performs the same steps with its cursor and its fixed-size buffer, and its
    `Tokenize` method is proved to produce exactly `Lex` of the text. Character classes
    are the ASCII ones. */
module Tokenizer {
  import opened Wrappers
  import opened Tokens

  /** Capacity of the lexeme buffer, terminating NUL included. */
  const BufSize: nat := 256

  /** The value `peek` and `consume` return at or past the end of the text. */
  const InvalidChar: char := 255 as char

  datatype LexError = UnexpectedBang

  predicate IsAlpha(c: char) {
    ('a' <= c <= 'z') || ('A' <= c <= 'Z')
  }

  predicate IsDigit(c: char) {
    '0' <= c <= '9'
  }

  predicate IsAlnum(c: char) {
    IsAlpha(c) || IsDigit(c)
  }

  /** The C string a character sequence holds: everything before its first NUL. */
  function CString(s: string): (r: string)
    ensures |r| <= |s| && r == s[..|r|]
    ensures '\0' !in r
    ensures |r| < |s| ==> s[|r|] == '\0'
  {
    if s == [] || s[0] == '\0' then [] else [s[0]] + CString(s[1..])
  }

  lemma {:induction false} CStringOfPlain(s: string)
    requires '\0' !in s
    ensures CString(s) == s
  {
    if s != [] {
      assert '\0' !in s[1..];
      CStringOfPlain(s[1..]);
    }
  }

  /** What the bounded buffer keeps of a lexeme: its first `BufSize - 1` characters. */
  function Clip(w: string): (r: string)
    ensures |r| <= BufSize - 1
    ensures |r| == if |w| < BufSize then |w| else BufSize - 1
    ensures r == w[..|r|]
  {
    if |w| < BufSize then w else w[..BufSize - 1]
  }

  lemma ClipSnoc(w: string, c: char)
    ensures Clip(w + [c]) == if |w| < BufSize - 1 then Clip(w) + [c] else Clip(w)
  {
    if |w| < BufSize - 1 {
      assert Clip(w) == w;
    } else {
      assert (w + [c])[..BufSize - 1] == w[..BufSize - 1];
    }
  }

  /** The words the scanner tests for, in the order it tests them, with their kinds.
      `let`, `short` and `long` are not among them. */
  const KeywordTable: seq<(string, TokenType)> :=
    [("exit", ExitKw), ("if", If), ("else", Else), ("for", For), ("while", While),
     ("int", IntKw), ("char", CharKw)]

  /** The kind of the first entry of `table` spelled `w`, if any. */
  function KeywordIn(w: string, table: seq<(string, TokenType)>): Option<TokenType>
    decreases |table|
  {
    if table == [] then None
    else if table[0].0 == w then Some(table[0].1)
    else KeywordIn(w, table[1..])
  }

  /** The keyword a word spells, if any. */
  function Keyword(w: string): Option<TokenType> {
    KeywordIn(w, KeywordTable)
  }

  /** The token a word makes: a keyword without text, or an identifier carrying it. */
  function WordToken(text: string): Token {
    match Keyword(text)
    case Some(k) => Token(k, None)
    case None => Token(Ident, Some(text))
  }

  /** A character of a word's tail (a letter or a digit) or of a number (a digit). */
  predicate InRun(digitsOnly: bool, c: char) {
    if digitsOnly then IsDigit(c) else IsAlnum(c)
  }

  /** The length of the longest run of `InRun` characters of `s` from position `i`. */
  function RunAt(digitsOnly: bool, s: string, i: nat): (n: nat)
    requires i <= |s|
    ensures i + n <= |s|
    decreases |s| - i
  {
    if i < |s| && InRun(digitsOnly, s[i]) then 1 + RunAt(digitsOnly, s, i + 1) else 0
  }

  /** The kind of a one-character token. */
  function OneCharKind(c: char): Option<TokenType> {
    if c == '(' then Some(OpenParen)
    else if c == ')' then Some(CloseParen)
    else if c == ';' then Some(Semi)
    else if c == '=' then Some(EqKw)
    else if c == '<' then Some(Less)
    else if c == '>' then Some(More)
    else if c == '+' then Some(Plus)
    else if c == '*' then Some(Multi)
    else if c == '/' then Some(Divide)
    else if c == '-' then Some(Minus)
    else if c == '{' then Some(OpenBraces)
    else if c == '}' then Some(CloseBraces)
    else None
  }

  /** The kind of a two-character token whose first character is `c` and second `=`. */
  function TwoCharKind(c: char): Option<TokenType> {
    if c == '=' then Some(Cmp)
    else if c == '<' then Some(LessEq)
    else if c == '>' then Some(MoreEq)
    else if c == '!' then Some(NotEq)
    else None
  }

  /** One step of the scanner: the tokens it emits (none or one) and how many characters
      it consumes. */
  datatype Scan = Scan(emitted: seq<Token>, used: nat)

  /** One step at position `i`, where a character other than `InvalidChar` is next. */
  function ScanAt(src: string, i: nat): (r: Result<Scan, LexError>)
    requires i < |src| && src[i] != InvalidChar
    ensures r.Ok? ==> 1 <= r.value.used <= |src| - i && |r.value.emitted| <= 1
  {
    var c := src[i];
    if IsAlpha(c) then
      var n := 1 + RunAt(false, src, i + 1);
      Ok(Scan([WordToken(Clip(src[i..i + n]))], n))
    else if IsDigit(c) then
      var n := 1 + RunAt(true, src, i + 1);
      Ok(Scan([Token(IntLit, Some(Clip(src[i..i + n])))], n))
    else
      var next := if i + 1 < |src| then src[i + 1] else InvalidChar;
      if TwoCharKind(c).Some? && next == '=' then Ok(Scan([Token(TwoCharKind(c).value, None)], 2))
      else if c == '!' then Err(UnexpectedBang)
      else if c == '\'' then Ok(Scan([Token(CharV, Some([next]))], if |src| - i < 3 then |src| - i else 3))
      else if OneCharKind(c).Some? then Ok(Scan([Token(OneCharKind(c).value, None)], 1))
      else Ok(Scan([], 1))
  }

  /** `pre` in front of the tokens of a successful scan; an error stays an error. */
  function PrependTokens(pre: seq<Token>, r: Result<seq<Token>, LexError>): Result<seq<Token>, LexError> {
    match r
    case Ok(ts) => Ok(pre + ts)
    case Err(e) => Err(e)
  }

  lemma PrependTokensAssoc(a: seq<Token>, b: seq<Token>, r: Result<seq<Token>, LexError>)
    ensures PrependTokens(a, PrependTokens(b, r)) == PrependTokens(a + b, r)
  {
    if r.Ok? {
      assert a + (b + r.value) == (a + b) + r.value;
    }
  }

  /** The tokens of the text from position `i`: steps until the text ends or an
      `InvalidChar` is next. */
  function LexAt(src: string, i: nat): Result<seq<Token>, LexError>
    requires i <= |src|
    decreases |src| - i
  {
    if i == |src| || src[i] == InvalidChar then Ok([])
    else
      match ScanAt(src, i)
      case Err(e) => Err(e)
      case Ok(sc) => PrependTokens(sc.emitted, LexAt(src, i + sc.used))
  }

  /** The tokens of a whole text. */
  function Lex(src: string): Result<seq<Token>, LexError> {
    LexAt(src, 0)
  }

  /** The scanner state: the text, the cursor and the lexeme buffer with its length. */
  class Scanner {
    const src: string
    var index: int
    const buf: array<char>
    var len: nat

    /** The buffer holds a NUL-terminated lexeme of at most `BufSize - 1` characters and
        the cursor is inside the text or just past it. */
    ghost predicate Valid()
      reads this, buf
    {
      buf.Length == BufSize && len < BufSize && buf[len] == '\0' && 0 <= index <= |src|
    }

    /** The lexeme collected so far. */
    function Text(): (t: string)
      reads this, buf
      requires Valid()
      ensures |t| == len
    {
      buf[..len]
    }

    /** The text is copied as a C string: up to its first NUL. */
    constructor (s: string)
      ensures Valid() && fresh(buf)
      ensures src == CString(s) && '\0' !in src && index == 0 && Text() == []
    {
      src := CString(s);
      index := 0;
      buf := new char[BufSize](_ => '\0');
      len := 0;
    }

    /** The character `offset` places after the cursor, `InvalidChar` outside the text. The
        position is an unsigned sum in C, so a negative one is outside too. */
    function Peek(offset: int): (c: char)
      reads this
      ensures 0 <= index + offset < |src| ==> c == src[index + offset]
      ensures !(0 <= index + offset < |src|) ==> c == InvalidChar
    {
      var pos := index + offset;
      if pos < 0 || pos >= |src| then InvalidChar else src[pos]
    }

    /** The character at the cursor, which moves past it; `InvalidChar` at the end. */
    method Consume() returns (c: char)
      requires Valid()
      modifies this
      ensures Valid() && len == old(len)
      ensures old(index) < |src| ==> c == src[old(index)] && index == old(index) + 1
      ensures old(index) >= |src| ==> c == InvalidChar && index == old(index)
    {
      if index >= |src| {
        return InvalidChar;
      }
      c := src[index];
      index := index + 1;
    }

    /** Appends `c` to the lexeme unless the buffer is full, keeping it NUL-terminated. */
    method PushBack(c: char)
      requires Valid()
      modifies this, buf
      ensures Valid() && index == old(index)
      ensures len == if old(len) < BufSize - 1 then old(len) + 1 else old(len)
      ensures Text() == if old(len) < BufSize - 1 then old(Text()) + [c] else old(Text())
    {
      if len < BufSize - 1 {
        buf[len] := c;
        len := len + 1;
        buf[len] := '\0';
      }
    }

    /** Appends a token of kind `k` carrying the lexeme, then empties the buffer; with an
        empty buffer nothing is appended. */
    method PushTokenValue(tokens: seq<Token>, k: TokenType) returns (out: seq<Token>)
      requires Valid()
      modifies this, buf
      ensures Valid() && index == old(index)
      ensures old(len) == 0 ==> out == tokens
      ensures old(len) > 0 ==> out == tokens + [Token(k, Some(CString(old(Text()))))]
      ensures len == 0
    {
      if len == 0 {
        return tokens;
      }
      out := tokens + [Token(k, Some(CString(buf[..len])))];
      len := 0;
      buf[0] := '\0';
    }

    /** Appends a token of kind `k` without text and empties the buffer. */
    method PushToken(tokens: seq<Token>, k: TokenType) returns (out: seq<Token>)
      requires Valid()
      modifies this, buf
      ensures Valid() && index == old(index)
      ensures out == tokens + [Token(k, None)] && len == 0
    {
      out := tokens + [Token(k, None)];
      len := 0;
      buf[0] := '\0';
    }

    /** The lexeme of a word or a number: the character at the cursor, then every following
        letter or digit (`digitsOnly`: every following digit), kept up to the buffer size. */
    method ReadRun(digitsOnly: bool)
      requires Valid() && len == 0 && index < |src| && InRun(digitsOnly, src[index])
      modifies this, buf
      ensures Valid()
      ensures index == old(index) + 1 + RunAt(digitsOnly, src, old(index) + 1)
      ensures Text() == Clip(src[old(index)..index]) && CString(Text()) == Text()
    {
      ghost var start := index;
      TakeChar(start);
      while InRun(digitsOnly, Peek(0))
        invariant Valid()
        invariant start < index <= |src|
        invariant Text() == Clip(src[start..index])
        invariant RunAt(digitsOnly, src, start + 1) == (index - start - 1) + RunAt(digitsOnly, src, index)
        decreases |src| - index
      {
        TakeChar(start);
      }
      RunPlain(digitsOnly, src, start, index);
      ClipPlain(src, start, index);
    }

    /** `push_back(consume())` inside a lexeme that began at `start`: the character at the
        cursor joins the lexeme, which stays the clipped text from `start`. */
    method TakeChar(ghost start: nat)
      requires Valid() && start <= index < |src| && Text() == Clip(src[start..index])
      modifies this, buf
      ensures Valid() && index == old(index) + 1 && Text() == Clip(src[start..index])
    {
      ClipStep(src, start, index);
      var c := Consume();
      PushBack(c);
    }

    /** A word: a letter, then letters and digits; a keyword or an identifier token. */
    method ReadWord(tokens: seq<Token>) returns (out: seq<Token>)
      requires Valid() && len == 0 && index < |src| && IsAlpha(src[index])
      modifies this, buf
      ensures Valid() && len == 0
      ensures index == old(index) + 1 + RunAt(false, src, old(index) + 1)
      ensures out == tokens + [WordToken(Clip(src[old(index)..index]))]
      ensures PrependTokens(tokens, LexAt(src, old(index))) == PrependTokens(out, LexAt(src, index))
    {
      ghost var i := index;
      ReadRun(false);
      var text := CString(buf[..len]);
      var kw := Keyword(text);
      if kw.Some? {
        out := PushToken(tokens, kw.value);
      } else {
        out := PushTokenValue(tokens, Ident);
      }
      LexWordStep(src, i, index, tokens, out);
    }

    /** A number: a run of digits, one integer-literal token carrying them. */
    method ReadNumber(tokens: seq<Token>) returns (out: seq<Token>)
      requires Valid() && len == 0 && index < |src| && IsDigit(src[index])
      modifies this, buf
      ensures Valid() && len == 0
      ensures index == old(index) + 1 + RunAt(true, src, old(index) + 1)
      ensures out == tokens + [Token(IntLit, Some(Clip(src[old(index)..index])))]
      ensures PrependTokens(tokens, LexAt(src, old(index))) == PrependTokens(out, LexAt(src, index))
    {
      ghost var i := index;
      ReadRun(true);
      out := PushTokenValue(tokens, IntLit);
      LexNumberStep(src, i, index, tokens, out);
    }

    /** Any other character: consumed, then an operator, a punctuation mark, a character
        literal, or nothing; a `!` not followed by `=` is fatal. */
    method ReadSymbol(tokens: seq<Token>) returns (r: Result<seq<Token>, LexError>)
      requires Valid() && len == 0 && index < |src| && '\0' !in src
      requires src[index] != InvalidChar && !IsAlpha(src[index]) && !IsDigit(src[index])
      modifies this, buf
      ensures Valid() && len == 0 && old(index) < index
      ensures ScanAt(src, old(index)).Err? ==> r == Err(ScanAt(src, old(index)).error)
      ensures ScanAt(src, old(index)).Ok? ==>
                r == Ok(tokens + ScanAt(src, old(index)).value.emitted)
                && index == old(index) + ScanAt(src, old(index)).value.used
    {
      ghost var i := index;
      ghost var sc := ScanAt(src, i);
      var c := Peek(0);
      var next := Peek(1);
      var _ := Consume();
      var two := TwoCharKind(c);
      if two.Some? && Peek(0) == '=' {
        var out := PushToken(tokens, two.value);
        var _ := Consume();
        return Ok(out);
      } else if c == '!' {
        return Err(UnexpectedBang);
      } else if c == '\'' {
        var ch := Consume();
        PushBack(ch);
        var _ := Consume();
        assert Text() == [next];
        CStringOfPlain(Text());
        var out := PushTokenValue(tokens, CharV);
        return Ok(out);
      } else {
        var one := OneCharKind(c);
        if one.Some? {
          var out := PushToken(tokens, one.value);
          return Ok(out);
        }
        assert tokens + [] == tokens;
        return Ok(tokens);
      }
    }

    /** One turn of the scanning loop: a word, a number or a symbol at the cursor. The
        tokens so far followed by the scan of the rest are unchanged by the turn. */
    method ScanToken(tokens: seq<Token>) returns (r: Result<seq<Token>, LexError>)
      requires Valid() && len == 0 && '\0' !in src && index < |src| && src[index] != InvalidChar
      modifies this, buf
      ensures Valid() && len == 0 && old(index) < index
      ensures r.Err? ==> LexAt(src, old(index)) == Err(r.error)
      ensures r.Ok? ==> PrependTokens(tokens, LexAt(src, old(index))) == PrependTokens(r.value, LexAt(src, index))
    {
      ghost var i := index;
      var c := Peek(0);
      if IsAlpha(c) {
        var out := ReadWord(tokens);
        return Ok(out);
      } else if IsDigit(c) {
        var out := ReadNumber(tokens);
        return Ok(out);
      } else {
        LexSymbolStep(src, i, tokens);
        r := ReadSymbol(tokens);
      }
    }

    /** The whole text from the cursor: steps while a character other than `InvalidChar`
        is next. A `!` not followed by `=` stops with an error. */
    method Tokenize() returns (r: Result<seq<Token>, LexError>)
      requires Valid() && len == 0 && '\0' !in src
      modifies this, buf
      ensures Valid()
      ensures r == LexAt(src, old(index))
    {
      var tokens: seq<Token> := [];
      ghost var i0 := index;
      assert LexAt(src, i0).Ok? ==> [] + LexAt(src, i0).value == LexAt(src, i0).value;
      while Peek(0) != InvalidChar
        invariant Valid() && len == 0
        invariant LexAt(src, i0) == PrependTokens(tokens, LexAt(src, index))
        decreases |src| - index
      {
        var step := ScanToken(tokens);
        if step.Err? {
          return step;
        }
        tokens := step.value;
      }
      assert tokens + [] == tokens;
      return Ok(tokens);
    }
  }

  lemma ClipStep(src: string, a: nat, b: nat)
    requires a <= b < |src|
    ensures Clip(src[a..b + 1]) == if b - a < BufSize - 1 then Clip(src[a..b]) + [src[b]] else Clip(src[a..b])
  {
    assert src[a..b + 1] == src[a..b] + [src[b]];
    ClipSnoc(src[a..b], src[b]);
  }

  /** The characters of a run are letters or digits, never NUL. */
  lemma {:induction false} RunPlain(digitsOnly: bool, src: string, a: nat, b: nat)
    requires a < b <= |src| && InRun(digitsOnly, src[a]) && b - a - 1 <= RunAt(digitsOnly, src, a + 1)
    ensures forall k :: a <= k < b ==> src[k] != '\0'
    decreases b - a
  {
    if a + 1 < b {
      RunPlain(digitsOnly, src, a + 1, b);
    }
  }

  /** A lexeme without NUL, clipped or not, is its own C string. */
  lemma ClipPlain(src: string, a: nat, b: nat)
    requires a <= b <= |src|
    requires forall k :: a <= k < b ==> src[k] != '\0'
    ensures CString(Clip(src[a..b])) == Clip(src[a..b])
  {
    var w := Clip(src[a..b]);
    assert forall k :: 0 <= k < |w| ==> w[k] == src[a + k];
    CStringOfPlain(w);
  }

  /** A word: the maximal run of letters and digits from a letter makes one token and the
      scan goes on right after it. */
  lemma LexWordAt(src: string, i: nat)
    requires i < |src| && IsAlpha(src[i])
    ensures LexAt(src, i) == PrependTokens([WordToken(Clip(src[i..i + 1 + RunAt(false, src, i + 1)]))],
                                           LexAt(src, i + 1 + RunAt(false, src, i + 1)))
  {
  }

  /** A number: the maximal run of digits makes one integer-literal token. */
  lemma LexNumberAt(src: string, i: nat)
    requires i < |src| && IsDigit(src[i])
    ensures LexAt(src, i) == PrependTokens([Token(IntLit, Some(Clip(src[i..i + 1 + RunAt(true, src, i + 1)])))],
                                           LexAt(src, i + 1 + RunAt(true, src, i + 1)))
  {
  }

  /** Any other character: one step of `ScanAt`, or the error it reports. */
  lemma LexSymbolAt(src: string, i: nat)
    requires i < |src| && src[i] != InvalidChar
    ensures ScanAt(src, i).Err? ==> LexAt(src, i) == Err(ScanAt(src, i).error)
    ensures ScanAt(src, i).Ok? ==>
              LexAt(src, i) == PrependTokens(ScanAt(src, i).value.emitted, LexAt(src, i + ScanAt(src, i).value.used))
  {
  }

  /** The scan step of a word, a number or a symbol, seen from the tokens gathered so far. */
  lemma LexWordStep(src: string, i: nat, j: nat, tokens: seq<Token>, out: seq<Token>)
    requires i < |src| && IsAlpha(src[i]) && j == i + 1 + RunAt(false, src, i + 1)
    requires out == tokens + [WordToken(Clip(src[i..j]))]
    ensures PrependTokens(tokens, LexAt(src, i)) == PrependTokens(out, LexAt(src, j))
  {
    LexWordAt(src, i);
    PrependTokensAssoc(tokens, out[|tokens|..], LexAt(src, j));
    assert tokens + out[|tokens|..] == out;
  }

  lemma LexNumberStep(src: string, i: nat, j: nat, tokens: seq<Token>, out: seq<Token>)
    requires i < |src| && IsDigit(src[i]) && j == i + 1 + RunAt(true, src, i + 1)
    requires out == tokens + [Token(IntLit, Some(Clip(src[i..j])))]
    ensures PrependTokens(tokens, LexAt(src, i)) == PrependTokens(out, LexAt(src, j))
  {
    LexNumberAt(src, i);
    PrependTokensAssoc(tokens, out[|tokens|..], LexAt(src, j));
    assert tokens + out[|tokens|..] == out;
  }

  lemma LexSymbolStep(src: string, i: nat, tokens: seq<Token>)
    requires i < |src| && src[i] != InvalidChar
    ensures ScanAt(src, i).Err? ==> LexAt(src, i) == Err(ScanAt(src, i).error)
    ensures ScanAt(src, i).Ok? ==>
              PrependTokens(tokens, LexAt(src, i))
              == PrependTokens(tokens + ScanAt(src, i).value.emitted, LexAt(src, i + ScanAt(src, i).value.used))
  {
    LexSymbolAt(src, i);
    if ScanAt(src, i).Ok? {
      PrependTokensAssoc(tokens, ScanAt(src, i).value.emitted, LexAt(src, i + ScanAt(src, i).value.used));
    }
  }

  /** A word's text: a letter, then letters and digits. */
  predicate IsWordText(w: string) {
    |w| > 0 && IsAlpha(w[0]) && forall k :: 0 <= k < |w| ==> IsAlnum(w[k])
  }

  /** A number's text: digits only, at least one. */
  predicate IsNumberText(w: string) {
    |w| > 0 && forall k :: 0 <= k < |w| ==> IsDigit(w[k])
  }

  /** What every scanned token satisfies: exactly identifiers, integer and character
      literals carry text; an identifier is a word that is not a keyword, an integer
      literal is digits, a character literal one character; and none of `let`, `short`,
      `long`, `&&`, `||`, the quote or the placeholder kind is ever produced. */
  predicate Scanned(t: Token) {
    && (t.value.Some? <==> HasText(t.kind))
    && t.kind != LetKw && t.kind != ShortKw && t.kind != LongKw
    && t.kind != And && t.kind != Or && t.kind != Quote && t.kind != Empty
    && (t.kind == Ident ==> IsWordText(t.value.value) && Keyword(t.value.value).None?)
    && (t.kind == IntLit ==> IsNumberText(t.value.value))
    && (t.kind == CharV ==> |t.value.value| == 1)
  }

  /** Every character of a maximal run is of the run's class. */
  lemma {:induction false} RunAtAll(digitsOnly: bool, s: string, i: nat)
    requires i <= |s|
    ensures forall k :: i <= k < i + RunAt(digitsOnly, s, i) ==> InRun(digitsOnly, s[k])
    decreases |s| - i
  {
    if i < |s| && InRun(digitsOnly, s[i]) {
      RunAtAll(digitsOnly, s, i + 1);
    }
  }

  /** A lookup succeeds only on an entry spelled like the word, and yields its kind. */
  lemma {:induction false} KeywordInEntry(w: string, table: seq<(string, TokenType)>)
    ensures KeywordIn(w, table).Some? ==>
              exists j :: 0 <= j < |table| && table[j] == (w, KeywordIn(w, table).value)
    decreases |table|
  {
    if table != [] && table[0].0 != w {
      KeywordInEntry(w, table[1..]);
      if KeywordIn(w, table[1..]).Some? {
        var j :| 0 <= j < |table[1..]| && table[1..][j] == (w, KeywordIn(w, table[1..]).value);
        assert table[j + 1] == table[1..][j];
      }
    }
  }

  /** A keyword is one of the seven spelled in `KeywordTable`, and it spells its kind. */
  lemma KeywordKinds(w: string)
    ensures Keyword(w).Some? ==>
              Keyword(w).value in {ExitKw, If, Else, For, While, IntKw, CharKw}
    ensures Keyword(w) == Some(ExitKw) ==> w == "exit"
    ensures Keyword(w) == Some(IntKw) ==> w == "int"
  {
    KeywordInEntry(w, KeywordTable);
  }

  /** The token a word makes is well formed. */
  lemma WordTokenScanned(w: string)
    requires IsWordText(w)
    ensures Scanned(WordToken(w))
  {
    KeywordKinds(w);
  }

  /** Every token of `ts` is well formed. */
  predicate AllScanned(ts: seq<Token>)
    decreases |ts|
  {
    |ts| == 0 || (Scanned(ts[0]) && AllScanned(ts[1..]))
  }

  lemma {:induction false} AllScannedConcat(a: seq<Token>, b: seq<Token>)
    requires AllScanned(a) && AllScanned(b)
    ensures AllScanned(a + b)
    decreases |a|
  {
    if |a| > 0 {
      AllScannedConcat(a[1..], b);
      assert (a + b)[1..] == a[1..] + b;
    } else {
      assert a + b == b;
    }
  }

  lemma {:induction false} AllScannedMembers(ts: seq<Token>)
    requires AllScanned(ts)
    ensures forall t :: t in ts ==> Scanned(t)
    decreases |ts|
  {
    if |ts| > 0 {
      AllScannedMembers(ts[1..]);
      assert forall t :: t in ts ==> t == ts[0] || t in ts[1..];
    }
  }

  /** The lexeme of a word is a word's text. */
  lemma WordAtText(src: string, i: nat)
    requires i < |src| && IsAlpha(src[i])
    ensures IsWordText(Clip(src[i..i + 1 + RunAt(false, src, i + 1)]))
  {
    RunAtAll(false, src, i + 1);
    var w := Clip(src[i..i + 1 + RunAt(false, src, i + 1)]);
    assert forall k :: 0 <= k < |w| ==> w[k] == src[i + k];
  }

  /** The lexeme of a number is a number's text. */
  lemma NumberAtText(src: string, i: nat)
    requires i < |src| && IsDigit(src[i])
    ensures IsNumberText(Clip(src[i..i + 1 + RunAt(true, src, i + 1)]))
  {
    RunAtAll(true, src, i + 1);
    var w := Clip(src[i..i + 1 + RunAt(true, src, i + 1)]);
    assert forall k :: 0 <= k < |w| ==> w[k] == src[i + k];
  }

  /** The token of one step is well formed. */
  lemma ScanAtScanned(src: string, i: nat)
    requires i < |src| && src[i] != InvalidChar
    ensures ScanAt(src, i).Ok? ==> AllScanned(ScanAt(src, i).value.emitted)
  {
    if IsAlpha(src[i]) {
      WordAtText(src, i);
      WordTokenScanned(Clip(src[i..i + 1 + RunAt(false, src, i + 1)]));
    } else if IsDigit(src[i]) {
      NumberAtText(src, i);
    }
  }

  /** Every token the scanner yields from position `i` is well formed. */
  lemma {:induction false} LexAtScanned(src: string, i: nat)
    requires i <= |src|
    ensures LexAt(src, i).Ok? ==> AllScanned(LexAt(src, i).value)
    decreases |src| - i
  {
    if i == |src| || src[i] == InvalidChar {
      assert LexAt(src, i) == Ok([]);
    } else {
      var step := ScanAt(src, i);
      ScanAtScanned(src, i);
      LexSymbolAt(src, i);
      if step.Ok? {
        var j := i + step.value.used;
        LexAtScanned(src, j);
        PrependScanned(step.value.emitted, LexAt(src, j), LexAt(src, i));
      }
    }
  }

  lemma PrependScanned(pre: seq<Token>, rest: Result<seq<Token>, LexError>, whole: Result<seq<Token>, LexError>)
    requires whole == PrependTokens(pre, rest)
    requires AllScanned(pre) && (rest.Ok? ==> AllScanned(rest.value))
    ensures whole.Ok? ==> AllScanned(whole.value)
  {
    if rest.Ok? {
      AllScannedConcat(pre, rest.value);
    }
  }

  /** Every token of a scanned text is well formed. */
  lemma LexScanned(src: string)
    ensures Lex(src).Ok? ==> forall t :: t in Lex(src).value ==> Scanned(t)
  {
    LexAtScanned(src, 0);
    if Lex(src).Ok? {
      AllScannedMembers(Lex(src).value);
    }
  }
}
