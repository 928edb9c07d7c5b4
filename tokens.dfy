/** Token kinds and tokens exchanged between the scanner and the parser. */
module Tokens {
  import opened Wrappers

  /** The token kinds of the scanner: the C enumeration's values, in declaration order,
      plus `LetKw` after them: the parser tests for a `let` keyword token that the
      enumeration does not yet declare. */
  newtype TokenType = x: int | 0 <= x <= 32

  const ExitKw: TokenType := 0
  const IntLit: TokenType := 1        // integer literal; the token carries its digits
  const Semi: TokenType := 2
  const OpenParen: TokenType := 3
  const CloseParen: TokenType := 4
  const Ident: TokenType := 5         // identifier; the token carries its text
  const IntKw: TokenType := 6
  const ShortKw: TokenType := 7
  const LongKw: TokenType := 8
  const CharKw: TokenType := 9
  const CharV: TokenType := 10        // character literal; the token carries the character
  const EqKw: TokenType := 11         // `=`
  const Plus: TokenType := 12
  const Multi: TokenType := 13
  const Minus: TokenType := 14
  const Divide: TokenType := 15
  const If: TokenType := 16
  const Quote: TokenType := 17
  const Else: TokenType := 18
  const OpenBraces: TokenType := 19
  const CloseBraces: TokenType := 20
  const Cmp: TokenType := 21          // `==`
  const Less: TokenType := 22
  const LessEq: TokenType := 23
  const More: TokenType := 24
  const MoreEq: TokenType := 25
  const NotEq: TokenType := 26
  const And: TokenType := 27
  const Or: TokenType := 28
  const For: TokenType := 29
  const While: TokenType := 30
  const Empty: TokenType := 31        // the "no token" placeholder returned past the end
  const LetKw: TokenType := 32

  /** A token: its kind and the text it owns, `None` standing for a NULL value. */
  datatype Token = Token(kind: TokenType, value: Option<string>)

  /** The token the parser reports when it looks past the end of the stream. */
  const EmptyToken: Token := Token(Empty, None)

  /** Kinds whose tokens carry text. */
  predicate HasText(k: TokenType) {
    k == Ident || k == IntLit || k == CharV
  }
}
