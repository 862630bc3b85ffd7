/** The tokens the lexer produces and the parser consumes. */
module Tokens {

  datatype TokenType = Identifier | Integer | Decimal | Character | String | Operator

  /** A token: its type, the exact text it was lexed from, and that text's start offset. */
  datatype Token = Token(kind: TokenType, literal: string, index: nat)

  /** The offset just past the token's text. */
  function End(t: Token): nat {
    t.index + |t.literal|
  }
}
