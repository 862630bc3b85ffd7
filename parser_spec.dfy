/**
 * The parser as functions over the token list: each grammar rule takes the
 * position of the next token and gives the tree it builds and the position after
 * it, or the failure it throws. The imperative parser is proved equal to these.
 */
module ParserSpec {
  import opened Common
  import opened Tokens
  import opened Ast
  import N = Numbers
  import E = Escapes

  /** What `peek` accepts: a token type, or a literal the token's text must equal. */
  datatype TokenPattern = Kind(kind: TokenType) | Text(text: string)

  /** A ParseException with the index it reports, or an unchecked host exception. */
  datatype Failure = ParseError(index: int) | Unchecked

  /** A rule's result and the position of the first token it did not consume. */
  datatype Parsed<T> = Parsed(value: T, next: nat)

  predicate Fits(p: TokenPattern, t: Token) {
    match p
    case Kind(k) => t.kind == k
    case Text(s) => t.literal == s
  }

  /** `peek(p0, ..., pn-1)` at position i: n tokens remain and token i + k fits pattern k. */
  predicate PeekTokens(ts: seq<Token>, i: nat, ps: seq<TokenPattern>)
    decreases |ps|
  {
    |ps| == 0 || (i < |ts| && Fits(ps[0], ts[i]) && PeekTokens(ts, i + 1, ps[1..]))
  }

  /** A single-pattern peek. */
  predicate At(ts: seq<Token>, i: nat, p: TokenPattern) {
    i < |ts| && Fits(p, ts[i])
  }

  lemma AtIsPeek(ts: seq<Token>, i: nat, p: TokenPattern)
    ensures At(ts, i, p) == PeekTokens(ts, i, [p])
  {
    assert [p][1..] == [];
  }

  /** `peek` is the pointwise test on the next |ps| tokens. */
  lemma {:induction false} PeekTokensEach(ts: seq<Token>, i: nat, ps: seq<TokenPattern>)
    requires i <= |ts|
    ensures PeekTokens(ts, i, ps) <==> i + |ps| <= |ts| && forall k :: 0 <= k < |ps| ==> Fits(ps[k], ts[i + k])
    decreases |ps|
  {
    if |ps| > 0 && i < |ts| {
      PeekTokensEach(ts, i + 1, ps[1..]);
      if i + |ps| <= |ts| && forall k :: 0 <= k < |ps| ==> Fits(ps[k], ts[i + k]) {
        assert Fits(ps[0], ts[i + 0]);
        forall k | 0 <= k < |ps| - 1
          ensures Fits(ps[1..][k], ts[i + 1 + k])
        {
          assert Fits(ps[k + 1], ts[i + (k + 1)]);
        }
      }
      if PeekTokens(ts, i, ps) {
        forall k | 0 <= k < |ps|
          ensures Fits(ps[k], ts[i + k])
        {
          if k > 0 {
            assert Fits(ps[1..][k - 1], ts[i + 1 + (k - 1)]);
          }
        }
      }
    }
  }

  /**
   * The index a failure after the previous token reports: where `tokens.get(-1)`
   * ends; with no previous token, `get(-1)` itself throws.
   */
  function ErrorAfterPrevious(ts: seq<Token>, i: nat): Failure
    requires i <= |ts|
  {
    if i == 0 then Unchecked else ParseError(End(ts[i - 1]))
  }

  /** The operators of the logical, equality, additive and multiplicative levels. */
  const LevelOps: seq<seq<string>> := [["AND", "OR"], ["<", "<=", ">", ">=", "==", "!="], ["+", "-"], ["*", "/"]]

  /** The level's operator the next token's text spells, if any (matched by literal). */
  function LevelOperator(ts: seq<Token>, i: nat, level: nat): (r: Option<string>)
    requires level < 4
    ensures r.Some? <==> i < |ts| && ts[i].literal in LevelOps[level]
    ensures r.Some? ==> r.value == ts[i].literal
  {
    if i < |ts| && ts[i].literal in LevelOps[level] then Some(ts[i].literal) else None
  }

  function ParseExpression(ts: seq<Token>, i: nat): (r: Result<Parsed<Expr>, Failure>)
    requires i <= |ts|
    ensures r.Ok? ==> i < r.value.next <= |ts|
    decreases |ts| - i, 6, 0
  {
    ParseLevel(ts, i, 0)
  }

  /**
   * Levels 0 to 3 are the logical, equality, additive and multiplicative rules;
   * level 4 is the secondary rule.
   */
  function ParseLevel(ts: seq<Token>, i: nat, level: nat): (r: Result<Parsed<Expr>, Failure>)
    requires i <= |ts| && level <= 4
    ensures r.Ok? ==> i < r.value.next <= |ts|
    decreases |ts| - i, 5 - level, 1
  {
    if level == 4 then ParseSecondary(ts, i)
    else
      var l :- ParseLevel(ts, i, level + 1);
      ParseLevelRest(ts, level, l.value, l.next)
  }

  /** The loop of a binary level: each operator rewraps the accumulated expression as its left operand. */
  function ParseLevelRest(ts: seq<Token>, level: nat, acc: Expr, i: nat): (r: Result<Parsed<Expr>, Failure>)
    requires i <= |ts| && level < 4
    ensures r.Ok? ==> i <= r.value.next <= |ts|
    decreases |ts| - i, 5 - level, 0
  {
    match LevelOperator(ts, i, level)
    case None => Ok(Parsed(acc, i))
    case Some(op) =>
      var right :- ParseLevel(ts, i + 1, level + 1);
      ParseLevelRest(ts, level, Binary(op, acc, right.value, None), right.next)
  }

  function ParseSecondary(ts: seq<Token>, i: nat): (r: Result<Parsed<Expr>, Failure>)
    requires i <= |ts|
    ensures r.Ok? ==> i < r.value.next <= |ts|
    decreases |ts| - i, 1, 0
  {
    var p :- ParsePrimary(ts, i);
    SecondaryRest(ts, p.value, p.next)
  }

  /** The loop of the secondary rule: `.name` and `.name(args)` take the expression so far as receiver. */
  function SecondaryRest(ts: seq<Token>, acc: Expr, i: nat): (r: Result<Parsed<Expr>, Failure>)
    requires i <= |ts|
    ensures r.Ok? ==> i <= r.value.next <= |ts|
    decreases |ts| - i, 0, 3
  {
    if !At(ts, i, Text(".")) then Ok(Parsed(acc, i))
    else
      var m :- ParseMember(ts, acc, i + 1);
      SecondaryRest(ts, m.value, m.next)
  }

  /** After a `.`: a field access, or a method call when `(` follows the name; the receiver is acc. */
  function ParseMember(ts: seq<Token>, acc: Expr, i: nat): (r: Result<Parsed<Expr>, Failure>)
    requires 0 < i <= |ts|
    ensures r.Ok? ==> i < r.value.next <= |ts|
    decreases |ts| - i, 0, 2
  {
    if !At(ts, i, Kind(Identifier)) then Err(ParseError(End(ts[i - 1])))
    else
      var name := ts[i].literal;
      if At(ts, i + 1, Text("(")) then
        var a :- ParseArguments(ts, i + 2);
        Ok(Parsed(FunctionCall(Some(acc), name, a.value, None), a.next))
      else Ok(Parsed(Access(Some(acc), name, None), i + 1))
  }

  /** After an opening parenthesis: `)` alone, or expressions separated by `,` and then `)`. */
  function ParseArguments(ts: seq<Token>, i: nat): (r: Result<Parsed<seq<Expr>>, Failure>)
    requires i <= |ts|
    ensures r.Ok? ==> i < r.value.next <= |ts|
    decreases |ts| - i, 7, 0
  {
    if At(ts, i, Text(")")) then Ok(Parsed([], i + 1)) else ArgumentList(ts, i, [])
  }

  function ArgumentList(ts: seq<Token>, i: nat, acc: seq<Expr>): (r: Result<Parsed<seq<Expr>>, Failure>)
    requires i <= |ts|
    ensures r.Ok? ==> i < r.value.next <= |ts|
    decreases |ts| - i, 6, 1
  {
    var e :- ParseExpression(ts, i);
    if At(ts, e.next, Text(",")) then ArgumentList(ts, e.next + 1, acc + [e.value])
    else if At(ts, e.next, Text(")")) then Ok(Parsed(acc + [e.value], e.next + 1))
    else Err(ErrorAfterPrevious(ts, e.next))
  }

  /** A literal token's text without its first and last character, decoded; shorter than two throws. */
  function LiteralBody(text: string): Option<string> {
    if |text| < 2 then None else Some(E.DecodeEscapes(text[1..|text| - 1]))
  }

  /** The literal branch the primary rule takes at i, if any. */
  function LiteralStart(ts: seq<Token>, i: nat): Option<TokenPattern> {
    if At(ts, i, Text("TRUE")) then Some(Text("TRUE"))
    else if At(ts, i, Text("FALSE")) then Some(Text("FALSE"))
    else if At(ts, i, Text("NIL")) then Some(Text("NIL"))
    else TokenLiteralStart(ts, i)
  }

  /** The literal token kind at i, if any. */
  function TokenLiteralStart(ts: seq<Token>, i: nat): Option<TokenPattern> {
    if At(ts, i, Kind(Integer)) then Some(Kind(Integer))
    else if At(ts, i, Kind(Decimal)) then Some(Kind(Decimal))
    else if At(ts, i, Kind(Character)) then Some(Kind(Character))
    else if At(ts, i, Kind(String)) then Some(Kind(String))
    else None
  }

  /** The literal branches of the primary rule; None when the next token starts none of them. */
  function ParseLiteral(ts: seq<Token>, i: nat): (r: Option<Result<Parsed<Expr>, Failure>>)
    requires i <= |ts|
    ensures r.None? <==> LiteralStart(ts, i).None?
    ensures r.Some? && r.value.Ok? ==> i < |ts| && r.value.value.next == i + 1
  {
    if At(ts, i, Text("TRUE")) then Some(Ok(Parsed(Literal(BoolLit(true), None), i + 1)))
    else if At(ts, i, Text("FALSE")) then Some(Ok(Parsed(Literal(BoolLit(false), None), i + 1)))
    else if At(ts, i, Text("NIL")) then Some(Ok(Parsed(Literal(NilLit, None), i + 1)))
    else ParseTokenLiteral(ts, i)
  }

  /** Integer, decimal, character and string literal tokens. */
  function ParseTokenLiteral(ts: seq<Token>, i: nat): (r: Option<Result<Parsed<Expr>, Failure>>)
    requires i <= |ts|
    ensures r.None? <==> TokenLiteralStart(ts, i).None?
    ensures r.Some? && r.value.Ok? ==> i < |ts| && r.value.value.next == i + 1
  {
    if At(ts, i, Kind(Integer)) then
      match N.ParseBigInteger(ts[i].literal)
      case None => Some(Err(Unchecked))
      case Some(n) => Some(Ok(Parsed(Literal(IntLit(n), None), i + 1)))
    else if At(ts, i, Kind(Decimal)) then
      match N.ParseBigDecimal(ts[i].literal)
      case None => Some(Err(Unchecked))
      case Some(d) => Some(Ok(Parsed(Literal(DecLit(d), None), i + 1)))
    else if At(ts, i, Kind(Character)) then
      match LiteralBody(ts[i].literal)
      case None => Some(Err(Unchecked))
      case Some(body) =>
        if |body| == 0 then Some(Err(Unchecked)) else Some(Ok(Parsed(Literal(CharLit(body[0]), None), i + 1)))
    else if At(ts, i, Kind(String)) then
      match LiteralBody(ts[i].literal)
      case None => Some(Err(Unchecked))
      case Some(body) => Some(Ok(Parsed(Literal(StringLit(body), None), i + 1)))
    else None
  }

  function ParsePrimary(ts: seq<Token>, i: nat): (r: Result<Parsed<Expr>, Failure>)
    requires i <= |ts|
    ensures r.Ok? ==> i < r.value.next <= |ts|
    decreases |ts| - i, 0, 0
  {
    match ParseLiteral(ts, i)
    case Some(literal) => literal
    case None =>
      if At(ts, i, Text("(")) then
        var e :- ParseExpression(ts, i + 1);
        if At(ts, e.next, Text(")")) then Ok(Parsed(Group(e.value, None), e.next + 1))
        else Err(ErrorAfterPrevious(ts, e.next))
      else if At(ts, i, Kind(Identifier)) then
        var name := ts[i].literal;
        if At(ts, i + 1, Text("(")) then
          var a :- ParseArguments(ts, i + 2);
          Ok(Parsed(FunctionCall(None, name, a.value, None), a.next))
        else Ok(Parsed(Access(None, name, None), i + 1))
      else Err(ErrorAfterPrevious(ts, i))
  }

  /** Whether the next token is one of the statement keywords whose parsers are unfinished. */
  predicate AtKeywordStatement(ts: seq<Token>, i: nat) {
    At(ts, i, Text("LET")) || At(ts, i, Text("IF")) || At(ts, i, Text("FOR"))
    || At(ts, i, Text("WHILE")) || At(ts, i, Text("RETURN"))
  }

  function ParseStatement(ts: seq<Token>, i: nat): (r: Result<Parsed<Stmt>, Failure>)
    requires i <= |ts|
    ensures r.Ok? ==> i < r.value.next <= |ts|
  {
    if AtKeywordStatement(ts, i) then Err(Unchecked)
    else
      var e :- ParseExpression(ts, i);
      if At(ts, e.next, Text("=")) then
        var v :- ParseExpression(ts, e.next + 1);
        if At(ts, v.next, Text(";")) then Ok(Parsed(Assignment(e.value, v.value), v.next + 1))
        else Err(ErrorAfterPrevious(ts, v.next))
      else if At(ts, e.next, Text(";")) then Ok(Parsed(Expression(e.value), e.next + 1))
      else Err(ErrorAfterPrevious(ts, e.next))
  }

  /** The field `parseField` returns after consuming LET and an optional CONST. */
  const PlaceholderField: Field := Field("", "", false, None, None)

  /** The method `parseMethod` returns after consuming DEF. */
  const PlaceholderMethod: Method := Method("", [], [], None, [], None)

  /** Where parseField stops: after LET (when present) and a following CONST. */
  function FieldEnd(ts: seq<Token>, i: nat): (r: nat)
    requires i <= |ts|
    ensures i <= r <= |ts|
  {
    var j := if At(ts, i, Text("LET")) then i + 1 else i;
    if At(ts, j, Text("CONST")) then j + 1 else j
  }

  function ParseSource(ts: seq<Token>): Result<Source, Failure> {
    SourceFrom(ts, 0, [], [])
  }

  /** The loop of parseSource, with the fields and methods collected so far. */
  function SourceFrom(ts: seq<Token>, i: nat, fields: seq<Field>, methods: seq<Method>): Result<Source, Failure>
    requires i <= |ts|
    decreases |ts| - i
  {
    if i == |ts| then Ok(Source(fields, methods))
    else if At(ts, i, Text("LET")) then SourceFrom(ts, FieldEnd(ts, i), fields + [PlaceholderField], methods)
    else if At(ts, i, Text("DEF")) then SourceFrom(ts, i + 1, fields, methods + [PlaceholderMethod])
    else Err(ParseError(ts[i].index))
  }

  /** The value of a rule's result, without the position. */
  function ValueOf<T>(p: Result<Parsed<T>, Failure>): Result<T, Failure> {
    match p
    case Ok(x) => Ok(x.value)
    case Err(e) => Err(e)
  }
}
