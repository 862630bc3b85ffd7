/**
 * The parser as Parser.java writes it: a token stream whose index `match` advances,
 * one method per grammar rule, each binary level a loop that rewraps the expression
 * built so far, and argument lists collected in a loop. Each method is proved to
 * compute the rule's function in ParserSpec.
 */
module Parser {
  import opened Common
  import opened Tokens
  import opened Ast
  import opened ParserSpec
  import N = Numbers
  import E = Escapes

  /** The token list and the position of the next token. */
  class TokenStream {
    const tokens: seq<Token>
    var index: nat

    ghost predicate Valid()
      reads this
    {
      index <= |tokens|
    }

    constructor (tokens: seq<Token>)
      ensures Valid() && this.tokens == tokens && index == 0
    {
      this.tokens := tokens;
      index := 0;
    }

    /** Whether there is a token at index + offset. */
    predicate Has(offset: int)
      reads this
    {
      0 <= index + offset < |tokens|
    }

    function Get(offset: int): Token
      reads this
      requires Has(offset)
    {
      tokens[index + offset]
    }

    method Advance()
      modifies this
      ensures index == old(index) + 1
    {
      index := index + 1;
    }
  }

  class Parser {
    const tokens: TokenStream

    ghost predicate Valid()
      reads this, tokens
    {
      tokens.Valid()
    }

    constructor (ts: seq<Token>)
      ensures Valid() && fresh(tokens) && tokens.tokens == ts && tokens.index == 0
    {
      tokens := new TokenStream(ts);
    }

    /** peek(ps...): the next |ps| tokens exist and fit ps, one pattern each. */
    method Peek(ps: seq<TokenPattern>) returns (b: bool)
      requires Valid()
      ensures b == PeekTokens(tokens.tokens, tokens.index, ps)
      ensures |ps| == 1 ==> b == At(tokens.tokens, tokens.index, ps[0])
    {
      PeekTokensEach(tokens.tokens, tokens.index, ps);
      if |ps| == 1 {
        AtIsPeek(tokens.tokens, tokens.index, ps[0]);
      }
      for i := 0 to |ps|
        invariant tokens.index + i <= |tokens.tokens|
        invariant forall k :: 0 <= k < i ==> Fits(ps[k], tokens.tokens[tokens.index + k])
      {
        if !tokens.Has(i) || !Fits(ps[i], tokens.Get(i)) {
          return false;
        }
      }
      return true;
    }

    /** match(ps...): peek, and on success advance over the |ps| tokens. */
    method Match(ps: seq<TokenPattern>) returns (b: bool)
      requires Valid()
      modifies tokens
      ensures Valid()
      ensures b == PeekTokens(tokens.tokens, old(tokens.index), ps)
      ensures |ps| == 1 ==> b == At(tokens.tokens, old(tokens.index), ps[0])
      ensures tokens.index == old(tokens.index) + (if b then |ps| else 0)
    {
      b := Peek(ps);
      if b {
        PeekTokensEach(tokens.tokens, tokens.index, ps);
        for i := 0 to |ps|
          invariant tokens.index == old(tokens.index) + i
        {
          tokens.Advance();
        }
      }
    }

    /** The ParseException raised after the previous token: at its end; `get(-1)` throws at the start. */
    function PreviousError(): Failure
      reads this, tokens
      requires Valid()
    {
      if tokens.Has(-1) then ParseError(End(tokens.Get(-1))) else Unchecked
    }

    method ParseSource() returns (r: Result<Source, Failure>)
      requires Valid()
      modifies tokens
      ensures Valid()
      ensures r == SourceFrom(tokens.tokens, old(tokens.index), [], [])
    {
      var fields: seq<Field> := [];
      var methods: seq<Method> := [];
      while tokens.Has(0)
        invariant Valid()
        invariant SourceFrom(tokens.tokens, tokens.index, fields, methods) == SourceFrom(tokens.tokens, old(tokens.index), [], [])
        decreases |tokens.tokens| - tokens.index
      {
        var isField := Peek([Text("LET")]);
        if isField {
          var f := ParseField();
          fields := fields + [f];
        } else {
          var isMethod := Peek([Text("DEF")]);
          if isMethod {
            var m := ParseMethod();
            methods := methods + [m];
          } else {
            return Err(ParseError(tokens.Get(0).index));
          }
        }
      }
      return Ok(Source(fields, methods));
    }

    /** Consumes LET and an optional CONST; the rest of the rule is unfinished. */
    method ParseField() returns (f: Field)
      requires Valid()
      modifies tokens
      ensures Valid()
      ensures f == PlaceholderField && tokens.index == FieldEnd(tokens.tokens, old(tokens.index))
    {
      var _ := Match([Text("LET")]);
      var isConstant := Peek([Text("CONST")]);
      if isConstant {
        var _ := Match([Text("CONST")]);
      }
      return PlaceholderField;
    }

    /** Consumes DEF; the rest of the rule is unfinished. */
    method ParseMethod() returns (m: Method)
      requires Valid()
      modifies tokens
      ensures Valid()
      ensures m == PlaceholderMethod
      ensures tokens.index == old(tokens.index) + (if At(tokens.tokens, old(tokens.index), Text("DEF")) then 1 else 0)
    {
      var _ := Match([Text("DEF")]);
      return PlaceholderMethod;
    }

    method ParseStatement() returns (r: Result<Stmt, Failure>)
      requires Valid()
      modifies tokens
      ensures Valid()
      ensures var spec := ParserSpec.ParseStatement(tokens.tokens, old(tokens.index));
        r == ValueOf(spec) && (r.Ok? ==> tokens.index == spec.value.next)
    {
      // The declaration, if, for, while and return parsers are unfinished and throw.
      var keyword := Peek([Text("LET")]);
      if keyword { return Err(Unchecked); }
      keyword := Peek([Text("IF")]);
      if keyword { return Err(Unchecked); }
      keyword := Peek([Text("FOR")]);
      if keyword { return Err(Unchecked); }
      keyword := Peek([Text("WHILE")]);
      if keyword { return Err(Unchecked); }
      keyword := Peek([Text("RETURN")]);
      if keyword { return Err(Unchecked); }
      var e := ParseExpression();
      if e.Err? { return Err(e.error); }
      var assign := Match([Text("=")]);
      if assign {
        var v := ParseExpression();
        if v.Err? { return Err(v.error); }
        var semicolon := Match([Text(";")]);
        if !semicolon { return Err(PreviousError()); }
        return Ok(Assignment(e.value, v.value));
      }
      var semicolon := Match([Text(";")]);
      if !semicolon { return Err(PreviousError()); }
      return Ok(Expression(e.value));
    }

    method ParseExpression() returns (r: Result<Expr, Failure>)
      requires Valid()
      modifies tokens
      ensures Valid()
      ensures var spec := ParserSpec.ParseExpression(tokens.tokens, old(tokens.index));
        r == ValueOf(spec) && (r.Ok? ==> tokens.index == spec.value.next)
      decreases |tokens.tokens| - tokens.index, 6, 0
    {
      r := ParseLevel(0);
    }

    /** The binary levels 0 to 3 and, below them, the secondary rule (level 4). */
    method ParseLevel(level: nat) returns (r: Result<Expr, Failure>)
      requires Valid() && level <= 4
      modifies tokens
      ensures Valid()
      ensures var spec := ParserSpec.ParseLevel(tokens.tokens, old(tokens.index), level);
        r == ValueOf(spec) && (r.Ok? ==> tokens.index == spec.value.next)
      decreases |tokens.tokens| - tokens.index, 5 - level, 2
    {
      if level == 4 {
        r := ParseSecondary();
      } else {
        r := ParseBinary(level);
      }
    }

    /**
     * The logical (0), equality (1), additive (2) and multiplicative (3) rules:
     * `expr = next level; while (match(op...)) expr = Binary(op, expr, next level)`.
     */
    method ParseBinary(level: nat) returns (r: Result<Expr, Failure>)
      requires Valid() && level < 4
      modifies tokens
      ensures Valid()
      ensures var spec := ParserSpec.ParseLevel(tokens.tokens, old(tokens.index), level);
        r == ValueOf(spec) && (r.Ok? ==> tokens.index == spec.value.next)
      decreases |tokens.tokens| - tokens.index, 5 - level, 1
    {
      var first := ParseLevel(level + 1);
      if first.Err? { return Err(first.error); }
      var expr := first.value;
      while true
        invariant Valid() && tokens.index > old(tokens.index)
        invariant ParseLevelRest(tokens.tokens, level, expr, tokens.index)
                  == ParserSpec.ParseLevel(tokens.tokens, old(tokens.index), level)
        decreases |tokens.tokens| - tokens.index
      {
        var matched := MatchOperator(level);
        if !matched { return Ok(expr); }
        var op := tokens.Get(-1).literal;
        var right := ParseLevel(level + 1);
        if right.Err? { return Err(right.error); }
        expr := Binary(op, expr, right.value, None);
      }
    }

    /** `match(op1) || match(op2) || ...` over the level's operators. */
    method MatchOperator(level: nat) returns (b: bool)
      requires Valid() && level < 4
      modifies tokens
      ensures Valid()
      ensures b == LevelOperator(tokens.tokens, old(tokens.index), level).Some?
      ensures tokens.index == old(tokens.index) + (if b then 1 else 0)
    {
      var ops := LevelOps[level];
      for k := 0 to |ops|
        invariant tokens.index == old(tokens.index)
        invariant forall j :: 0 <= j < k ==> !At(tokens.tokens, tokens.index, Text(ops[j]))
      {
        b := Match([Text(ops[k])]);
        if b { return; }
      }
      return false;
    }

    method ParseSecondary() returns (r: Result<Expr, Failure>)
      requires Valid()
      modifies tokens
      ensures Valid()
      ensures var spec := ParserSpec.ParseSecondary(tokens.tokens, old(tokens.index));
        r == ValueOf(spec) && (r.Ok? ==> tokens.index == spec.value.next)
      decreases |tokens.tokens| - tokens.index, 1, 0
    {
      var p := ParsePrimary();
      if p.Err? { return Err(p.error); }
      var expr := p.value;
      while true
        invariant Valid() && tokens.index > old(tokens.index)
        invariant SecondaryRest(tokens.tokens, expr, tokens.index) == ParserSpec.ParseSecondary(tokens.tokens, old(tokens.index))
        decreases |tokens.tokens| - tokens.index
      {
        var dot := Match([Text(".")]);
        if !dot { return Ok(expr); }
        var member := ParseMember(expr);
        if member.Err? { return Err(member.error); }
        expr := member.value;
      }
    }

    /** After a `.`: an identifier, then arguments when `(` follows it; `receiver` is the expression so far. */
    method ParseMember(receiver: Expr) returns (r: Result<Expr, Failure>)
      requires Valid() && tokens.index > 0
      modifies tokens
      ensures Valid()
      ensures var spec := ParserSpec.ParseMember(tokens.tokens, receiver, old(tokens.index));
        r == ValueOf(spec) && (r.Ok? ==> tokens.index == spec.value.next)
      decreases |tokens.tokens| - tokens.index, 0, 2
    {
      var identifier := Match([Kind(Identifier)]);
      if !identifier { return Err(PreviousError()); }
      var name := tokens.Get(-1).literal;
      var call := Match([Text("(")]);
      if call {
        var args := ParseArguments();
        if args.Err? { return Err(args.error); }
        return Ok(FunctionCall(Some(receiver), name, args.value, None));
      }
      return Ok(Access(Some(receiver), name, None));
    }

    /** After `(`: `)` gives no arguments; otherwise `do { args.add(expression) } while (match(","))` and `)`. */
    method ParseArguments() returns (r: Result<seq<Expr>, Failure>)
      requires Valid()
      modifies tokens
      ensures Valid()
      ensures var spec := ParserSpec.ParseArguments(tokens.tokens, old(tokens.index));
        r == ValueOf(spec) && (r.Ok? ==> tokens.index == spec.value.next)
      decreases |tokens.tokens| - tokens.index, 7, 0
    {
      var close := Match([Text(")")]);
      if close { return Ok([]); }
      var args: seq<Expr> := [];
      while true
        invariant Valid() && tokens.index >= old(tokens.index)
        invariant ArgumentList(tokens.tokens, tokens.index, args) == ParserSpec.ParseArguments(tokens.tokens, old(tokens.index))
        decreases |tokens.tokens| - tokens.index
      {
        var e := ParseExpression();
        if e.Err? { return Err(e.error); }
        args := args + [e.value];
        var comma := Match([Text(",")]);
        if !comma {
          close := Match([Text(")")]);
          if !close { return Err(PreviousError()); }
          return Ok(args);
        }
      }
    }

    method ParsePrimary() returns (r: Result<Expr, Failure>)
      requires Valid()
      modifies tokens
      ensures Valid()
      ensures var spec := ParserSpec.ParsePrimary(tokens.tokens, old(tokens.index));
        r == ValueOf(spec) && (r.Ok? ==> tokens.index == spec.value.next)
      decreases |tokens.tokens| - tokens.index, 0, 0
    {
      var literal := ParseLiteral();
      if literal.Some? { return literal.value; }
      var group := Match([Text("(")]);
      if group {
        var e := ParseExpression();
        if e.Err? { return Err(e.error); }
        var close := Match([Text(")")]);
        if !close { return Err(PreviousError()); }
        return Ok(Group(e.value, None));
      }
      var identifier := Match([Kind(Identifier)]);
      if identifier {
        var name := tokens.Get(-1).literal;
        var call := Match([Text("(")]);
        if call {
          var args := ParseArguments();
          if args.Err? { return Err(args.error); }
          return Ok(FunctionCall(None, name, args.value, None));
        }
        return Ok(Access(None, name, None));
      }
      return Err(PreviousError());
    }

    /** The TRUE, FALSE and NIL branches of the primary rule, then the literal tokens. */
    method ParseLiteral() returns (r: Option<Result<Expr, Failure>>)
      requires Valid()
      modifies tokens
      ensures Valid()
      ensures var spec := ParserSpec.ParseLiteral(tokens.tokens, old(tokens.index));
        r == (if spec.None? then None else Some(ValueOf(spec.value)))
      ensures r.None? ==> tokens.index == old(tokens.index)
      ensures r.Some? && r.value.Ok? ==> tokens.index == old(tokens.index) + 1
    {
      var b := Match([Text("TRUE")]);
      if b { return Some(Ok(Literal(BoolLit(true), None))); }
      b := Match([Text("FALSE")]);
      if b { return Some(Ok(Literal(BoolLit(false), None))); }
      b := Match([Text("NIL")]);
      if b { return Some(Ok(Literal(NilLit, None))); }
      r := ParseTokenLiteral();
    }

    /** INTEGER, DECIMAL, CHARACTER and STRING tokens become literals; the quotes are stripped and escapes decoded. */
    method ParseTokenLiteral() returns (r: Option<Result<Expr, Failure>>)
      requires Valid()
      modifies tokens
      ensures Valid()
      ensures var spec := ParserSpec.ParseTokenLiteral(tokens.tokens, old(tokens.index));
        r == (if spec.None? then None else Some(ValueOf(spec.value)))
      ensures r.None? ==> tokens.index == old(tokens.index)
      ensures r.Some? && r.value.Ok? ==> tokens.index == old(tokens.index) + 1
    {
      var b := Match([Kind(Integer)]);
      if b {
        var n := N.ParseBigInteger(tokens.Get(-1).literal);
        if n.None? { return Some(Err(Unchecked)); }
        return Some(Ok(Literal(IntLit(n.value), None)));
      }
      b := Match([Kind(Decimal)]);
      if b {
        var d := N.ParseBigDecimal(tokens.Get(-1).literal);
        if d.None? { return Some(Err(Unchecked)); }
        return Some(Ok(Literal(DecLit(d.value), None)));
      }
      b := Match([Kind(Character)]);
      if b {
        var c := tokens.Get(-1).literal;
        if |c| < 2 { return Some(Err(Unchecked)); }
        var body := E.DecodeEscapes(c[1..|c| - 1]);
        if |body| == 0 { return Some(Err(Unchecked)); }
        return Some(Ok(Literal(CharLit(body[0]), None)));
      }
      b := Match([Kind(String)]);
      if b {
        var s := tokens.Get(-1).literal;
        if |s| < 2 { return Some(Err(Unchecked)); }
        return Some(Ok(Literal(StringLit(E.DecodeEscapes(s[1..|s| - 1])), None)));
      }
      return None;
    }
  }
}
