/** Properties of the parser's rules: precedence, associativity, postfix chains, arguments, statements. */
module ParserFacts {
  import opened Common
  import opened Tokens
  import opened Ast
  import opened ParserSpec

  /** The level an operator belongs to; 4 for anything that is not a binary operator. */
  function OpLevel(op: string): (r: nat)
    ensures r <= 4
    ensures r < 4 ==> op in LevelOps[r]
  {
    if op in LevelOps[0] then 0
    else if op in LevelOps[1] then 1
    else if op in LevelOps[2] then 2
    else if op in LevelOps[3] then 3
    else 4
  }

  /** How loosely an expression's top node binds: its operator's level, 4 for a non-binary node. */
  function Precedence(e: Expr): nat {
    if e.Binary? then OpLevel(e.op) else 4
  }

  /**
   * A tree a level-L rule may return: nothing at its top binds more loosely than L,
   * and a level-L operator at the top has a left operand of level L or tighter and a
   * right operand strictly tighter (left associativity).
   */
  predicate Shaped(e: Expr, level: nat) {
    && Precedence(e) >= level
    && (e.Binary? && Precedence(e) == level ==> Precedence(e.left) >= level && Precedence(e.right) > level)
  }

  /** Each level only returns trees of its shape: precedence and left associativity. */
  lemma {:induction false} LevelShape(ts: seq<Token>, i: nat, level: nat)
    requires i <= |ts| && level <= 4
    requires ParseLevel(ts, i, level).Ok?
    ensures Shaped(ParseLevel(ts, i, level).value.value, level)
    decreases |ts| - i, 5 - level, 1
  {
    if level == 4 {
      SecondaryNotBinary(ts, i);
    } else {
      var l := ParseLevel(ts, i, level + 1).value;
      LevelShape(ts, i, level + 1);
      LevelRestShape(ts, level, l.value, l.next);
    }
  }

  lemma {:induction false} LevelRestShape(ts: seq<Token>, level: nat, acc: Expr, i: nat)
    requires i <= |ts| && level < 4
    requires Shaped(acc, level)
    requires ParseLevelRest(ts, level, acc, i).Ok?
    ensures Shaped(ParseLevelRest(ts, level, acc, i).value.value, level)
    decreases |ts| - i, 5 - level, 0
  {
    match LevelOperator(ts, i, level)
    case None =>
    case Some(op) =>
      var right := ParseLevel(ts, i + 1, level + 1).value;
      LevelShape(ts, i + 1, level + 1);
      assert OpLevel(op) == level;
      LevelRestShape(ts, level, Binary(op, acc, right.value, None), right.next);
  }

  /** The secondary rule never builds a binary node. */
  lemma SecondaryNotBinary(ts: seq<Token>, i: nat)
    requires i <= |ts| && ParseSecondary(ts, i).Ok?
    ensures !ParseSecondary(ts, i).value.value.Binary?
  {
    var p := ParsePrimary(ts, i).value;
    SecondaryRestChain(ts, p.value, p.next);
  }

  /** `e` is `base` under zero or more `.name` / `.name(args)` suffixes. */
  predicate ReceiverChain(e: Expr, base: Expr) {
    e == base
    || (e.Access? && e.receiver.Some? && ReceiverChain(e.receiver.value, base))
    || (e.FunctionCall? && e.receiver.Some? && ReceiverChain(e.receiver.value, base))
  }

  /**
   * The secondary loop wraps the expression so far as the receiver of each access or
   * call, and a `.` with no identifier after it throws at the end of the `.`.
   */
  lemma {:induction false} SecondaryRestChain(ts: seq<Token>, acc: Expr, i: nat)
    requires i <= |ts|
    ensures var r := SecondaryRest(ts, acc, i);
      && (r.Ok? ==> ReceiverChain(r.value.value, acc) && (acc.Binary? ==> r.value.value.Binary? ==> r.value.value == acc))
      && (At(ts, i, Text(".")) && !At(ts, i + 1, Kind(Identifier)) ==> r == Err(ParseError(End(ts[i]))))
      && (!At(ts, i, Text(".")) ==> r == Ok(Parsed(acc, i)))
    decreases |ts| - i
  {
    if At(ts, i, Text(".")) && At(ts, i + 1, Kind(Identifier)) {
      var name := ts[i + 1].literal;
      if At(ts, i + 2, Text("(")) {
        var a := ParseArguments(ts, i + 3);
        if a.Ok? {
          var call := FunctionCall(Some(acc), name, a.value.value, None);
          SecondaryRestChain(ts, call, a.value.next);
          var r := SecondaryRest(ts, call, a.value.next);
          if r.Ok? {
            ChainExtends(r.value.value, call, acc);
          }
        }
      } else {
        var access := Access(Some(acc), name, None);
        SecondaryRestChain(ts, access, i + 2);
        var r := SecondaryRest(ts, access, i + 2);
        if r.Ok? {
          ChainExtends(r.value.value, access, acc);
        }
      }
    }
  }

  /** A chain over one suffix of `base` is a chain over `base`, and holds no binary node but `base`. */
  lemma {:induction false} ChainExtends(e: Expr, mid: Expr, base: Expr)
    requires (mid.Access? || mid.FunctionCall?) && mid.receiver == Some(base)
    requires ReceiverChain(e, mid)
    ensures ReceiverChain(e, base) && !e.Binary?
    decreases e
  {
    if e != mid {
      ChainExtends(e.receiver.value, mid, base);
    }
  }

  /** `a - b - c` parses as `(a - b) - c`. */
  lemma LeftAssociativeExample()
    ensures var ts := [Token(Identifier, "a", 0), Token(Operator, "-", 2), Token(Identifier, "b", 4),
                       Token(Operator, "-", 6), Token(Identifier, "c", 8)];
      ParseExpression(ts, 0) == Ok(Parsed(Binary("-", Binary("-", Name("a"), Name("b"), None), Name("c"), None), 5))
  {
    var ts := [Token(Identifier, "a", 0), Token(Operator, "-", 2), Token(Identifier, "b", 4),
               Token(Operator, "-", 6), Token(Identifier, "c", 8)];
    NameAtom(ts, 0, 3);
    NameAtom(ts, 2, 3);
    NameAtom(ts, 4, 3);
    var ab := Binary("-", Name("a"), Name("b"), None);
    var abc := Binary("-", ab, Name("c"), None);
    assert ParseLevelRest(ts, 2, abc, 5) == Ok(Parsed(abc, 5));
    assert ParseLevelRest(ts, 2, ab, 3) == Ok(Parsed(abc, 5));
    assert ParseLevelRest(ts, 2, Name("a"), 1) == Ok(Parsed(abc, 5));
    assert ParseLevel(ts, 0, 2) == Ok(Parsed(abc, 5));
    assert ParseLevel(ts, 0, 1) == Ok(Parsed(abc, 5));
  }

  /** `a + b * c` parses as `a + (b * c)`. */
  lemma PrecedenceExample()
    ensures var ts := [Token(Identifier, "a", 0), Token(Operator, "+", 2), Token(Identifier, "b", 4),
                       Token(Operator, "*", 6), Token(Identifier, "c", 8)];
      ParseExpression(ts, 0) == Ok(Parsed(Binary("+", Name("a"), Binary("*", Name("b"), Name("c"), None), None), 5))
  {
    var ts := [Token(Identifier, "a", 0), Token(Operator, "+", 2), Token(Identifier, "b", 4),
               Token(Operator, "*", 6), Token(Identifier, "c", 8)];
    NameAtom(ts, 0, 3);
    NameAtom(ts, 2, 4);
    NameAtom(ts, 4, 4);
    var bc := Binary("*", Name("b"), Name("c"), None);
    assert ParseLevelRest(ts, 3, bc, 5) == Ok(Parsed(bc, 5));
    assert ParseLevelRest(ts, 3, Name("b"), 3) == Ok(Parsed(bc, 5));
    assert ParseLevel(ts, 2, 3) == Ok(Parsed(bc, 5));
    var abc := Binary("+", Name("a"), bc, None);
    assert ParseLevelRest(ts, 2, abc, 5) == Ok(Parsed(abc, 5));
    assert ParseLevelRest(ts, 2, Name("a"), 1) == Ok(Parsed(abc, 5));
    assert ParseLevel(ts, 0, 2) == Ok(Parsed(abc, 5));
    assert ParseLevel(ts, 0, 1) == Ok(Parsed(abc, 5));
  }

  function Name(n: string): Expr {
    Access(None, n, None)
  }

  /**
   * An identifier that is not a keyword literal, followed by nothing or by a token
   * that continues no rule from `level` on, is a bare access at that level.
   */
  lemma {:induction false} NameAtom(ts: seq<Token>, i: nat, level: nat)
    requires i < |ts| && ts[i].kind == Identifier && ts[i].literal !in ["TRUE", "FALSE", "NIL", "("]
    requires level <= 4
    requires i + 1 < |ts| ==> ts[i + 1].literal !in ["(", "."]
    requires i + 1 < |ts| ==> forall l :: level <= l < 4 ==> ts[i + 1].literal !in LevelOps[l]
    ensures ParseLevel(ts, i, level) == Ok(Parsed(Name(ts[i].literal), i + 1))
    decreases 4 - level
  {
    if level == 4 {
      var n := ts[i].literal;
      assert n != "TRUE" && n != "FALSE" && n != "NIL" && n != "(";
      assert !At(ts, i + 1, Text("(")) && !At(ts, i + 1, Text("."));
      assert ParsePrimary(ts, i) == Ok(Parsed(Name(ts[i].literal), i + 1));
      assert SecondaryRest(ts, Name(ts[i].literal), i + 1) == Ok(Parsed(Name(ts[i].literal), i + 1));
    } else {
      NameAtom(ts, i, level + 1);
      assert LevelOperator(ts, i + 1, level) == None;
    }
  }

  /** An argument list ends at a `)`, and is empty exactly when `)` comes first. */
  lemma ArgumentsShape(ts: seq<Token>, i: nat)
    requires i <= |ts| && ParseArguments(ts, i).Ok?
    ensures var p := ParseArguments(ts, i).value;
      && At(ts, p.next - 1, Text(")"))
      && (|p.value| == 0 <==> At(ts, i, Text(")")))
  {
    if !At(ts, i, Text(")")) {
      ArgumentListShape(ts, i, []);
    }
  }

  /** The list loop keeps what it collected and adds one or more expressions before the `)`. */
  lemma {:induction false} ArgumentListShape(ts: seq<Token>, i: nat, acc: seq<Expr>)
    requires i <= |ts| && ArgumentList(ts, i, acc).Ok?
    ensures var p := ArgumentList(ts, i, acc).value;
      && At(ts, p.next - 1, Text(")")) && |p.value| > |acc| && p.value[..|acc|] == acc
    decreases |ts| - i
  {
    var e := ParseExpression(ts, i).value;
    if At(ts, e.next, Text(",")) {
      ArgumentListShape(ts, e.next + 1, acc + [e.value]);
      var p := ArgumentList(ts, i, acc).value;
      assert p.value[..|acc|] == p.value[..|acc + [e.value]|][..|acc|];
    }
  }

  /** `f(a, b)` passes two arguments. */
  lemma CallExample()
    ensures var ts := [Token(Identifier, "f", 0), Token(Operator, "(", 1), Token(Identifier, "a", 2),
                       Token(Operator, ",", 3), Token(Identifier, "b", 5), Token(Operator, ")", 6)];
      ParseExpression(ts, 0) == Ok(Parsed(FunctionCall(None, "f", [Name("a"), Name("b")], None), 6))
  {
    var ts := [Token(Identifier, "f", 0), Token(Operator, "(", 1), Token(Identifier, "a", 2),
               Token(Operator, ",", 3), Token(Identifier, "b", 5), Token(Operator, ")", 6)];
    CallOperands(ts);
    CallArguments(ts);
    var call := FunctionCall(None, "f", [Name("a"), Name("b")], None);
    CallPrimary(ts, call);
    assert SecondaryRest(ts, call, 6) == Ok(Parsed(call, 6));
    assert ParseLevel(ts, 0, 4) == Ok(Parsed(call, 6));
    assert ParseLevel(ts, 0, 3) == Ok(Parsed(call, 6));
    assert ParseLevel(ts, 0, 2) == Ok(Parsed(call, 6));
    assert ParseLevel(ts, 0, 1) == Ok(Parsed(call, 6));
  }

  lemma CallOperands(ts: seq<Token>)
    requires ts == [Token(Identifier, "f", 0), Token(Operator, "(", 1), Token(Identifier, "a", 2),
                    Token(Operator, ",", 3), Token(Identifier, "b", 5), Token(Operator, ")", 6)]
    ensures ParseExpression(ts, 2) == Ok(Parsed(Name("a"), 3))
    ensures ParseExpression(ts, 4) == Ok(Parsed(Name("b"), 5))
  {
    NameAtom(ts, 2, 0);
    NameAtom(ts, 4, 0);
  }

  lemma CallArguments(ts: seq<Token>)
    requires ts == [Token(Identifier, "f", 0), Token(Operator, "(", 1), Token(Identifier, "a", 2),
                    Token(Operator, ",", 3), Token(Identifier, "b", 5), Token(Operator, ")", 6)]
    requires ParseExpression(ts, 2) == Ok(Parsed(Name("a"), 3))
    requires ParseExpression(ts, 4) == Ok(Parsed(Name("b"), 5))
    ensures ParseArguments(ts, 2) == Ok(Parsed([Name("a"), Name("b")], 6))
  {
    assert [] + [Name("a")] == [Name("a")];
    assert [Name("a")] + [Name("b")] == [Name("a"), Name("b")];
    assert ArgumentList(ts, 4, [Name("a")]) == Ok(Parsed([Name("a"), Name("b")], 6));
    assert ArgumentList(ts, 2, []) == Ok(Parsed([Name("a"), Name("b")], 6));
  }

  lemma CallPrimary(ts: seq<Token>, call: Expr)
    requires ts == [Token(Identifier, "f", 0), Token(Operator, "(", 1), Token(Identifier, "a", 2),
                    Token(Operator, ",", 3), Token(Identifier, "b", 5), Token(Operator, ")", 6)]
    requires call == FunctionCall(None, "f", [Name("a"), Name("b")], None)
    requires ParseArguments(ts, 2) == Ok(Parsed([Name("a"), Name("b")], 6))
    ensures ParsePrimary(ts, 0) == Ok(Parsed(call, 6))
  {
    assert At(ts, 0, Kind(Identifier)) && At(ts, 1, Text("("));
    assert !At(ts, 0, Text("TRUE")) && !At(ts, 0, Text("FALSE")) && !At(ts, 0, Text("NIL"));
    assert !At(ts, 0, Text("("));
    assert ParseLiteral(ts, 0).None?;
  }

  /**
   * A statement that does not start with a keyword is an expression, an assignment
   * exactly when `=` follows it, and either form ends with `;`; a missing `;` is
   * reported where the previous token ends.
   */
  lemma StatementShape(ts: seq<Token>, i: nat)
    requires i <= |ts|
    ensures var r := ParseStatement(ts, i);
      && (AtKeywordStatement(ts, i) ==> r == Err(Unchecked))
      && (r.Ok? ==> var e := ParseExpression(ts, i).value;
            && At(ts, r.value.next - 1, Text(";"))
            && (r.value.value.Assignment? <==> At(ts, e.next, Text("=")))
            && (r.value.value.Expression? || r.value.value.Assignment?)
            && (r.value.value.Expression? ==> r.value.value.expr == e.value)
            && (r.value.value.Assignment? ==> r.value.value.receiver == e.value))
      && (!AtKeywordStatement(ts, i) && ParseExpression(ts, i).Ok?
          && !At(ts, ParseExpression(ts, i).value.next, Text("="))
          && !At(ts, ParseExpression(ts, i).value.next, Text(";"))
          ==> r == Err(ParseError(End(ts[ParseExpression(ts, i).value.next - 1]))))
  {
  }

  /** parseSource only fails at a token that starts neither a field nor a method, reporting its index. */
  lemma {:induction false} SourceErrors(ts: seq<Token>, i: nat, fields: seq<Field>, methods: seq<Method>)
    requires i <= |ts|
    ensures var r := SourceFrom(ts, i, fields, methods);
      && (r.Err? ==> exists k :: i <= k < |ts| && r.error == ParseError(ts[k].index)
                                && ts[k].literal != "LET" && ts[k].literal != "DEF")
      && (r.Ok? ==> |r.value.fields| >= |fields| && |r.value.methods| >= |methods|
                    && r.value.fields[..|fields|] == fields && r.value.methods[..|methods|] == methods)
    decreases |ts| - i
  {
    if i < |ts| {
      if At(ts, i, Text("LET")) {
        SourceErrors(ts, FieldEnd(ts, i), fields + [PlaceholderField], methods);
        var r := SourceFrom(ts, i, fields, methods);
        if r.Ok? {
          assert r.value.fields[..|fields|] == r.value.fields[..|fields| + 1][..|fields|];
        }
      } else if At(ts, i, Text("DEF")) {
        SourceErrors(ts, i + 1, fields, methods + [PlaceholderMethod]);
        var r := SourceFrom(ts, i, fields, methods);
        if r.Ok? {
          assert r.value.methods[..|methods|] == r.value.methods[..|methods| + 1][..|methods|];
        }
      }
    }
  }
}
