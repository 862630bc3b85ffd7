/**
 * Properties of the analyzer's rules, stated over the functions of AnalyzerSpec:
 * the shape of the assignability relation, the operand checks of binary operators,
 * the literal bounds, and what the visits of fields, methods and sources require.
 */
module AnalyzerFacts {
  import opened Common
  import opened Environment
  import opened Ast
  import opened AnalyzerSpec

  /** The types registered as Comparable's direct subtypes. */
  const LeafTypes: set<Type> := {BOOLEAN, INTEGER, DECIMAL, CHARACTER, STRING}

  /** Every type is assignable to itself and to Any. */
  lemma AssignableReflexiveAndTop(ty: Types, t: Type)
    ensures Assignable(ty, t, t) && Assignable(ty, ANY, t)
  {
  }

  /**
   * Assignability is not transitive: Integer goes to Comparable and Comparable
   * goes to Decimal, but Integer does not go to Decimal.
   */
  lemma AssignableNotTransitive(ty: Types)
    requires ty.comparables == LeafTypes
    ensures Assignable(ty, COMPARABLE, INTEGER) && Assignable(ty, DECIMAL, COMPARABLE)
    ensures !Assignable(ty, DECIMAL, INTEGER)
  {
  }

  /** Nil goes only to Nil and Any. */
  lemma NilAssignableOnlyToNilOrAny(ty: Types, target: Type)
    requires ty.comparables == LeafTypes
    ensures Assignable(ty, target, NIL) <==> target == NIL || target == ANY
  {
  }

  /**
   * The operator table exactly: when a binary node is accepted, for both
   * directions. Arithmetic checks `requireAssignable(rightType, leftType)`, so the
   * right operand's type is the target.
   */
  lemma BinaryTypingExactly(ty: Types, op: string, lt: Type, rt: Type)
    ensures BinaryTyping(ty, op, lt, rt).Ok? <==>
      || (op in LogicalOps && Assignable(ty, lt, BOOLEAN) && Assignable(ty, rt, BOOLEAN))
      || (op in ComparisonOps && Assignable(ty, lt, COMPARABLE) && Assignable(ty, rt, COMPARABLE))
      || (op == "+" && (lt == STRING || rt == STRING))
      || ((op == "+" || op in ArithmeticOps) && (lt == INTEGER || lt == DECIMAL) && Assignable(ty, rt, lt))
  {
  }

  /**
   * Because the right operand's type is the target, an Integer left operand is
   * accepted with an Any or Comparable right operand, while Integer with Decimal
   * is rejected either way round.
   */
  lemma ArithmeticRightOperandIsTarget(ty: Types)
    requires ty.comparables == LeafTypes
    ensures BinaryTyping(ty, "+", INTEGER, ANY) == Ok(INTEGER)
    ensures BinaryTyping(ty, "-", INTEGER, COMPARABLE) == Ok(INTEGER)
    ensures BinaryTyping(ty, "*", INTEGER, DECIMAL).Err? && BinaryTyping(ty, "*", DECIMAL, INTEGER).Err?
    ensures BinaryTyping(ty, "/", STRING, STRING).Err?
  {
  }

  /** Only the upper bound of an integer literal is checked: any negative value is accepted. */
  lemma IntegerLiteralBounds()
    ensures LiteralTyping(IntLit(-0x8000_0001)) == Ok(INTEGER)
    ensures LiteralTyping(IntLit(IntegerMax)) == Ok(INTEGER)
    ensures LiteralTyping(IntLit(IntegerMax + 1)) == Err(Rejected)
  {
  }

  /** A group around anything but a binary node is rejected. */
  lemma GroupNeedsBinary(ty: Types, sc: Bindings, x: Expr, t: Option<Type>)
    requires !x.Binary?
    ensures AnalyzeExpr(ty, sc, Group(x, t)) == Err(Rejected)
  {
  }

  /** A while loop with an empty body passes analysis; an if with an empty then-branch does not. */
  lemma EmptyBodies(ty: Types, sc: Bindings)
    requires |sc| > 0
    ensures AnalyzeStmt(ty, sc, While(Literal(BoolLit(true), None), [])).result.Ok?
    ensures AnalyzeStmt(ty, sc, If(Literal(BoolLit(true), None), [], [])).result == Err(Rejected)
  {
    var c := Literal(BoolLit(true), Some(BOOLEAN));
    assert AnalyzeExpr(ty, sc, Literal(BoolLit(true), None)) == Ok(c);
    assert AnalyzeStmts(ty, Push(sc), [], None).result == Ok([]);
  }

  /**
   * A field's initializer is analyzed before the field is defined, so a field
   * that reads its own name, with no other binding of it, is rejected.
   */
  lemma FieldCannotSeeItself(ty: Types, sc: Bindings, f: Field)
    requires |sc| > 0 && GetType(f.typeName).Some?
    requires LookupVariable(sc, f.name).None?
    requires f.value == Some(Access(None, f.name, None))
    ensures AnalyzeField(ty, sc, f).result == Err(Rejected)
  {
    assert AnalyzeAccess(ty, sc, f.value.value) == Err(Rejected);
    assert AnalyzeExpr(ty, sc, f.value.value) == Err(Rejected);
    assert AnalyzeOptional(ty, sc, f.value) == Err(Rejected);
  }

  /** The scope chain of the examples below: one empty frame. */
  function Global(): (r: Bindings)
    ensures |r| == 1
  {
    [EmptyFrame()]
  }

  /**
   * Defining the remaining parameters keeps a name already bound in the current
   * frame bound there, and keeps its binding when no remaining parameter has that name.
   */
  lemma {:induction false} DefineParametersKeeps(sc: Bindings, names: seq<string>, typeNames: seq<string>, k: nat, done: seq<Type>, x: string)
    requires |sc| > 0 && k <= |names| && k <= |typeNames| && |done| == k
    requires x in sc[|sc| - 1].variables
    ensures var r := DefineParameters(sc, names, typeNames, k, done);
      var top := r.scope[|sc| - 1].variables;
      r.result.Ok? ==>
        && x in top
        && ((forall i :: k <= i < |names| ==> names[i] != x) ==> top[x] == sc[|sc| - 1].variables[x])
    decreases |names| - k
  {
    if k < |names| && k < |typeNames| {
      match GetType(typeNames[k]) {
        case None =>
        case Some(t) =>
          var v := Variable(names[k], names[k], t, false);
          DefineParametersKeeps(DefineVariable(sc, names[k], v), names, typeNames, k + 1, done + [t], x);
      }
    }
  }

  /**
   * After the parameters from k on are defined, each of them is bound in the
   * current frame; the last parameter of a name binds it to a mutable variable of
   * that name and of the parameter's type.
   */
  lemma {:induction false} DefineParametersBinds(sc: Bindings, names: seq<string>, typeNames: seq<string>, k: nat, done: seq<Type>, j: nat)
    requires |sc| > 0 && k <= |names| && k <= |typeNames| && |done| == k && k <= j < |names|
    ensures var r := DefineParameters(sc, names, typeNames, k, done);
      var top := r.scope[|sc| - 1].variables;
      r.result.Ok? ==>
        && names[j] in top
        && ((forall i :: j < i < |names| ==> names[i] != names[j]) ==>
              top[names[j]] == Variable(names[j], names[j], r.result.value[j], false))
    decreases |names| - k
  {
    if k < |typeNames| {
      match GetType(typeNames[k]) {
        case None =>
        case Some(t) =>
          var v := Variable(names[k], names[k], t, false);
          var sc' := DefineVariable(sc, names[k], v);
          if j > k {
            DefineParametersBinds(sc', names, typeNames, k + 1, done + [t], j);
          } else {
            DefineParametersKeeps(sc', names, typeNames, k + 1, done + [t], names[k]);
            var r := DefineParameters(sc', names, typeNames, k + 1, done + [t]);
            if r.result.Ok? {
              assert r.result.value[k] == r.result.value[..k + 1][k] == t;
            }
          }
      }
    }
  }

  /**
   * A method's parameters are defined in the frame the method is declared in: after
   * an accepted method, each parameter name is bound in that frame and resolves; the
   * last parameter of a name resolves to a mutable variable of that name whose type is
   * the one the function records for that position, the type its type name denotes.
   */
  lemma ParametersBoundInEnclosingFrame(ty: Types, sc: Bindings, m: Method, j: nat)
    requires |sc| > 0 && j < |m.parameters|
    ensures var r := AnalyzeMethod(ty, sc, m);
      var x := m.parameters[j];
      r.result.Ok? ==>
        && x in r.scope[|sc| - 1].variables
        && LookupVariable(r.scope, x).Some?
        && ((forall i :: j < i < |m.parameters| ==> m.parameters[i] != x) ==>
              var t := r.result.value.func.value.parameterTypes[j];
              && LookupVariable(r.scope, x) == Some(Variable(x, x, t, false))
              && GetType(m.parameterTypeNames[j]) == Some(t))
  {
    var r := AnalyzeMethod(ty, sc, m);
    if r.result.Ok? {
      var rt := if m.returnTypeName.Some? then GetType(m.returnTypeName.value) else Some(NIL);
      var p := DefineParameters(sc, m.parameters, m.parameterTypeNames, 0, []);
      assert p.result.Ok?;
      var pts := p.result.value;
      DefineParametersBinds(sc, m.parameters, m.parameterTypeNames, 0, [], j);
      var f := Function(m.name, m.name, pts, rt.value);
      var sc' := DefineFunction(p.scope, m.name, |pts|, f);
      var b := AnalyzeStmts(ty, Push(sc'), m.statements, Some(rt.value));
      assert r.scope == Pop(b.scope) == sc';
      assert r.result.value.func.value == f;
      assert sc'[|sc| - 1].variables == p.scope[|sc| - 1].variables;
    }
  }

  /** The annotated form of `DEF main(): T DO END` and the scope chain after it. */
  lemma MainMethodAnalyzed(ty: Types, typeName: string, t: Type)
    requires GetType(typeName) == Some(t)
    ensures var m := Method("main", [], [], Some(typeName), [], None);
      var f := Function("main", "main", [], t);
      AnalyzeMethod(ty, Global(), m) == Analyzed(Ok(m.(func := Some(f))), DefineFunction(Global(), "main", 0, f))
  {
    var f := Function("main", "main", [], t);
    var sc' := DefineFunction(Global(), "main", 0, f);
    assert DefineParameters(Global(), [], [], 0, []) == Analyzed(Ok([]), Global());
    assert AnalyzeStmts(ty, Push(sc'), [], Some(t)).result == Ok([]);
    assert Pop(Push(sc')) == sc';
  }

  /**
   * A source of one empty `main` method passes exactly when Integer accepts its
   * return type: with the leaf types as comparables, `DEF main(): Integer` and
   * `DEF main(): Comparable` pass and `DEF main(): Decimal` is rejected.
   */
  lemma MainReturnTypeChecked(ty: Types, typeName: string, t: Type)
    requires GetType(typeName) == Some(t)
    ensures var r := AnalyzeSource(ty, Global(), Source([], [Method("main", [], [], Some(typeName), [], None)]));
      && (r.result.Ok? <==> Assignable(ty, INTEGER, t))
      && (r.result.Err? ==> r.result.error == Rejected)
  {
    MainMethodAnalyzed(ty, typeName, t);
    var m := Method("main", [], [], Some(typeName), [], None);
    var f := Function("main", "main", [], t);
    var sc' := DefineFunction(Global(), "main", 0, f);
    assert AnalyzeMethods(ty, sc', [m], 1, [m.(func := Some(f))]) == Analyzed(Ok([m.(func := Some(f))]), sc');
    assert AnalyzeMethods(ty, Global(), [m], 0, []) == Analyzed(Ok([m.(func := Some(f))]), sc');
    assert AnalyzeFields(ty, Global(), [], 0, []) == Analyzed(Ok([]), Global());
    assert LookupFunction(DefineFunction(Global(), "main", 0, f), "main", 0) == Some(f);
  }
}
