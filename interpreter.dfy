/**
 * The interpreter as the source writes it: an object holding the current runtime
 * scope chain, whose visit methods evaluate expressions and run statements,
 * replacing the scope when an Access or a Declaration defines a name and when a
 * loop iteration opens and closes its child scope. Each visit is proved to give
 * the outcome and the scope chain that the InterpreterSpec function of the same
 * visit gives.
 */
module Interpreter {
  import opened Common
  import opened Environment
  import opened Ast
  import opened InterpreterSpec

  class Interpreter {
    /** Java's reference comparison of two raw values, which `==` and `!=` use. */
    const same: (Value, Value) -> bool
    var scope: Runtime

    /** A child scope of the parent, in which `print` of arity 1 is defined. */
    constructor (same: (Value, Value) -> bool, parent: Runtime)
      ensures this.same == same
      ensures scope == DefineFunction(Push(parent), "print", 1, Print)
      ensures LookupFunction(scope, "print", 1) == Some(Print)
    {
      this.same := same;
      scope := DefineFunction(Push(parent), "print", 1, Print);
      LookupAfterDefineFunction(Push(parent), "print", 1, Print, "print", 1);
    }

    // ----- expressions -----

    method VisitExpression(e: Expr) returns (r: Result<Value, Failure>)
      requires |scope| > 0
      modifies this
      ensures Evaluated(r, scope) == Eval(same, old(scope), e)
      decreases e, 2, 0
    {
      match e
      case Literal(l, _) =>
        r := Ok(Create(l));
      case Group(x, _) =>
        r := VisitExpression(x);
      case Binary(_, _, _, _) =>
        r := VisitBinary(e);
      case Access(recv, name, _) =>
        if recv.Some? {
          var x := VisitExpression(recv.value);
          if x.Err? {
            r := x;
          } else if !x.value.VString? {
            r := Err(CastError);
          } else {
            r := Ok(VString(x.value.s + "." + name));
          }
        } else {
          scope := DefineVariable(scope, name, NilVariable(name));
          r := Ok(VString(name));
        }
      case FunctionCall(_, _, _, _) =>
        r := Err(Unsupported);
    }

    /** The operator switch. */
    method VisitBinary(e: Expr) returns (r: Result<Value, Failure>)
      requires |scope| > 0 && e.Binary?
      modifies this
      ensures Evaluated(r, scope) == EvalBinary(same, old(scope), e)
      decreases e, 1, 0
    {
      var op := e.op;
      if op in AndOps || op in OrOps {
        r := VisitLogical(e);
      } else if op in ComparisonOps {
        r := VisitComparison(e);
      } else if op in EqualityOps {
        r := VisitEquality(e);
      } else if op in ArithmeticOps {
        r := VisitArithmetic(e, ArithKinds(op), 0);
      } else {
        r := Err(RuntimeError);
      }
    }

    method VisitLogical(e: Expr) returns (r: Result<Value, Failure>)
      requires |scope| > 0 && e.Binary? && (e.op in AndOps || e.op in OrOps)
      modifies this
      ensures Evaluated(r, scope) == EvalLogical(same, old(scope), e)
      decreases e, 0, 0
    {
      var a := VisitExpression(e.left);
      if a.Err? {
        return a;
      }
      var l := RequireType(BooleanKind, a.value);
      if l.Err? {
        return Err(l.error);
      }
      if e.op in OrOps && l.value.b {
        return Ok(VBool(true));
      }
      var b := VisitExpression(e.right);
      if b.Err? {
        return b;
      }
      var rt := RequireType(BooleanKind, b.value);
      if rt.Err? {
        return Err(rt.error);
      }
      if e.op in AndOps {
        r := Ok(VBool(l.value.b && rt.value.b));
      } else {
        r := Ok(VBool(l.value.b || rt.value.b));
      }
    }

    method VisitComparison(e: Expr) returns (r: Result<Value, Failure>)
      requires |scope| > 0 && e.Binary? && e.op in ComparisonOps
      modifies this
      ensures Evaluated(r, scope) == EvalComparison(same, old(scope), e)
      decreases e, 0, 0
    {
      var a := VisitExpression(e.left);
      if a.Err? {
        return a;
      }
      var l := RequireType(ComparableKind, a.value);
      if l.Err? {
        return Err(l.error);
      }
      var b := VisitExpression(e.right);
      if b.Err? {
        return b;
      }
      var rt := RequireType(ClassOf(l.value), b.value);
      if rt.Err? {
        return Err(rt.error);
      }
      r := Ok(VBool(ComparisonHolds(e.op, CompareValues(l.value, rt.value))));
    }

    method VisitEquality(e: Expr) returns (r: Result<Value, Failure>)
      requires |scope| > 0 && e.Binary? && e.op in EqualityOps
      modifies this
      ensures Evaluated(r, scope) == EvalEquality(same, old(scope), e)
      decreases e, 0, 0
    {
      var a := VisitExpression(e.left);
      if a.Err? {
        return a;
      }
      var b := VisitExpression(e.right);
      if b.Err? {
        return b;
      }
      var s := same(a.value, b.value);
      r := Ok(VBool(if e.op == "==" then s else !s));
    }

    /**
     * The `instanceof` chain from test k on: the test visits the left operand, a
     * test that holds visits it again for the cast, and the right operand must be
     * of the same class.
     */
    method VisitArithmetic(e: Expr, kinds: seq<Kind>, k: nat) returns (r: Result<Value, Failure>)
      requires |scope| > 0 && e.Binary? && e.op in ArithmeticOps && kinds == ArithKinds(e.op) && k <= |kinds|
      modifies this
      ensures Evaluated(r, scope) == EvalChain(same, old(scope), e, kinds, k)
      decreases e, 0, |kinds| - k
    {
      if k == |kinds| {
        return Err(RuntimeError);
      }
      var test := VisitExpression(e.left);
      if test.Err? {
        return test;
      }
      if !IsInstance(kinds[k], test.value) {
        r := VisitArithmetic(e, kinds, k + 1);
        return;
      }
      var cast := VisitExpression(e.left);
      if cast.Err? {
        return cast;
      }
      if !IsInstance(kinds[k], cast.value) {
        return Err(CastError);
      }
      var b := VisitExpression(e.right);
      if b.Err? {
        return b;
      }
      var rt := RequireType(kinds[k], b.value);
      if rt.Err? {
        return Err(rt.error);
      }
      assert kinds[k] in kinds;
      r := Arithmetic(e.op, cast.value, rt.value);
    }

    // ----- statements -----

    method VisitStatement(s: Stmt, fuel: nat) returns (r: Signal)
      requires |scope| > 0
      modifies this
      ensures Executed(r, scope) == Exec(same, old(scope), s, fuel)
      decreases fuel, s, 1
    {
      match s
      case Declaration(_, _, _, _) =>
        r := VisitDeclaration(s);
      case While(_, _) =>
        r := VisitWhile(s, fuel);
      case Return(_) =>
        r := VisitReturn(s);
      case _ =>
        r := Thrown(Unsupported);
    }

    method VisitDeclaration(s: Stmt) returns (r: Signal)
      requires |scope| > 0 && s.Declaration?
      modifies this
      ensures Executed(r, scope) == Exec(same, old(scope), s, 0)
    {
      if s.initializer.None? {
        scope := DefineVariable(scope, s.name, NilVariable(s.name));
        return Normal;
      }
      var v := VisitExpression(s.initializer.value);
      if v.Err? {
        return Thrown(v.error);
      }
      scope := DefineVariable(scope, s.name, RtVariable(s.name, false, v.value));
      r := Normal;
    }

    method VisitReturn(s: Stmt) returns (r: Signal)
      requires |scope| > 0 && s.Return?
      modifies this
      ensures Executed(r, scope) == Exec(same, old(scope), s, 0)
    {
      var v := VisitExpression(s.value);
      if v.Err? {
        r := Thrown(v.error);
      } else {
        r := Returning(VObject(v.value));
      }
    }

    /** The statements in order, stopping at the first that does not finish normally. */
    method VisitBlock(ss: seq<Stmt>, fuel: nat) returns (r: Signal)
      requires |scope| > 0
      modifies this
      ensures Executed(r, scope) == ExecBlock(same, old(scope), ss, 0, fuel)
      decreases fuel, ss, |ss| + 1
    {
      var i := 0;
      while i < |ss|
        invariant i <= |ss| && |scope| > 0
        invariant ExecBlock(same, scope, ss, i, fuel) == ExecBlock(same, old(scope), ss, 0, fuel)
        decreases |ss| - i
      {
        var x := VisitStatement(ss[i], fuel);
        if x != Normal {
          return x;
        }
        i := i + 1;
      }
      r := Normal;
    }

    /**
     * While the condition is TRUE: a child scope is opened, the body runs, and the
     * scope is closed again however the body ends. Each iteration takes one unit
     * of fuel.
     */
    method VisitWhile(s: Stmt, fuel: nat) returns (r: Signal)
      requires |scope| > 0 && s.While?
      modifies this
      ensures Executed(r, scope) == ExecWhile(same, old(scope), s, fuel)
      decreases fuel, s, 0
    {
      var f: nat := fuel;
      while f > 0
        invariant f <= fuel && |scope| > 0
        invariant ExecWhile(same, scope, s, f) == ExecWhile(same, old(scope), s, fuel)
        decreases f
      {
        ghost var before := scope;
        var c := VisitExpression(s.condition);
        var cond := if c.Err? then c else RequireType(BooleanKind, c.value);
        if cond.Err? {
          return Thrown(cond.error);
        }
        if !cond.value.b {
          return Normal;
        }
        ghost var checked := scope;
        scope := Push(scope);
        var body := VisitBlock(s.body, f - 1);
        assert Executed(body, scope) == ExecBlock(same, Push(checked), s.body, 0, f - 1);
        scope := Pop(scope);
        assert scope == checked;
        if body != Normal {
          return body;
        }
        assert ExecWhile(same, before, s, f) == ExecWhile(same, scope, s, f - 1);
        f := f - 1;
      }
      r := OutOfFuel;
    }
  }
}
