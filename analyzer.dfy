/**
 * The analyzer as the source writes it: an object holding the current scope chain,
 * whose visit methods walk the tree, replace the scope when they open or close a
 * child scope or define a name, and fill in each node's annotation. Each visit is
 * proved to give the node and the scope chain that the AnalyzerSpec function
 * of the same visit gives.
 */
module Analyzer {
  import opened Common
  import opened Environment
  import opened Ast
  import opened AnalyzerSpec

  /** The function the constructor defines: `print`, one Any argument, Nil result. */
  const Print: Function := Function("print", "System.out.println", [ANY], NIL)

  class Analyzer {
    /** The registered types the analyzer consults (comparables, fields, methods). */
    const types: Types
    var scope: Bindings

    /** A child scope of the parent, in which `print` of arity 1 is defined. */
    constructor (types: Types, parent: Bindings)
      ensures this.types == types
      ensures scope == DefineFunction(Push(parent), "print", 1, Print)
      ensures LookupFunction(scope, "print", 1) == Some(Print)
    {
      this.types := types;
      scope := DefineFunction(Push(parent), "print", 1, Print);
      LookupAfterDefineFunction(Push(parent), "print", 1, Print, "print", 1);
    }

    // ----- expressions: they read the scope chain and do not change it -----

    method VisitExpression(e: Expr) returns (r: Result<Expr, Failure>)
      ensures r == AnalyzeExpr(types, scope, e)
      decreases e, 1
    {
      match e
      case Literal(l, _) =>
        var t := LiteralTyping(l);
        if t.Err? {
          r := Err(t.error);
        } else {
          r := Ok(Literal(l, Some(t.value)));
        }
      case Group(x, _) =>
        if !x.Binary? {
          r := Err(Rejected);
          return;
        }
        var x' := VisitExpression(x);
        if x'.Err? {
          r := x';
          return;
        }
        r := Ok(Group(x'.value, Some(StaticType(x'.value))));
      case Binary(op, left, right, _) =>
        var l' := VisitExpression(left);
        if l'.Err? {
          r := l';
          return;
        }
        var r' := VisitExpression(right);
        if r'.Err? {
          r := r';
          return;
        }
        var t := BinaryTyping(types, op, StaticType(l'.value), StaticType(r'.value));
        if t.Err? {
          r := Err(t.error);
          return;
        }
        r := Ok(Binary(op, l'.value, r'.value, Some(t.value)));
      case Access(_, _, _) =>
        r := VisitAccess(e);
      case FunctionCall(_, _, _, _) =>
        r := VisitFunction(e);
    }

    method VisitAccess(e: Expr) returns (r: Result<Expr, Failure>)
      requires e.Access?
      ensures r == AnalyzeAccess(types, scope, e)
      decreases e, 0
    {
      if e.receiver.Some? {
        var x := VisitExpression(e.receiver.value);
        if x.Err? {
          r := x;
          return;
        }
        var key := (StaticType(x.value), e.name);
        if key in types.fields {
          r := Ok(Access(Some(x.value), e.name, Some(types.fields[key])));
        } else {
          r := Err(Rejected);
        }
      } else {
        var v := LookupVariable(scope, e.name);
        if v.None? {
          r := Err(Rejected);
        } else {
          r := Ok(Access(None, e.name, Some(v.value)));
        }
      }
    }

    /** Resolves the function, then visits each argument and checks it against its parameter type. */
    method VisitFunction(e: Expr) returns (r: Result<Expr, Failure>)
      requires e.FunctionCall?
      ensures r == AnalyzeCall(types, scope, e)
      decreases e, 0
    {
      var recv: Option<Expr> := None;
      if e.receiver.Some? {
        var x := VisitExpression(e.receiver.value);
        if x.Err? {
          r := x;
          return;
        }
        recv := Some(x.value);
      }
      assert AnalyzeOptional(types, scope, e.receiver) == Ok(recv);
      var f := ResolveCall(types, scope, recv, e.name, |e.args|);
      if f.Err? {
        r := Err(f.error);
        return;
      }
      var params := f.value.parameterTypes;
      var args: seq<Expr> := [];
      var i := 0;
      while i < |e.args|
        invariant i <= |e.args| && i <= |params| && |args| == i
        invariant AnalyzeArguments(types, scope, params, e.args, i, args) ==
                  AnalyzeArguments(types, scope, params, e.args, 0, [])
        decreases |e.args| - i
      {
        var a := VisitExpression(e.args[i]);
        if a.Err? {
          r := a;
          return;
        }
        if i == |params| {
          // the parameter type list has no entry i
          r := Err(Unchecked);
          return;
        }
        if !Assignable(types, params[i], StaticType(a.value)) {
          r := Err(Rejected);
          return;
        }
        args := args + [a.value];
        i := i + 1;
      }
      r := Ok(FunctionCall(recv, e.name, args, Some(f.value)));
    }

    method VisitOptional(o: Option<Expr>) returns (r: Result<Option<Expr>, Failure>)
      ensures r == AnalyzeOptional(types, scope, o)
      decreases o, 0
    {
      if o.None? {
        r := Ok(None);
      } else {
        var x := VisitExpression(o.value);
        if x.Err? {
          r := Err(x.error);
        } else {
          r := Ok(Some(x.value));
        }
      }
    }

    // ----- statements -----

    method VisitStatement(s: Stmt) returns (r: Result<Stmt, Failure>)
      requires |scope| > 0
      modifies this
      ensures Analyzed(r, scope) == AnalyzeStmt(types, old(scope), s)
      decreases s, 2
    {
      match s
      case Expression(e) =>
        if !e.FunctionCall? {
          r := Err(Rejected);
          return;
        }
        var e' := VisitExpression(e);
        if e'.Err? {
          r := Err(e'.error);
        } else {
          r := Ok(Expression(e'.value));
        }
      case Declaration(_, _, _, _) =>
        r := VisitDeclaration(s);
      case Assignment(_, _) =>
        r := VisitAssignment(s);
      case If(_, _, _) =>
        r := VisitIf(s);
      case For(_, _, _, _) =>
        r := VisitFor(s);
      case While(_, _) =>
        r := VisitWhile(s);
      case Return(v) =>
        var v' := VisitExpression(v);
        if v'.Err? {
          r := Err(v'.error);
        } else {
          r := Ok(Return(v'.value));
        }
    }

    method VisitDeclaration(s: Stmt) returns (r: Result<Stmt, Failure>)
      requires |scope| > 0 && s.Declaration?
      modifies this
      ensures Analyzed(r, scope) == AnalyzeDeclaration(types, old(scope), s)
      decreases s, 0
    {
      var t: Type;
      var v: Option<Expr>;
      if s.typeName.Some? {
        var init := VisitOptional(s.initializer);
        if init.Err? {
          r := Err(init.error);
          return;
        }
        var declared := GetType(s.typeName.value);
        if declared.None? {
          r := Err(Rejected);
          return;
        }
        t, v := declared.value, init.value;
      } else if s.initializer.Some? {
        var x := VisitExpression(s.initializer.value);
        if x.Err? {
          r := Err(x.error);
          return;
        }
        t, v := StaticType(x.value), Some(x.value);
      } else {
        r := Err(Rejected);
        return;
      }
      var x := Variable(s.name, s.name, t, false);
      scope := DefineVariable(scope, s.name, x);
      r := Ok(s.(initializer := v, variable := Some(x)));
    }

    method VisitAssignment(s: Stmt) returns (r: Result<Stmt, Failure>)
      requires |scope| > 0 && s.Assignment?
      modifies this
      ensures Analyzed(r, scope) == AnalyzeAssignment(types, old(scope), s)
      decreases s, 0
    {
      if !s.receiver.Access? {
        r := Err(Rejected);
        return;
      }
      var recv := VisitAccess(s.receiver);
      if recv.Err? {
        r := Err(recv.error);
        return;
      }
      var v := VisitExpression(s.value);
      if v.Err? {
        r := Err(v.error);
        return;
      }
      if !Assignable(types, StaticType(recv.value), StaticType(v.value)) {
        r := Err(Rejected);
      } else if recv.value.variable.value.constant {
        r := Err(Rejected);
      } else {
        r := Ok(Assignment(recv.value, v.value));
      }
    }

    /** Each branch in its own child scope, which is closed again whether or not the branch fails. */
    method VisitIf(s: Stmt) returns (r: Result<Stmt, Failure>)
      requires |scope| > 0 && s.If?
      modifies this
      ensures Analyzed(r, scope) == AnalyzeIf(types, old(scope), s)
      decreases s, 0
    {
      var c := VisitExpression(s.condition);
      if c.Err? {
        r := Err(c.error);
        return;
      }
      if !Assignable(types, StaticType(c.value), BOOLEAN) || s.thenStmts == [] {
        r := Err(Rejected);
        return;
      }
      scope := Push(scope);
      var th := VisitBlock(s.thenStmts, None);
      scope := Pop(scope);
      if th.Err? {
        r := Err(th.error);
        return;
      }
      scope := Push(scope);
      var el := VisitBlock(s.elseStmts, None);
      scope := Pop(scope);
      if el.Err? {
        r := Err(el.error);
        return;
      }
      r := Ok(If(c.value, th.value, el.value));
    }

    method VisitFor(s: Stmt) returns (r: Result<Stmt, Failure>)
      requires |scope| > 0 && s.For?
      modifies this
      ensures Analyzed(r, scope) == AnalyzeFor(types, old(scope), s)
      decreases s, 1
    {
      var init := VisitOptionalStatement(s.init);
      if init.Err? {
        r := Err(init.error);
        return;
      }
      var incr := VisitOptionalStatement(s.increment);
      if incr.Err? {
        r := Err(incr.error);
        return;
      }
      var header := ForHeaderCheck(types, init.value, incr.value);
      if header.Err? {
        r := Err(header.error);
        return;
      }
      var c := VisitExpression(s.condition);
      if c.Err? {
        r := Err(c.error);
        return;
      }
      if !Assignable(types, StaticType(c.value), BOOLEAN) || s.body == [] {
        r := Err(Rejected);
        return;
      }
      scope := Push(scope);
      var body := VisitBlock(s.body, None);
      scope := Pop(scope);
      if body.Err? {
        r := Err(body.error);
        return;
      }
      r := Ok(For(init.value, c.value, incr.value, body.value));
    }

    method VisitOptionalStatement(o: Option<Stmt>) returns (r: Result<Option<Stmt>, Failure>)
      requires |scope| > 0
      modifies this
      ensures Analyzed(r, scope) == AnalyzeOptionalStmt(types, old(scope), o)
      decreases o, 0
    {
      if o.None? {
        r := Ok(None);
      } else {
        var s' := VisitStatement(o.value);
        if s'.Err? {
          r := Err(s'.error);
        } else {
          r := Ok(Some(s'.value));
        }
      }
    }

    method VisitWhile(s: Stmt) returns (r: Result<Stmt, Failure>)
      requires |scope| > 0 && s.While?
      modifies this
      ensures Analyzed(r, scope) == AnalyzeWhile(types, old(scope), s)
      decreases s, 0
    {
      var c := VisitExpression(s.condition);
      if c.Err? {
        r := Err(c.error);
        return;
      }
      if !Assignable(types, StaticType(c.value), BOOLEAN) {
        r := Err(Rejected);
        return;
      }
      scope := Push(scope);
      var body := VisitBlock(s.body, None);
      scope := Pop(scope);
      if body.Err? {
        r := Err(body.error);
        return;
      }
      r := Ok(While(c.value, body.value));
    }

    /** The statements in order; with `ret`, each return among them must fit that type. */
    method VisitBlock(ss: seq<Stmt>, ret: Option<Type>) returns (r: Result<seq<Stmt>, Failure>)
      requires |scope| > 0
      modifies this
      ensures Analyzed(r, scope) == AnalyzeStmts(types, old(scope), ss, ret)
      decreases ss, |ss| + 1
    {
      var done: seq<Stmt> := [];
      var i := 0;
      while i < |ss|
        invariant i <= |ss| && |scope| > 0
        invariant AnalyzeStmtsFrom(types, scope, ss, ret, i, done) == AnalyzeStmts(types, old(scope), ss, ret)
        decreases |ss| - i
      {
        var s' := VisitStatement(ss[i]);
        if s'.Err? {
          r := Err(s'.error);
          return;
        }
        if !ReturnFits(types, ret, s'.value) {
          r := Err(Rejected);
          return;
        }
        done := done + [s'.value];
        i := i + 1;
      }
      r := Ok(done);
    }

    // ----- fields, methods, source -----

    method VisitField(f: Field) returns (r: Result<Field, Failure>)
      requires |scope| > 0
      modifies this
      ensures Analyzed(r, scope) == AnalyzeField(types, old(scope), f)
    {
      var t := GetType(f.typeName);
      if t.None? {
        r := Err(Rejected);
        return;
      }
      var v := VisitOptional(f.value);
      if v.Err? {
        r := Err(v.error);
        return;
      }
      if v.value.Some? && !Assignable(types, t.value, StaticType(v.value.value)) {
        r := Err(Rejected);
        return;
      }
      if f.constant && v.value.None? {
        r := Err(Rejected);
        return;
      }
      var x := Variable(f.name, f.name, t.value, f.constant);
      scope := DefineVariable(scope, f.name, x);
      r := Ok(f.(value := v.value, variable := Some(x)));
    }

    /** Defines each parameter in the current scope, collecting the parameter types. */
    method DefineParameterList(names: seq<string>, typeNames: seq<string>) returns (r: Result<seq<Type>, Failure>)
      requires |scope| > 0
      modifies this
      ensures Analyzed(r, scope) == DefineParameters(old(scope), names, typeNames, 0, [])
    {
      var collected: seq<Type> := [];
      var i := 0;
      while i < |names|
        invariant i <= |names| && i <= |typeNames| && |collected| == i && |scope| > 0
        invariant DefineParameters(scope, names, typeNames, i, collected) == DefineParameters(old(scope), names, typeNames, 0, [])
        decreases |names| - i
      {
        if i >= |typeNames| {
          // the type name list has no entry i
          r := Err(Unchecked);
          return;
        }
        var t := GetType(typeNames[i]);
        if t.None? {
          r := Err(Rejected);
          return;
        }
        collected := collected + [t.value];
        scope := DefineVariable(scope, names[i], Variable(names[i], names[i], t.value, false));
        i := i + 1;
      }
      r := Ok(collected);
    }

    /**
     * Defines the parameters in the current scope, then the method's function, and
     * visits the body in a child scope that is closed again afterwards.
     */
    method VisitMethod(m: Method) returns (r: Result<Method, Failure>)
      requires |scope| > 0
      modifies this
      ensures Analyzed(r, scope) == AnalyzeMethod(types, old(scope), m)
    {
      var returnType := NIL;
      if m.returnTypeName.Some? {
        var t := GetType(m.returnTypeName.value);
        if t.None? {
          r := Err(Rejected);
          return;
        }
        returnType := t.value;
      }
      var paramTypes := DefineParameterList(m.parameters, m.parameterTypeNames);
      if paramTypes.Err? {
        r := Err(paramTypes.error);
        return;
      }
      var f := Function(m.name, m.name, paramTypes.value, returnType);
      scope := DefineFunction(scope, m.name, |paramTypes.value|, f);
      scope := Push(scope);
      var body := VisitBlock(m.statements, Some(returnType));
      scope := Pop(scope);
      if body.Err? {
        r := Err(body.error);
        return;
      }
      r := Ok(m.(statements := body.value, func := Some(f)));
    }

    method VisitFields(fs: seq<Field>) returns (r: Result<seq<Field>, Failure>)
      requires |scope| > 0
      modifies this
      ensures Analyzed(r, scope) == AnalyzeFields(types, old(scope), fs, 0, [])
    {
      var done: seq<Field> := [];
      var i := 0;
      while i < |fs|
        invariant i <= |fs| && |scope| > 0
        invariant AnalyzeFields(types, scope, fs, i, done) == AnalyzeFields(types, old(scope), fs, 0, [])
        decreases |fs| - i
      {
        var f := VisitField(fs[i]);
        if f.Err? {
          r := Err(f.error);
          return;
        }
        done := done + [f.value];
        i := i + 1;
      }
      r := Ok(done);
    }

    method VisitMethods(ms: seq<Method>) returns (r: Result<seq<Method>, Failure>)
      requires |scope| > 0
      modifies this
      ensures Analyzed(r, scope) == AnalyzeMethods(types, old(scope), ms, 0, [])
    {
      var done: seq<Method> := [];
      var i := 0;
      while i < |ms|
        invariant i <= |ms| && |done| == i && |scope| > 0
        invariant AnalyzeMethods(types, scope, ms, i, done) == AnalyzeMethods(types, old(scope), ms, 0, [])
        decreases |ms| - i
      {
        var m := VisitMethod(ms[i]);
        if m.Err? {
          r := Err(m.error);
          return;
        }
        done := done + [m.value];
        i := i + 1;
      }
      r := Ok(done);
    }

    /** All fields, then all methods, then the check of `main`. */
    method VisitSource(src: Source) returns (r: Result<Source, Failure>)
      requires |scope| > 0
      modifies this
      ensures Analyzed(r, scope) == AnalyzeSource(types, old(scope), src)
    {
      var fields := VisitFields(src.fields);
      if fields.Err? {
        r := Err(fields.error);
        return;
      }
      var methods := VisitMethods(src.methods);
      if methods.Err? {
        r := Err(methods.error);
        return;
      }
      var main := LookupFunction(scope, "main", 0);
      if main.None? || !Assignable(types, INTEGER, main.value.returnType) {
        r := Err(Rejected);
        return;
      }
      r := Ok(Source(fields.value, methods.value));
    }
  }
}
