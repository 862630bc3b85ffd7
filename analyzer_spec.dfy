/**
 * The analyzer's rules as functions: the assignability relation, the literal and
 * binary-operator typing, and one function per visit that takes the scope chain
 * before the visit and gives the annotated node (or the failure) together with the
 * scope chain after it. The imperative Analyzer class is proved to compute these.
 */
module AnalyzerSpec {
  import opened Common
  import opened Environment
  import opened Ast
  import N = Numbers

  /** The analyzer's scope chain: variables and functions as the analyzer records them. */
  type Bindings = Scope<Variable, Function>

  /**
   * What the analyzer reads from the registered types besides their names: the
   * types whose scope's parent is Comparable's scope, and the fields and methods
   * (by name and arity) each type's scope holds.
   */
  datatype Types = Types(comparables: set<Type>, fields: map<(Type, string), Variable>,
                         methods: map<(Type, string, nat), Function>)

  /** A semantic error the analyzer throws, or a host exception (null pointer, failed cast, bad index). */
  datatype Failure = Rejected | Unchecked

  /** A visit's outcome and the scope chain it leaves behind, whether it succeeded or threw. */
  datatype Analyzed<T> = Analyzed(result: Result<T, Failure>, scope: Bindings)

  /** `requireAssignable(target, type)`: the cases in which it returns normally. */
  predicate Assignable(ty: Types, target: Type, t: Type) {
    if target == t then true
    else if target == ANY then true
    else if t == COMPARABLE then target in ty.comparables
    else if target == COMPARABLE then t in ty.comparables
    else false
  }

  function Require(b: bool): (r: Result<(), Failure>)
    ensures r.Ok? <==> b
  {
    if b then Ok(()) else Err(Rejected)
  }

  /** `Integer.MAX_VALUE`. */
  const IntegerMax: int := 0x7fff_ffff

  /** The digits of `BigDecimal.valueOf(Double.MAX_VALUE)`, which is 17976931348623157 * 10^292. */
  const DoubleMaxDigits: nat := 17976931348623157

  /** `d.compareTo(BigDecimal.valueOf(Double.MAX_VALUE)) < 1`. */
  predicate WithinDoubleMax(d: N.Decimal) {
    N.Value(d) <= (DoubleMaxDigits * N.Pow10(292)) as real
  }

  /**
   * The type a literal is given: its kind's type, except that an integer above
   * Integer.MAX_VALUE or a decimal above Double.MAX_VALUE is rejected. Only the
   * upper bound is checked.
   */
  function LiteralTyping(l: LiteralValue): (r: Result<Type, Failure>)
    ensures r.Ok? ==> r.value == LiteralType(l)
    ensures r.Err? <==> (l.IntLit? && l.i > IntegerMax) || (l.DecLit? && !WithinDoubleMax(l.d))
    ensures r.Err? ==> r.error == Rejected
  {
    match l
    case IntLit(i) => if i <= IntegerMax then Ok(INTEGER) else Err(Rejected)
    case DecLit(d) => if WithinDoubleMax(d) then Ok(DECIMAL) else Err(Rejected)
    case _ => Ok(LiteralType(l))
  }

  const LogicalOps: set<string> := {"AND", "OR"}
  const ComparisonOps: set<string> := {"<", "<=", ">", ">=", "==", "!="}
  const ArithmeticOps: set<string> := {"-", "*", "/"}

  /**
   * The type of a binary node from its operator and its operands' types. Note the
   * argument order the source uses: the operand's type is the assignability TARGET.
   */
  function BinaryTyping(ty: Types, op: string, lt: Type, rt: Type): (r: Result<Type, Failure>)
    ensures r.Ok? && (op in LogicalOps || op in ComparisonOps) ==> r.value == BOOLEAN
    ensures r.Ok? && op == "+" && (lt == STRING || rt == STRING) ==> r.value == STRING
    ensures r.Ok? && (op == "+" || op in ArithmeticOps) && lt != STRING && rt != STRING ==>
      r.value == lt && (lt == INTEGER || lt == DECIMAL)
    ensures r.Ok? ==> op in LogicalOps || op in ComparisonOps || op == "+" || op in ArithmeticOps
  {
    if op in LogicalOps then
      var _ :- Require(Assignable(ty, lt, BOOLEAN));
      var _ :- Require(Assignable(ty, rt, BOOLEAN));
      Ok(BOOLEAN)
    else if op in ComparisonOps then
      var _ :- Require(Assignable(ty, lt, COMPARABLE));
      var _ :- Require(Assignable(ty, rt, COMPARABLE));
      Ok(BOOLEAN)
    else if op == "+" && (lt == STRING || rt == STRING) then
      Ok(STRING)
    else if op == "+" || op in ArithmeticOps then
      if lt == INTEGER || lt == DECIMAL then
        var _ :- Require(Assignable(ty, rt, lt));
        Ok(lt)
      else Err(Rejected)
    else Err(Rejected)
  }

  // ----- expressions -----

  function AnalyzeExpr(ty: Types, sc: Bindings, e: Expr): (r: Result<Expr, Failure>)
    ensures r.Ok? ==> AnnotatedExpr(r.value) && StripExpr(r.value) == StripExpr(e)
    decreases e, 1
  {
    match e
    case Literal(l, _) =>
      var t :- LiteralTyping(l);
      Ok(Literal(l, Some(t)))
    case Group(x, _) =>
      if !x.Binary? then Err(Rejected)
      else
        var x' :- AnalyzeExpr(ty, sc, x);
        Ok(Group(x', Some(StaticType(x'))))
    case Binary(op, l, rt, _) =>
      var l' :- AnalyzeExpr(ty, sc, l);
      var r' :- AnalyzeExpr(ty, sc, rt);
      var t :- BinaryTyping(ty, op, StaticType(l'), StaticType(r'));
      Ok(Binary(op, l', r', Some(t)))
    case Access(_, _, _) =>
      AnalyzeAccess(ty, sc, e)
    case FunctionCall(_, _, _, _) =>
      AnalyzeCall(ty, sc, e)
  }

  /** A field of the receiver's type, or a variable of the scope chain. */
  function AnalyzeAccess(ty: Types, sc: Bindings, e: Expr): (r: Result<Expr, Failure>)
    requires e.Access?
    ensures r.Ok? ==> AnnotatedExpr(r.value) && StripExpr(r.value) == StripExpr(e)
    ensures r.Ok? && e.receiver.None? ==> r.value.Access? && r.value.variable == LookupVariable(sc, e.name)
    ensures e.receiver.None? ==> (r.Ok? <==> LookupVariable(sc, e.name).Some?)
    ensures r.Ok? && e.receiver.Some? ==>
      && r.value.Access? && r.value.receiver.Some?
      && var key := (StaticType(r.value.receiver.value), e.name);
         key in ty.fields && r.value.variable == Some(ty.fields[key])
    decreases e, 0
  {
    var recv, name := e.receiver, e.name;
    if recv.Some? then
      var x :- AnalyzeExpr(ty, sc, recv.value);
      var key := (StaticType(x), name);
      if key in ty.fields then Ok(Access(Some(x), name, Some(ty.fields[key]))) else Err(Rejected)
    else
      match LookupVariable(sc, name)
      case None => Err(Rejected)
      case Some(v) => Ok(Access(None, name, Some(v)))
  }

  /**
   * A method of the receiver's type or a function of the scope chain, found by name
   * and argument count; then every argument is checked against its parameter type.
   */
  function AnalyzeCall(ty: Types, sc: Bindings, e: Expr): (r: Result<Expr, Failure>)
    requires e.FunctionCall?
    ensures r.Ok? ==> AnnotatedExpr(r.value) && StripExpr(r.value) == StripExpr(e)
    ensures r.Ok? ==> r.value.FunctionCall? && |r.value.args| == |e.args|
    ensures r.Ok? && e.receiver.None? ==> r.value.func == LookupFunction(sc, e.name, |e.args|)
    ensures r.Ok? ==> forall j :: 0 <= j < |e.args| ==>
      Assignable(ty, r.value.func.value.parameterTypes[j], StaticType(r.value.args[j]))
    decreases e, 0
  {
    var recv' :- AnalyzeOptional(ty, sc, e.receiver);
    var f :- ResolveCall(ty, sc, recv', e.name, |e.args|);
    match AnalyzeArguments(ty, sc, f.parameterTypes, e.args, 0, [])
    case Err(x) => Err(x)
    case Ok(args') =>
      assert StripExprs(args') == StripExprs(e.args);
      Ok(FunctionCall(recv', e.name, args', Some(f)))
  }

  function AnalyzeOptional(ty: Types, sc: Bindings, recv: Option<Expr>): (r: Result<Option<Expr>, Failure>)
    ensures r.Ok? ==> r.value.Some? == recv.Some?
    ensures r.Ok? && recv.Some? ==> AnnotatedExpr(r.value.value) && StripExpr(r.value.value) == StripExpr(recv.value)
    decreases recv, 0
  {
    if recv.None? then Ok(None)
    else
      var x :- AnalyzeExpr(ty, sc, recv.value);
      Ok(Some(x))
  }

  /** The function a call resolves to: by the receiver's type, or through the scope chain. */
  function ResolveCall(ty: Types, sc: Bindings, recv: Option<Expr>, name: string, arity: nat)
    : (r: Result<Function, Failure>)
    requires recv.Some? ==> AnnotatedExpr(recv.value)
    ensures recv.None? ==> (r.Ok? <==> LookupFunction(sc, name, arity).Some?)
    ensures recv.None? && r.Ok? ==> r.value == LookupFunction(sc, name, arity).value
  {
    if recv.Some? then
      var key := (StaticType(recv.value), name, arity);
      if key in ty.methods then Ok(ty.methods[key]) else Err(Rejected)
    else
      match LookupFunction(sc, name, arity)
      case None => Err(Rejected)
      case Some(f) => Ok(f)
  }

  /**
   * The argument loop from position k, `done` holding the arguments already
   * analyzed: visit argument k, then `requireAssignable(paramType_k, argType_k)`;
   * a missing parameter type is an index error.
   */
  function AnalyzeArguments(ty: Types, sc: Bindings, params: seq<Type>, args: seq<Expr>, k: nat, done: seq<Expr>)
    : (r: Result<seq<Expr>, Failure>)
    requires k <= |args| && k <= |params| && |done| == k
    ensures r.Ok? ==> |r.value| == |args| && r.value[..k] == done && |params| >= |args|
    ensures r.Ok? ==> forall j :: k <= j < |args| ==>
      && AnnotatedExpr(r.value[j]) && StripExpr(r.value[j]) == StripExpr(args[j])
      && Assignable(ty, params[j], StaticType(r.value[j]))
    decreases args, |args| - k
  {
    if k == |args| then Ok(done)
    else
      var a :- AnalyzeExpr(ty, sc, args[k]);
      if k == |params| then Err(Unchecked)
      else if !Assignable(ty, params[k], StaticType(a)) then Err(Rejected)
      else
        var r := AnalyzeArguments(ty, sc, params, args, k + 1, done + [a]);
        if r.Ok? then
          assert r.value[..k] == r.value[..k + 1][..k];
          assert r.value[k] == r.value[..k + 1][k];
          r
        else r
  }

  // ----- statements -----

  /**
   * Whether visiting the statement can define a name in the frame current when it
   * starts: a declaration, or a For whose initialization or increment is one.
   */
  predicate BindsInPlace(s: Stmt) {
    match s
    case Declaration(_, _, _, _) => true
    case For(init, _, incr, _) => (init.Some? && BindsInPlace(init.value)) || (incr.Some? && BindsInPlace(incr.value))
    case _ => false
  }

  function AnalyzeStmt(ty: Types, sc: Bindings, s: Stmt): (r: Analyzed<Stmt>)
    requires |sc| > 0
    ensures r.result.Ok? ==> AnnotatedStmt(r.result.value) && StripStmt(r.result.value) == StripStmt(s)
    ensures KeepsOuterFrames(sc, r.scope)
    ensures !BindsInPlace(s) ==> r.scope == sc
    decreases s, 2
  {
    match s
    case Expression(e) =>
      if !e.FunctionCall? then Analyzed(Err(Rejected), sc)
      else (
        match AnalyzeExpr(ty, sc, e)
        case Err(x) => Analyzed(Err(x), sc)
        case Ok(e') => Analyzed(Ok(Expression(e')), sc))
    case Declaration(_, _, _, _) => AnalyzeDeclaration(ty, sc, s)
    case Assignment(_, _) => AnalyzeAssignment(ty, sc, s)
    case If(_, _, _) => AnalyzeIf(ty, sc, s)
    case For(_, _, _, _) => AnalyzeFor(ty, sc, s)
    case While(_, _) => AnalyzeWhile(ty, sc, s)
    case Return(v) =>
      match AnalyzeExpr(ty, sc, v)
      case Err(x) => Analyzed(Err(x), sc)
      case Ok(v') => Analyzed(Ok(Return(v')), sc)
  }

  /**
   * A declaration takes its declared type, or else its initializer's type; with
   * neither it is rejected. The initializer is analyzed before the name is defined
   * and, when a type is declared, is not checked against it.
   */
  function AnalyzeDeclaration(ty: Types, sc: Bindings, s: Stmt): (r: Analyzed<Stmt>)
    requires |sc| > 0 && s.Declaration?
    ensures r.result.Ok? ==> AnnotatedStmt(r.result.value) && StripStmt(r.result.value) == StripStmt(s)
    ensures r.result.Err? ==> r.scope == sc
    ensures r.result.Ok? ==> r.result.value.Declaration? && r.result.value.variable.Some?
    ensures r.result.Ok? ==> var x := r.result.value.variable.value;
      && x == Variable(s.name, s.name, x.typ, false)
      && r.scope == DefineVariable(sc, s.name, x)
      && (s.typeName.Some? ==> GetType(s.typeName.value) == Some(x.typ))
      && (s.typeName.None? ==> s.initializer.Some? && x.typ == StaticType(r.result.value.initializer.value))
    decreases s, 0
  {
    if s.typeName.Some? then
      match AnalyzeOptional(ty, sc, s.initializer)
      case Err(x) => Analyzed(Err(x), sc)
      case Ok(v) =>
        match GetType(s.typeName.value)
        case None => Analyzed(Err(Rejected), sc)
        case Some(t) =>
          var x := Variable(s.name, s.name, t, false);
          Analyzed(Ok(s.(initializer := v, variable := Some(x))), DefineVariable(sc, s.name, x))
    else if s.initializer.Some? then
      match AnalyzeExpr(ty, sc, s.initializer.value)
      case Err(x) => Analyzed(Err(x), sc)
      case Ok(v) =>
        // getType(value.getType().getName()) gives back the value's own type
        var x := Variable(s.name, s.name, StaticType(v), false);
        Analyzed(Ok(s.(initializer := Some(v), variable := Some(x))), DefineVariable(sc, s.name, x))
    else Analyzed(Err(Rejected), sc)
  }

  /** An assignment needs an access receiver whose variable is not constant and takes the value's type. */
  function AnalyzeAssignment(ty: Types, sc: Bindings, s: Stmt): (r: Analyzed<Stmt>)
    requires |sc| > 0 && s.Assignment?
    ensures r.result.Ok? ==> AnnotatedStmt(r.result.value) && StripStmt(r.result.value) == StripStmt(s)
    ensures r.scope == sc
    ensures r.result.Ok? ==> var a := r.result.value;
      && a.Assignment? && s.receiver.Access? && a.receiver.Access?
      && !a.receiver.variable.value.constant
      && Assignable(ty, a.receiver.variable.value.typ, StaticType(a.value))
    decreases s, 0
  {
    if !s.receiver.Access? then Analyzed(Err(Rejected), sc)
    else
      match AnalyzeAccess(ty, sc, s.receiver)
      case Err(x) => Analyzed(Err(x), sc)
      case Ok(recv) =>
        match AnalyzeExpr(ty, sc, s.value)
        case Err(x) => Analyzed(Err(x), sc)
        case Ok(v) =>
          if !Assignable(ty, StaticType(recv), StaticType(v)) then Analyzed(Err(Rejected), sc)
          else if recv.variable.value.constant then Analyzed(Err(Rejected), sc)
          else Analyzed(Ok(Assignment(recv, v)), sc)
  }

  /** The condition must pass `requireAssignable(conditionType, BOOLEAN)` and the then-branch be non-empty. */
  function AnalyzeIf(ty: Types, sc: Bindings, s: Stmt): (r: Analyzed<Stmt>)
    requires |sc| > 0 && s.If?
    ensures r.result.Ok? ==> AnnotatedStmt(r.result.value) && StripStmt(r.result.value) == StripStmt(s)
    ensures r.scope == sc
    ensures r.result.Ok? ==> |s.thenStmts| > 0 && Assignable(ty, StaticType(r.result.value.condition), BOOLEAN)
    decreases s, 0
  {
    match AnalyzeExpr(ty, sc, s.condition)
    case Err(x) => Analyzed(Err(x), sc)
    case Ok(c) =>
      if !Assignable(ty, StaticType(c), BOOLEAN) || s.thenStmts == [] then Analyzed(Err(Rejected), sc)
      else
        var t := AnalyzeStmts(ty, Push(sc), s.thenStmts, None);
        match t.result
        case Err(x) => Analyzed(Err(x), Pop(t.scope))
        case Ok(th) =>
          var e := AnalyzeStmts(ty, Push(Pop(t.scope)), s.elseStmts, None);
          match e.result
          case Err(x) => Analyzed(Err(x), Pop(e.scope))
          case Ok(el) => Analyzed(Ok(If(c, th, el)), Pop(e.scope))
  }

  /**
   * The initialization and increment are analyzed in the current frame; when the
   * initialization is an assignment its receiver must be a Comparable subtype and
   * the increment must be an assignment to a receiver of that type. Then the
   * condition, and a non-empty body in a child frame.
   */
  function AnalyzeFor(ty: Types, sc: Bindings, s: Stmt): (r: Analyzed<Stmt>)
    requires |sc| > 0 && s.For?
    ensures r.result.Ok? ==> AnnotatedStmt(r.result.value) && StripStmt(r.result.value) == StripStmt(s)
    ensures KeepsOuterFrames(sc, r.scope)
    ensures !BindsInPlace(s) ==> r.scope == sc
    ensures r.result.Ok? ==> |s.body| > 0 && Assignable(ty, StaticType(r.result.value.condition), BOOLEAN)
    decreases s, 1
  {
    var i := AnalyzeOptionalStmt(ty, sc, s.init);
    match i.result
    case Err(x) => Analyzed(Err(x), i.scope)
    case Ok(init) =>
      var n := AnalyzeOptionalStmt(ty, i.scope, s.increment);
      match n.result
      case Err(x) => Analyzed(Err(x), n.scope)
      case Ok(incr) =>
        match ForHeaderCheck(ty, init, incr)
        case Err(x) => Analyzed(Err(x), n.scope)
        case Ok(_) => AnalyzeForBody(ty, n.scope, s, init, incr)
  }

  /** The rest of a For once its header is analyzed: the condition, then a non-empty body in a child frame. */
  function AnalyzeForBody(ty: Types, sc: Bindings, s: Stmt, init: Option<Stmt>, incr: Option<Stmt>): (r: Analyzed<Stmt>)
    requires |sc| > 0 && s.For?
    requires init.Some? == s.init.Some? && incr.Some? == s.increment.Some?
    requires init.Some? ==> AnnotatedStmt(init.value) && StripStmt(init.value) == StripStmt(s.init.value)
    requires incr.Some? ==> AnnotatedStmt(incr.value) && StripStmt(incr.value) == StripStmt(s.increment.value)
    ensures r.result.Ok? ==> AnnotatedStmt(r.result.value) && StripStmt(r.result.value) == StripStmt(s)
    ensures r.scope == sc
    ensures r.result.Ok? ==> r.result.value.For? && |s.body| > 0 && Assignable(ty, StaticType(r.result.value.condition), BOOLEAN)
    decreases s, 0
  {
    match AnalyzeExpr(ty, sc, s.condition)
    case Err(x) => Analyzed(Err(x), sc)
    case Ok(c) =>
      if !Assignable(ty, StaticType(c), BOOLEAN) || s.body == [] then Analyzed(Err(Rejected), sc)
      else
        var b := AnalyzeStmts(ty, Push(sc), s.body, None);
        match b.result
        case Err(x) => Analyzed(Err(x), Pop(b.scope))
        case Ok(body) => Analyzed(Ok(For(init, c, incr, body)), Pop(b.scope))
  }

  /** The loop-variable check of a For: applies only when the initialization is an assignment. */
  function ForHeaderCheck(ty: Types, init: Option<Stmt>, incr: Option<Stmt>): (r: Result<(), Failure>)
    requires init.Some? ==> AnnotatedStmt(init.value)
    requires incr.Some? ==> AnnotatedStmt(incr.value)
    ensures r.Ok? && init.Some? && init.value.Assignment? ==>
      var t := StaticType(init.value.receiver);
      && Assignable(ty, t, COMPARABLE)
      && incr.Some? && incr.value.Assignment? && Assignable(ty, StaticType(incr.value.receiver), t)
  {
    if init.Some? && init.value.Assignment? then
      var t := StaticType(init.value.receiver);
      var _ :- Require(Assignable(ty, t, COMPARABLE));
      // the increment is cast to an assignment: absent or of another kind, the cast throws
      if incr.None? || !incr.value.Assignment? then Err(Unchecked)
      else Require(Assignable(ty, StaticType(incr.value.receiver), t))
    else Ok(())
  }

  function AnalyzeOptionalStmt(ty: Types, sc: Bindings, o: Option<Stmt>): (r: Analyzed<Option<Stmt>>)
    requires |sc| > 0
    ensures KeepsOuterFrames(sc, r.scope)
    ensures (o.None? || !BindsInPlace(o.value)) ==> r.scope == sc
    ensures r.result.Ok? ==> r.result.value.Some? == o.Some?
    ensures r.result.Ok? && o.Some? ==>
      AnnotatedStmt(r.result.value.value) && StripStmt(r.result.value.value) == StripStmt(o.value)
    decreases o, 0
  {
    if o.None? then Analyzed(Ok(None), sc)
    else
      var a := AnalyzeStmt(ty, sc, o.value);
      match a.result
      case Err(x) => Analyzed(Err(x), a.scope)
      case Ok(s') => Analyzed(Ok(Some(s')), a.scope)
  }

  /** The condition, then the body in a child frame; an empty body is accepted. */
  function AnalyzeWhile(ty: Types, sc: Bindings, s: Stmt): (r: Analyzed<Stmt>)
    requires |sc| > 0 && s.While?
    ensures r.scope == sc
    ensures r.result.Ok? ==> AnnotatedStmt(r.result.value) && StripStmt(r.result.value) == StripStmt(s)
    ensures r.result.Ok? ==> r.result.value.While? && Assignable(ty, StaticType(r.result.value.condition), BOOLEAN)
    decreases s, 0
  {
    match AnalyzeExpr(ty, sc, s.condition)
    case Err(x) => Analyzed(Err(x), sc)
    case Ok(c) =>
      if !Assignable(ty, StaticType(c), BOOLEAN) then Analyzed(Err(Rejected), sc)
      else
        var b := AnalyzeStmts(ty, Push(sc), s.body, None);
        match b.result
        case Err(x) => Analyzed(Err(x), Pop(b.scope))
        case Ok(body) => Analyzed(Ok(While(c, body)), Pop(b.scope))
  }

  /** Whether a statement is a return whose value's type passes `requireAssignable(ret, ·)`. */
  predicate ReturnFits(ty: Types, ret: Option<Type>, s: Stmt)
    requires AnnotatedStmt(s)
  {
    ret.None? || !s.Return? || Assignable(ty, ret.value, StaticType(s.value))
  }

  /** A statement list in order; `ret`, for a method body, is the type each return directly in it must fit. */
  function AnalyzeStmts(ty: Types, sc: Bindings, ss: seq<Stmt>, ret: Option<Type>): (r: Analyzed<seq<Stmt>>)
    requires |sc| > 0
    ensures KeepsOuterFrames(sc, r.scope)
    ensures r.result.Ok? ==> AnnotatedStmts(r.result.value) && StripStmts(r.result.value) == StripStmts(ss)
    ensures r.result.Ok? ==> forall j :: 0 <= j < |r.result.value| ==> ReturnFits(ty, ret, r.result.value[j])
    decreases ss, |ss| + 1
  {
    var r := AnalyzeStmtsFrom(ty, sc, ss, ret, 0, []);
    if r.result.Ok? then
      assert forall j :: 0 <= j < |ss| ==> StripStmts(r.result.value)[j] == StripStmts(ss)[j];
      r
    else r
  }

  /** The loop over a statement list from position k, `done` holding the statements already analyzed. */
  function AnalyzeStmtsFrom(ty: Types, sc: Bindings, ss: seq<Stmt>, ret: Option<Type>, k: nat, done: seq<Stmt>)
    : (r: Analyzed<seq<Stmt>>)
    requires |sc| > 0 && k <= |ss|
    ensures KeepsOuterFrames(sc, r.scope)
    ensures r.result.Ok? ==> |r.result.value| == |done| + |ss| - k && r.result.value[..|done|] == done
    ensures r.result.Ok? ==> forall j :: |done| <= j < |r.result.value| ==>
      && AnnotatedStmt(r.result.value[j]) && StripStmt(r.result.value[j]) == StripStmt(ss[j - |done| + k])
      && ReturnFits(ty, ret, r.result.value[j])
    decreases ss, |ss| - k
  {
    if k == |ss| then Analyzed(Ok(done), sc)
    else
      var a := AnalyzeStmt(ty, sc, ss[k]);
      match a.result
      case Err(x) => Analyzed(Err(x), a.scope)
      case Ok(s') =>
        if !ReturnFits(ty, ret, s') then Analyzed(Err(Rejected), a.scope)
        else
          var r := AnalyzeStmtsFrom(ty, a.scope, ss, ret, k + 1, done + [s']);
          if r.result.Ok? then
            assert r.result.value[..|done|] == r.result.value[..|done| + 1][..|done|];
            r
          else r
  }

  // ----- fields, methods, source -----

  /**
   * A field's declared type must exist; its initializer, analyzed before the name is
   * defined, must fit that type; a constant field needs an initializer.
   */
  function AnalyzeField(ty: Types, sc: Bindings, f: Field): (r: Analyzed<Field>)
    requires |sc| > 0
    ensures r.result.Err? ==> r.scope == sc
    ensures r.result.Ok? ==> AnnotatedField(r.result.value) && StripField(r.result.value) == StripField(f)
    ensures r.result.Ok? ==> var x := r.result.value.variable.value;
      && GetType(f.typeName) == Some(x.typ)
      && x == Variable(f.name, f.name, x.typ, f.constant)
      && r.scope == DefineVariable(sc, f.name, x)
      && (f.constant ==> f.value.Some?)
      && (f.value.Some? ==> Assignable(ty, x.typ, StaticType(r.result.value.value.value)))
  {
    match GetType(f.typeName)
    case None => Analyzed(Err(Rejected), sc)
    case Some(t) =>
      match AnalyzeOptional(ty, sc, f.value)
      case Err(x) => Analyzed(Err(x), sc)
      case Ok(v) =>
        if v.Some? && !Assignable(ty, t, StaticType(v.value)) then Analyzed(Err(Rejected), sc)
        else if f.constant && v.None? then Analyzed(Err(Rejected), sc)
        else
          var x := Variable(f.name, f.name, t, f.constant);
          Analyzed(Ok(f.(value := v, variable := Some(x))), DefineVariable(sc, f.name, x))
  }

  /** Defines every parameter from position k in the current frame, collecting the parameter types. */
  function DefineParameters(sc: Bindings, names: seq<string>, typeNames: seq<string>, k: nat, done: seq<Type>)
    : (r: Analyzed<seq<Type>>)
    requires |sc| > 0 && k <= |names| && k <= |typeNames| && |done| == k
    ensures KeepsOuterFrames(sc, r.scope)
    ensures r.result.Ok? ==> |r.result.value| == |names| && r.result.value[..k] == done
    ensures r.result.Ok? ==> |names| <= |typeNames|
    ensures r.result.Ok? ==> forall j :: k <= j < |names| ==> GetType(typeNames[j]) == Some(r.result.value[j])
    decreases |names| - k
  {
    if k == |names| then Analyzed(Ok(done), sc)
    // the type names are read by the parameters' positions
    else if k >= |typeNames| then Analyzed(Err(Unchecked), sc)
    else
      match GetType(typeNames[k])
      case None => Analyzed(Err(Rejected), sc)
      case Some(t) =>
        var x := Variable(names[k], names[k], t, false);
        var sc' := DefineVariable(sc, names[k], x);
        var r := DefineParameters(sc', names, typeNames, k + 1, done + [t]);
        if r.result.Ok? then
          var v := r.result.value;
          assert v[..k] == v[..k + 1][..k];
          assert v[k] == v[..k + 1][k] == t;
          r
        else r
  }

  /** m' is m with every annotation slot filled in. */
  predicate AnalyzedFrom(m': Method, m: Method) {
    AnnotatedMethod(m') && StripMethod(m') == StripMethod(m)
  }

  /** What a successful method analysis establishes about the method m' it returns and the scope sc after it. */
  predicate MethodChecked(ty: Types, m: Method, m': Method, sc: Bindings)
    requires AnalyzedFrom(m', m)
  {
    var f := m'.func.value;
      && f.name == m.name && f.jvmName == m.name
      && (m.returnTypeName.Some? ==> GetType(m.returnTypeName.value) == Some(f.returnType))
      && (m.returnTypeName.None? ==> f.returnType == NIL)
      && LookupFunction(sc, m.name, |m.parameters|) == Some(f)
      && forall j :: 0 <= j < |m'.statements| ==> ReturnFits(ty, Some(f.returnType), m'.statements[j])
  }

  /**
   * A method's return type (Nil when absent) and parameter types must exist. The
   * parameters are defined in the enclosing frame, the function under its name and
   * arity, and the body is analyzed in a child frame, each return directly in it
   * fitting the return type.
   */
  function AnalyzeMethod(ty: Types, sc: Bindings, m: Method): (r: Analyzed<Method>)
    requires |sc| > 0
    ensures KeepsOuterFrames(sc, r.scope)
    ensures r.result.Ok? ==> AnalyzedFrom(r.result.value, m)
    ensures r.result.Ok? ==> MethodChecked(ty, m, r.result.value, r.scope)
  {
    var rt := if m.returnTypeName.Some? then GetType(m.returnTypeName.value) else Some(NIL);
    if rt.None? then Analyzed(Err(Rejected), sc)
    else
      var p := DefineParameters(sc, m.parameters, m.parameterTypeNames, 0, []);
      match p.result
      case Err(x) => Analyzed(Err(x), p.scope)
      case Ok(pts) =>
        var f := Function(m.name, m.name, pts, rt.value);
        var sc' := DefineFunction(p.scope, m.name, |pts|, f);
        LookupAfterDefineFunction(p.scope, m.name, |pts|, f, m.name, |pts|);
        var b := AnalyzeStmts(ty, Push(sc'), m.statements, Some(rt.value));
        match b.result
        case Err(x) => Analyzed(Err(x), Pop(b.scope))
        case Ok(body) => Analyzed(Ok(m.(statements := body, func := Some(f))), Pop(b.scope))
  }

  function AnalyzeFields(ty: Types, sc: Bindings, fs: seq<Field>, k: nat, done: seq<Field>): (r: Analyzed<seq<Field>>)
    requires |sc| > 0 && k <= |fs|
    ensures KeepsOuterFrames(sc, r.scope)
    ensures r.result.Ok? ==> |r.result.value| == |done| + |fs| - k && r.result.value[..|done|] == done
    ensures r.result.Ok? ==> forall j :: |done| <= j < |r.result.value| ==>
      AnnotatedField(r.result.value[j]) && StripField(r.result.value[j]) == StripField(fs[j - |done| + k])
    decreases |fs| - k
  {
    if k == |fs| then Analyzed(Ok(done), sc)
    else
      var a := AnalyzeField(ty, sc, fs[k]);
      match a.result
      case Err(x) => Analyzed(Err(x), a.scope)
      case Ok(f) =>
        var r := AnalyzeFields(ty, a.scope, fs, k + 1, done + [f]);
        if r.result.Ok? then
          assert r.result.value[..|done|] == r.result.value[..|done| + 1][..|done|];
          r
        else r
  }

  function AnalyzeMethods(ty: Types, sc: Bindings, ms: seq<Method>, k: nat, done: seq<Method>): (r: Analyzed<seq<Method>>)
    requires |sc| > 0 && k <= |ms| && |done| == k
    ensures KeepsOuterFrames(sc, r.scope)
    ensures r.result.Ok? ==> |r.result.value| == |ms| && r.result.value[..k] == done
    decreases |ms| - k
  {
    if k == |ms| then Analyzed(Ok(done), sc)
    else
      var a := AnalyzeMethod(ty, sc, ms[k]);
      match a.result
      case Err(x) => Analyzed(Err(x), a.scope)
      case Ok(m) =>
        var r := AnalyzeMethods(ty, a.scope, ms, k + 1, done + [m]);
        if r.result.Ok? then
          assert r.result.value[..k] == r.result.value[..k + 1][..k];
          r
        else r
  }

  /** Every method the loop returns is the input method with its annotation slots filled in. */
  lemma {:induction false} MethodsAnalyzedFrom(ty: Types, sc: Bindings, ms: seq<Method>, k: nat, done: seq<Method>)
    requires |sc| > 0 && k <= |ms| && |done| == k
    ensures var r := AnalyzeMethods(ty, sc, ms, k, done);
      r.result.Ok? ==> forall j :: k <= j < |ms| ==> AnalyzedFrom(r.result.value[j], ms[j])
    decreases |ms| - k
  {
    if k < |ms| {
      var a := AnalyzeMethod(ty, sc, ms[k]);
      if a.result.Ok? {
        var m := a.result.value;
        MethodsAnalyzedFrom(ty, a.scope, ms, k + 1, done + [m]);
        var r := AnalyzeMethods(ty, a.scope, ms, k + 1, done + [m]);
        assert AnalyzeMethods(ty, sc, ms, k, done) == r;
        if r.result.Ok? {
          forall j | k <= j < |ms| ensures AnalyzedFrom(r.result.value[j], ms[j]) {
            if j == k {
              assert r.result.value[k] == r.result.value[..k + 1][k] == m;
            }
          }
        }
      } else {
        assert AnalyzeMethods(ty, sc, ms, k, done).result.Err?;
      }
    }
  }

  /**
   * Fields in order, then methods in order, all in the current frame; then a
   * function `main` of arity 0 must be visible and its return type must pass
   * `requireAssignable(INTEGER, ·)`.
   */
  function AnalyzeSource(ty: Types, sc: Bindings, src: Source): (r: Analyzed<Source>)
    requires |sc| > 0
    ensures KeepsOuterFrames(sc, r.scope)
    ensures r.result.Ok? ==> |r.result.value.fields| == |src.fields| && |r.result.value.methods| == |src.methods|
    ensures r.result.Ok? ==>
      LookupFunction(r.scope, "main", 0).Some? && Assignable(ty, INTEGER, LookupFunction(r.scope, "main", 0).value.returnType)
  {
    var fs := AnalyzeFields(ty, sc, src.fields, 0, []);
    match fs.result
    case Err(x) => Analyzed(Err(x), fs.scope)
    case Ok(fields) =>
      var ms := AnalyzeMethods(ty, fs.scope, src.methods, 0, []);
      match ms.result
      case Err(x) => Analyzed(Err(x), ms.scope)
      case Ok(methods) =>
        match LookupFunction(ms.scope, "main", 0)
        case None => Analyzed(Err(Rejected), ms.scope)
        case Some(main) =>
          if !Assignable(ty, INTEGER, main.returnType) then Analyzed(Err(Rejected), ms.scope)
          else Analyzed(Ok(Source(fields, methods)), ms.scope)
  }

  /** A source that passes analysis comes back as the same tree with every annotation slot filled in. */
  lemma SourceAnalyzedFrom(ty: Types, sc: Bindings, src: Source)
    requires |sc| > 0
    ensures var r := AnalyzeSource(ty, sc, src);
      r.result.Ok? ==> AnnotatedSource(r.result.value) && StripSource(r.result.value) == StripSource(src)
  {
    var fs := AnalyzeFields(ty, sc, src.fields, 0, []);
    if fs.result.Ok? {
      var ms := AnalyzeMethods(ty, fs.scope, src.methods, 0, []);
      MethodsAnalyzedFrom(ty, fs.scope, src.methods, 0, []);
      var r := AnalyzeSource(ty, sc, src);
      if r.result.Ok? {
        assert r.result.value == Source(fs.result.value, ms.result.value);
        SourcePointwise(r.result.value, src);
      }
    }
  }

  lemma SourcePointwise(src': Source, src: Source)
    requires |src'.fields| == |src.fields| && |src'.methods| == |src.methods|
    requires forall j :: 0 <= j < |src.fields| ==>
      AnnotatedField(src'.fields[j]) && StripField(src'.fields[j]) == StripField(src.fields[j])
    requires forall j :: 0 <= j < |src.methods| ==> AnalyzedFrom(src'.methods[j], src.methods[j])
    ensures AnnotatedSource(src') && StripSource(src') == StripSource(src)
  {
    assert StripSource(src').fields == StripSource(src).fields;
    assert StripSource(src').methods == StripSource(src).methods;
  }
}
