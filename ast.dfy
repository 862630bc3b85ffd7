/**
 * The syntax tree the parser builds, the analyzer annotates and the interpreter
 * and generator walk. The annotation slots the analyzer fills are `Option`s here:
 * the analyzer returns an annotated copy of the tree instead of writing into it.
 */
module Ast {
  import opened Common
  import opened Environment
  import N = Numbers

  /** The host objects a Literal node holds: Boolean, String, Character, null, BigInteger, BigDecimal. */
  datatype LiteralValue =
    | BoolLit(b: bool)
    | StringLit(s: string)
    | CharLit(c: char)
    | NilLit
    | IntLit(i: int)
    | DecLit(d: N.Decimal)

  datatype Expr =
    | Literal(literal: LiteralValue, typ: Option<Type>)
    | Group(expr: Expr, typ: Option<Type>)
    | Binary(op: string, left: Expr, right: Expr, typ: Option<Type>)
    | Access(receiver: Option<Expr>, name: string, variable: Option<Variable>)
    | FunctionCall(receiver: Option<Expr>, name: string, args: seq<Expr>, func: Option<Function>)

  datatype Stmt =
    | Expression(expr: Expr)
    | Declaration(name: string, typeName: Option<string>, initializer: Option<Expr>, variable: Option<Variable>)
    | Assignment(receiver: Expr, value: Expr)
    | If(condition: Expr, thenStmts: seq<Stmt>, elseStmts: seq<Stmt>)
    | For(init: Option<Stmt>, condition: Expr, increment: Option<Stmt>, body: seq<Stmt>)
    | While(condition: Expr, body: seq<Stmt>)
    | Return(value: Expr)

  datatype Field = Field(name: string, typeName: string, constant: bool, value: Option<Expr>, variable: Option<Variable>)

  datatype Method = Method(name: string, parameters: seq<string>, parameterTypeNames: seq<string>,
                           returnTypeName: Option<string>, statements: seq<Stmt>, func: Option<Function>)

  datatype Source = Source(fields: seq<Field>, methods: seq<Method>)

  /**
   * An expression's static type: the slot the analyzer sets on Literal, Group and
   * Binary nodes, the bound variable's type on an Access and the bound function's
   * return type on a call.
   */
  function TypeOf(e: Expr): Option<Type> {
    match e
    case Literal(_, t) => t
    case Group(_, t) => t
    case Binary(_, _, _, t) => t
    case Access(_, _, v) => if v.Some? then Some(v.value.typ) else None
    case FunctionCall(_, _, _, f) => if f.Some? then Some(f.value.returnType) else None
  }

  /** The type the analyzer gives a literal of each host kind (before its range check). */
  function LiteralType(l: LiteralValue): Type {
    match l
    case BoolLit(_) => BOOLEAN
    case StringLit(_) => STRING
    case CharLit(_) => CHARACTER
    case NilLit => NIL
    case IntLit(_) => INTEGER
    case DecLit(_) => DECIMAL
  }

  /**
   * Every annotation slot of the expression is set: each literal carries the type
   * of its kind, each group and binary node a type, each access a variable and each
   * call a function with a parameter type for every argument.
   */
  predicate AnnotatedExpr(e: Expr) {
    match e
    case Literal(l, t) => t == Some(LiteralType(l))
    case Group(x, t) => t.Some? && AnnotatedExpr(x)
    case Binary(_, l, r, t) => t.Some? && AnnotatedExpr(l) && AnnotatedExpr(r)
    case Access(recv, _, v) => v.Some? && (recv.Some? ==> AnnotatedExpr(recv.value))
    case FunctionCall(recv, _, args, f) =>
      && f.Some? && |f.value.parameterTypes| >= |args|
      && (recv.Some? ==> AnnotatedExpr(recv.value))
      && forall k :: 0 <= k < |args| ==> AnnotatedExpr(args[k])
  }

  predicate AnnotatedStmt(s: Stmt) {
    match s
    case Expression(e) => AnnotatedExpr(e)
    case Declaration(_, _, v, x) => x.Some? && (v.Some? ==> AnnotatedExpr(v.value))
    case Assignment(r, v) => AnnotatedExpr(r) && AnnotatedExpr(v)
    case If(c, th, el) => AnnotatedExpr(c) && AnnotatedStmts(th) && AnnotatedStmts(el)
    case For(init, c, incr, body) =>
      && (init.Some? ==> AnnotatedStmt(init.value)) && AnnotatedExpr(c)
      && (incr.Some? ==> AnnotatedStmt(incr.value)) && AnnotatedStmts(body)
    case While(c, body) => AnnotatedExpr(c) && AnnotatedStmts(body)
    case Return(v) => AnnotatedExpr(v)
  }

  /** An annotated expression's static type. */
  function StaticType(e: Expr): Type
    requires AnnotatedExpr(e)
  {
    TypeOf(e).value
  }

  predicate AnnotatedStmts(ss: seq<Stmt>) {
    forall k :: 0 <= k < |ss| ==> AnnotatedStmt(ss[k])
  }

  predicate AnnotatedField(f: Field) {
    f.variable.Some? && (f.value.Some? ==> AnnotatedExpr(f.value.value))
  }

  /** A method is annotated when its function has a parameter type for every parameter. */
  predicate AnnotatedMethod(m: Method) {
    && m.func.Some? && |m.func.value.parameterTypes| == |m.parameters|
    && AnnotatedStmts(m.statements)
  }

  predicate AnnotatedSource(src: Source) {
    && (forall k :: 0 <= k < |src.fields| ==> AnnotatedField(src.fields[k]))
    && (forall k :: 0 <= k < |src.methods| ==> AnnotatedMethod(src.methods[k]))
  }

  /** The tree with every annotation slot emptied: what the parser builds. */
  function StripExpr(e: Expr): Expr {
    match e
    case Literal(l, _) => Literal(l, None)
    case Group(x, _) => Group(StripExpr(x), None)
    case Binary(op, l, r, _) => Binary(op, StripExpr(l), StripExpr(r), None)
    case Access(recv, n, _) => Access(if recv.Some? then Some(StripExpr(recv.value)) else None, n, None)
    case FunctionCall(recv, n, args, _) =>
      FunctionCall(if recv.Some? then Some(StripExpr(recv.value)) else None, n, StripExprs(args), None)
  }

  function StripExprs(es: seq<Expr>): (r: seq<Expr>)
    ensures |r| == |es|
  {
    seq(|es|, k requires 0 <= k < |es| => StripExpr(es[k]))
  }

  function StripStmt(s: Stmt): Stmt {
    match s
    case Expression(e) => Expression(StripExpr(e))
    case Declaration(n, t, v, _) => Declaration(n, t, if v.Some? then Some(StripExpr(v.value)) else None, None)
    case Assignment(r, v) => Assignment(StripExpr(r), StripExpr(v))
    case If(c, th, el) => If(StripExpr(c), StripStmts(th), StripStmts(el))
    case For(init, c, incr, body) =>
      For(if init.Some? then Some(StripStmt(init.value)) else None, StripExpr(c),
          if incr.Some? then Some(StripStmt(incr.value)) else None, StripStmts(body))
    case While(c, body) => While(StripExpr(c), StripStmts(body))
    case Return(v) => Return(StripExpr(v))
  }

  function StripStmts(ss: seq<Stmt>): (r: seq<Stmt>)
    ensures |r| == |ss|
  {
    seq(|ss|, k requires 0 <= k < |ss| => StripStmt(ss[k]))
  }

  function StripField(f: Field): Field {
    f.(value := if f.value.Some? then Some(StripExpr(f.value.value)) else None, variable := None)
  }

  function StripMethod(m: Method): Method {
    m.(statements := StripStmts(m.statements), func := None)
  }

  function StripSource(src: Source): Source {
    Source(seq(|src.fields|, k requires 0 <= k < |src.fields| => StripField(src.fields[k])),
           seq(|src.methods|, k requires 0 <= k < |src.methods| => StripMethod(src.methods[k])))
  }
}
