/**
 * The Java text the generator writes for an annotated tree, as functions of the
 * tree, the line separator and the current indentation level. A type's JVM name
 * is taken as given (`jvm`); the variables and functions the analyzer bound carry
 * their own JVM names.
 */
module GeneratorSpec {
  import opened Common
  import opened Environment
  import opened Ast
  import N = Numbers
  import E = Escapes

  /** The line that opens the generated class. */
  const ClassHeader: string := "public class Main {"
  /** The line that opens the JVM entry point. */
  const MainHeader: string := "public static void main(String[] args) {"
  /** The entry point's one statement: exit with the value of the language's `main`. */
  const MainCall: string := "System.exit(new Main().main());"

  // ----- layout -----

  /** Four spaces per level; a level of zero or below writes nothing. */
  function Indentation(n: int): (r: string)
    ensures |r| == 4 * (if n < 0 then 0 else n)
    ensures forall i :: 0 <= i < |r| ==> r[i] == ' '
    decreases if n < 0 then 0 else n
  {
    if n <= 0 then "" else Indentation(n - 1) + "    "
  }

  /** `newline(n)`: the line separator, then the indentation of level n. */
  function NewlineText(sep: string, n: int): string {
    sep + Indentation(n)
  }

  /** The items with the separator between each two consecutive ones. */
  function Join(xs: seq<string>, sep: string): string
    decreases |xs|
  {
    if |xs| == 0 then ""
    else if |xs| == 1 then xs[0]
    else Join(xs[..|xs| - 1], sep) + sep + xs[|xs| - 1]
  }

  // ----- what the generator needs of the tree -----

  /**
   * The annotations an expression's text reads are present: a literal's type
   * (NIL for the null literal, whose value has no text), an access's variable and
   * a call's function. Without them the source dereferences null.
   */
  predicate Printable(e: Expr)
    decreases e, 1
  {
    match e
    case Literal(l, t) => t.Some? && (l.NilLit? ==> t.value == NIL)
    case Group(x, _) => Printable(x)
    case Binary(_, l, r, _) => Printable(l) && Printable(r)
    case Access(recv, _, v) => v.Some? && (recv.Some? ==> Printable(recv.value))
    case FunctionCall(recv, _, args, f) =>
      && f.Some?
      && (recv.Some? ==> Printable(recv.value))
      && AllPrintableExprs(args)
  }

  predicate AllPrintableExprs(args: seq<Expr>)
    decreases args, 0
  {
    forall i :: 0 <= i < |args| ==> Printable(args[i])
  }

  /** The same for statements; a For's increment is cast to an Assignment. */
  predicate PrintableStmt(s: Stmt)
    decreases s, 1
  {
    match s
    case Expression(e) => Printable(e)
    case Declaration(_, _, init, v) => v.Some? && (init.Some? ==> Printable(init.value))
    case Assignment(r, v) => Printable(r) && Printable(v)
    case If(c, t, e) =>
      && Printable(c)
      && AllPrintable(t)
      && AllPrintable(e)
    case For(init, c, incr, body) =>
      && (init.Some? ==> PrintableStmt(init.value))
      && Printable(c)
      && (incr.Some? ==> incr.value.Assignment? && Printable(incr.value.receiver) && Printable(incr.value.value))
      && AllPrintable(body)
    case While(c, body) => Printable(c) && AllPrintable(body)
    case Return(v) => Printable(v)
  }

  predicate AllPrintable(ss: seq<Stmt>)
    decreases ss, 0
  {
    forall i :: 0 <= i < |ss| ==> PrintableStmt(ss[i])
  }

  predicate PrintableField(f: Field) {
    f.variable.Some? && (f.value.Some? ==> Printable(f.value.value))
  }

  predicate AllPrintableFields(fs: seq<Field>) {
    forall i :: 0 <= i < |fs| ==> PrintableField(fs[i])
  }

  /** A method's function is bound and has a parameter type for each parameter. */
  predicate PrintableMethod(m: Method) {
    && m.func.Some?
    && |m.func.value.parameterTypes| >= |m.parameters|
    && AllPrintable(m.statements)
  }

  predicate AllPrintableMethods(ms: seq<Method>) {
    forall i :: 0 <= i < |ms| ==> PrintableMethod(ms[i])
  }

  predicate PrintableSource(src: Source) {
    && AllPrintableFields(src.fields)
    && AllPrintableMethods(src.methods)
  }

  // ----- expressions -----

  /** `toString()` of the literal's value. */
  function LiteralString(l: LiteralValue): string
    requires !l.NilLit?
  {
    match l
    case BoolLit(b) => if b then "true" else "false"
    case StringLit(s) => s
    case CharLit(c) => [c]
    case IntLit(i) => N.IntToString(i)
    case DecLit(d) => N.DecimalToString(d)
  }

  /**
   * A literal as the visitor writes it: a String or Character literal's value
   * between quotes, with the characters the parser decoded written back raw.
   */
  function LiteralTextAsWritten(l: LiteralValue, t: Type): string
    requires l.NilLit? ==> t == NIL
  {
    if t == STRING then "\"" + LiteralString(l) + "\""
    else if t == CHARACTER then "'" + LiteralString(l) + "'"
    else if t == NIL then "null"
    else LiteralString(l)
  }

  /**
   * A literal with the value of a String or Character literal escaped again, so
   * the text between the quotes decodes to the value; the rest of the model
   * writes literals this way.
   */
  function LiteralText(l: LiteralValue, t: Type): (r: string)
    requires l.NilLit? ==> t == NIL
    ensures t != STRING && t != CHARACTER ==> r == LiteralTextAsWritten(l, t)
  {
    if t == STRING then "\"" + E.Escape(LiteralString(l)) + "\""
    else if t == CHARACTER then "'" + E.Escape(LiteralString(l)) + "'"
    else LiteralTextAsWritten(l, t)
  }

  function ExprText(e: Expr): string
    requires Printable(e)
    decreases e, 1, 0
  {
    match e
    case Literal(l, t) => LiteralText(l, t.value)
    case Group(x, _) => "(" + ExprText(x) + ")"
    case Binary(op, l, r, _) => ExprText(l) + (" " + op + " ") + ExprText(r)
    case Access(recv, _, v) => ReceiverText(recv) + v.value.jvmName
    case FunctionCall(recv, _, args, f) =>
      ReceiverText(recv) + (f.value.jvmName + "(") + ArgumentsText(args, |args|) + ")"
  }

  /** An access's or a call's receiver followed by a dot, when there is one. */
  function ReceiverText(recv: Option<Expr>): string
    requires recv.Some? ==> Printable(recv.value)
    decreases recv, 0, 0
  {
    if recv.Some? then ExprText(recv.value) + "." else ""
  }

  /** The first k arguments, with `, ` between consecutive ones. */
  function ArgumentsText(args: seq<Expr>, k: nat): string
    requires k <= |args| && AllPrintableExprs(args)
    decreases args, 0, k
  {
    if k == 0 then ""
    else if k == 1 then ExprText(args[0])
    else ArgumentsText(args, k - 1) + ", " + ExprText(args[k - 1])
  }

  /** The text of each argument. */
  function ExprTexts(args: seq<Expr>): (r: seq<string>)
    requires AllPrintableExprs(args)
    ensures |r| == |args|
    ensures forall i :: 0 <= i < |args| ==> r[i] == ExprText(args[i])
  {
    seq(|args|, i requires 0 <= i < |args| => ExprText(args[i]))
  }

  // ----- statements -----

  /** A statement at indentation level n: the text from its first character to its last. */
  function StmtText(jvm: Type -> string, sep: string, s: Stmt, n: int): string
    requires PrintableStmt(s)
    decreases s, 1, 0
  {
    match s
    case Expression(e) => ExprText(e) + ";"
    case Declaration(_, _, init, v) =>
      VariableText(jvm, v.value, init)
    case Assignment(r, v) => ExprText(r) + " = " + ExprText(v) + ";"
    case If(c, t, e) =>
      "if (" + ExprText(c) + ") {" + BodyText(jvm, sep, t, n) + "}"
      + (if |e| == 0 then "" else " else {" + BodyText(jvm, sep, e, n) + "}")
    case For(init, c, incr, body) =>
      "for ( " + ForInitText(jvm, sep, init, n) + " " + ExprText(c) + ";"
      + IncrementText(incr) + " ) {" + BodyText(jvm, sep, body, n) + "}"
    case While(c, body) => "while (" + ExprText(c) + ") {" + BodyText(jvm, sep, body, n) + "}"
    case Return(v) => "return " + ExprText(v) + ";"
  }

  /** A declared variable: its type's JVM name, its JVM name, its initial value if any, and `;`. */
  function VariableText(jvm: Type -> string, v: Variable, init: Option<Expr>): string
    requires init.Some? ==> Printable(init.value)
  {
    jvm(v.typ) + " " + v.jvmName + InitializerText(init) + ";"
  }

  /** ` = ` and the initial value of a declaration or a field, when it has one. */
  function InitializerText(v: Option<Expr>): string
    requires v.Some? ==> Printable(v.value)
  {
    if v.Some? then " = " + ExprText(v.value) else ""
  }

  /** A For's initialization statement, or the bare `;` without one. */
  function ForInitText(jvm: Type -> string, sep: string, init: Option<Stmt>, n: int): string
    requires init.Some? ==> PrintableStmt(init.value)
    decreases init, 0, 0
  {
    if init.Some? then StmtText(jvm, sep, init.value, n) else ";"
  }

  /** A For's increment as ` receiver = value`, or nothing without one. */
  function IncrementText(incr: Option<Stmt>): string
    requires incr.Some? ==> incr.value.Assignment? && Printable(incr.value.receiver) && Printable(incr.value.value)
  {
    if incr.Some? then " " + ExprText(incr.value.receiver) + " = " + ExprText(incr.value.value) else ""
  }

  /** The text of each statement at level n. */
  function StmtTexts(jvm: Type -> string, sep: string, ss: seq<Stmt>, n: int): (r: seq<string>)
    requires AllPrintable(ss)
    ensures |r| == |ss|
    ensures forall i :: 0 <= i < |ss| ==> r[i] == StmtText(jvm, sep, ss[i], n)
  {
    seq(|ss|, i requires 0 <= i < |ss| => StmtText(jvm, sep, ss[i], n))
  }

  /**
   * The inside of the braces of a block opened at level n: nothing for an empty
   * list; otherwise each statement on its own line at level n + 1, and a final
   * line break back to level n for the closing brace.
   */
  function BodyText(jvm: Type -> string, sep: string, ss: seq<Stmt>, n: int): string
    requires AllPrintable(ss)
    decreases ss, 2, 0
  {
    if |ss| == 0 then ""
    else NewlineText(sep, n + 1) + LinesText(jvm, sep, ss, |ss|, n + 1) + NewlineText(sep, n)
  }

  /** The first k statements at level n, with a line break to level n between each two. */
  function LinesText(jvm: Type -> string, sep: string, ss: seq<Stmt>, k: nat, n: int): string
    requires k <= |ss| && AllPrintable(ss)
    decreases ss, 1, k
  {
    if k == 0 then ""
    else if k == 1 then StmtText(jvm, sep, ss[0], n)
    else LinesText(jvm, sep, ss, k - 1, n) + NewlineText(sep, n) + StmtText(jvm, sep, ss[k - 1], n)
  }

  // ----- fields, methods, sources -----

  function FieldText(jvm: Type -> string, f: Field): string
    requires PrintableField(f)
  {
    (if f.constant then "final " else "") + VariableText(jvm, f.variable.value, f.value)
  }

  /** Parameter i as its type's JVM name, a space and its name. */
  function ParameterText(jvm: Type -> string, m: Method, i: nat): string
    requires PrintableMethod(m) && i < |m.parameters|
  {
    jvm(m.func.value.parameterTypes[i]) + " " + m.parameters[i]
  }

  /** The first k parameters, with `, ` between consecutive ones. */
  function ParametersText(jvm: Type -> string, m: Method, k: nat): string
    requires PrintableMethod(m) && k <= |m.parameters|
  {
    if k == 0 then ""
    else if k == 1 then ParameterText(jvm, m, 0)
    else ParametersText(jvm, m, k - 1) + ", " + ParameterText(jvm, m, k - 1)
  }

  /** The text of each parameter. */
  function ParameterTexts(jvm: Type -> string, m: Method): (r: seq<string>)
    requires PrintableMethod(m)
    ensures |r| == |m.parameters|
    ensures forall i :: 0 <= i < |r| ==> r[i] == ParameterText(jvm, m, i)
  {
    seq(|m.parameters|, i requires 0 <= i < |m.parameters| => ParameterText(jvm, m, i))
  }

  function MethodText(jvm: Type -> string, sep: string, m: Method, n: int): string
    requires PrintableMethod(m)
  {
    var f := m.func.value;
    (jvm(f.returnType) + " ") + (f.jvmName + "(") + ParametersText(jvm, m, |m.parameters|) + ") {"
    + BodyText(jvm, sep, m.statements, n) + "}"
  }

  /** The first k fields, each on a new line at level n. */
  function FieldLines(jvm: Type -> string, sep: string, fs: seq<Field>, k: nat, n: int): string
    requires k <= |fs| && AllPrintableFields(fs)
  {
    if k == 0 then "" else FieldLines(jvm, sep, fs, k - 1, n) + (NewlineText(sep, n) + FieldText(jvm, fs[k - 1]))
  }

  /** The first k methods, each on a new line at level n and followed by a line break. */
  function MethodLines(jvm: Type -> string, sep: string, ms: seq<Method>, k: nat, n: int): string
    requires k <= |ms| && AllPrintableMethods(ms)
  {
    if k == 0 then ""
    else MethodLines(jvm, sep, ms, k - 1, n) + MethodLine(jvm, sep, ms[k - 1], n)
  }

  /** A method on a new line at level n, followed by a line break. */
  function MethodLine(jvm: Type -> string, sep: string, m: Method, n: int): string
    requires PrintableMethod(m)
  {
    NewlineText(sep, n) + MethodText(jvm, sep, m, n) + NewlineText(sep, 0)
  }

  /** The fields block: nothing without fields, else the field lines and a blank line. */
  function FieldsBlock(jvm: Type -> string, sep: string, fs: seq<Field>, n: int): string
    requires AllPrintableFields(fs)
  {
    if |fs| == 0 then "" else FieldLines(jvm, sep, fs, |fs|, n) + NewlineText(sep, 0)
  }

  /** The `main(String[])` wrapper at level n, calling the language's `main`. */
  function MainWrapper(sep: string, n: int): string {
    NewlineText(sep, n) + MainHeader
    + NewlineText(sep, n + 1) + MainCall
    + NewlineText(sep, n) + "}" + NewlineText(sep, 0)
  }

  /** The whole class, started at level n: members at level n + 1, the closing brace back at level n. */
  function SourceText(jvm: Type -> string, sep: string, src: Source, n: int): string
    requires PrintableSource(src)
  {
    ClassHeader + NewlineText(sep, 0)
    + FieldsBlock(jvm, sep, src.fields, n + 1)
    + MainWrapper(sep, n + 1)
    + MethodLines(jvm, sep, src.methods, |src.methods|, n + 1)
    + NewlineText(sep, n) + "}"
  }
}
