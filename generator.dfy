/**
 * The generator as the source writes it: an object holding the text written so
 * far and the indentation level, whose visit methods append each node's Java
 * text and raise the level around a block's statements. Each visit is proved to
 * append the GeneratorSpec text of its node and to leave the level as it found it.
 */
module Generator {
  import opened Common
  import opened Environment
  import opened Ast
  import opened GeneratorSpec
  import E = Escapes

  /** Appending in two steps appends the concatenation. */
  lemma Appended(o: string, p: string, a: string)
    ensures (o + p) + a == o + (p + a)
  {
  }

  // One-step unfoldings of the list texts, for the loops that build them.

  lemma ArgumentsNext(args: seq<Expr>, k: nat)
    requires 1 <= k < |args| && AllPrintableExprs(args)
    ensures ArgumentsText(args, k + 1) == ArgumentsText(args, k) + ", " + ExprText(args[k])
  {
  }

  lemma LinesNext(jvm: Type -> string, sep: string, ss: seq<Stmt>, k: nat, n: int)
    requires 1 <= k < |ss| && AllPrintable(ss)
    ensures LinesText(jvm, sep, ss, k + 1, n) == LinesText(jvm, sep, ss, k, n) + NewlineText(sep, n) + StmtText(jvm, sep, ss[k], n)
  {
  }

  lemma ParametersNext(jvm: Type -> string, m: Method, k: nat)
    requires PrintableMethod(m) && 1 <= k < |m.parameters|
    ensures ParametersText(jvm, m, k + 1) == ParametersText(jvm, m, k) + ", " + ParameterText(jvm, m, k)
  {
  }

  lemma FieldLinesNext(jvm: Type -> string, sep: string, fs: seq<Field>, k: nat, n: int)
    requires k < |fs| && AllPrintableFields(fs)
    ensures FieldLines(jvm, sep, fs, k + 1, n) == FieldLines(jvm, sep, fs, k, n) + (NewlineText(sep, n) + FieldText(jvm, fs[k]))
  {
  }

  lemma MethodLinesNext(jvm: Type -> string, sep: string, ms: seq<Method>, k: nat, n: int)
    requires k < |ms| && AllPrintableMethods(ms)
    ensures MethodLines(jvm, sep, ms, k + 1, n) == MethodLines(jvm, sep, ms, k, n) + MethodLine(jvm, sep, ms[k], n)
  {
  }

  lemma SourceParts(jvm: Type -> string, sep: string, src: Source, n: int)
    requires PrintableSource(src)
    ensures SourceText(jvm, sep, src, n)
         == ClassHeader + NewlineText(sep, 0) + FieldsBlock(jvm, sep, src.fields, n + 1) + MainWrapper(sep, n + 1)
            + MethodLines(jvm, sep, src.methods, |src.methods|, n + 1) + NewlineText(sep, n) + "}"
  {
  }

  class Generator {
    /** A type's JVM name. */
    const jvm: Type -> string
    /** The platform's line separator. */
    const separator: string
    /** Everything written so far. */
    var out: string
    var indent: int

    constructor (jvm: Type -> string, separator: string)
      ensures this.jvm == jvm && this.separator == separator
      ensures out == "" && indent == 0
    {
      this.jvm := jvm;
      this.separator := separator;
      out := "";
      indent := 0;
    }

    /** `print` of a string. */
    method Print(s: string)
      modifies this
      ensures out == old(out) + s && indent == old(indent)
    {
      out := out + s;
    }

    /** `newline(n)`: a line separator, then four spaces n times. */
    method Newline(n: int)
      modifies this
      ensures out == old(out) + NewlineText(separator, n) && indent == old(indent)
    {
      out := out + separator;
      var i := 0;
      while i < n
        invariant (n <= 0 ==> i == 0) && (n > 0 ==> 0 <= i <= n)
        invariant out == old(out) + separator + Indentation(i) && indent == old(indent)
        decreases n - i
      {
        out := out + "    ";
        i := i + 1;
      }
    }

    // ----- expressions -----

    /** The dispatch of `visit(Ast)` over the expression kinds. */
    method VisitExpression(e: Expr)
      requires Printable(e)
      modifies this
      ensures out == old(out) + ExprText(e) && indent == old(indent)
      decreases e, 1
    {
      match e
      case Literal(_, _) => VisitLiteral(e);
      case Group(_, _) => VisitGroup(e);
      case Binary(_, _, _, _) => VisitBinary(e);
      case Access(_, _, _) => VisitAccess(e);
      case FunctionCall(_, _, _, _) => VisitFunction(e);
    }

    /** A String or Character literal between its quotes, null for NIL, else the value's text. */
    method VisitLiteral(e: Expr)
      requires e.Literal? && Printable(e)
      modifies this
      ensures out == old(out) + ExprText(e) && indent == old(indent)
      decreases e, 0
    {
      ghost var o := out;
      var t := e.typ.value;
      if t == STRING || t == CHARACTER {
        var quote := if t == STRING then "\"" else "'";
        var text := E.Escape(LiteralString(e.literal));
        Print(quote);
        Print(text);
        Appended(o, quote, text);
        Print(quote);
        Appended(o, quote + text, quote);
      } else if t == NIL {
        Print("null");
      } else {
        Print(LiteralString(e.literal));
      }
    }

    method VisitGroup(e: Expr)
      requires e.Group? && Printable(e)
      modifies this
      ensures out == old(out) + ExprText(e) && indent == old(indent)
      decreases e, 0
    {
      ghost var o := out;
      ghost var x := ExprText(e.expr);
      Print("(");
      VisitExpression(e.expr);
      Appended(o, "(", x);
      Print(")");
      Appended(o, "(" + x, ")");
    }

    method VisitBinary(e: Expr)
      requires e.Binary? && Printable(e)
      modifies this
      ensures out == old(out) + ExprText(e) && indent == old(indent)
      decreases e, 0
    {
      ghost var o := out;
      ghost var l := ExprText(e.left);
      VisitExpression(e.left);
      Print(" " + e.op + " ");
      Appended(o, l, " " + e.op + " ");
      VisitExpression(e.right);
      Appended(o, l + (" " + e.op + " "), ExprText(e.right));
    }

    method VisitAccess(e: Expr)
      requires e.Access? && Printable(e)
      modifies this
      ensures out == old(out) + ExprText(e) && indent == old(indent)
      decreases e, 0
    {
      ghost var o := out;
      VisitReceiver(e.receiver);
      Print(e.variable.value.jvmName);
      Appended(o, ReceiverText(e.receiver), e.variable.value.jvmName);
    }

    method VisitFunction(e: Expr)
      requires e.FunctionCall? && Printable(e)
      modifies this
      ensures out == old(out) + ExprText(e) && indent == old(indent)
      decreases e, 0
    {
      ghost var o := out;
      ghost var w := ReceiverText(e.receiver);
      VisitReceiver(e.receiver);
      Print(e.func.value.jvmName + "(");
      Appended(o, w, e.func.value.jvmName + "(");
      w := w + (e.func.value.jvmName + "(");
      ghost var a := ArgumentsText(e.args, |e.args|);
      VisitArguments(e.args);
      Appended(o, w, a);
      Print(")");
      Appended(o, w + a, ")");
    }

    /** The receiver of an access or a call and a dot, when there is a receiver. */
    method VisitReceiver(recv: Option<Expr>)
      requires recv.Some? ==> Printable(recv.value)
      modifies this
      ensures out == old(out) + ReceiverText(recv) && indent == old(indent)
      decreases recv, 0
    {
      if recv.Some? {
        ghost var o := out;
        VisitExpression(recv.value);
        Print(".");
        Appended(o, ExprText(recv.value), ".");
      }
    }

    /** The arguments, with `, ` between consecutive ones. */
    method VisitArguments(args: seq<Expr>)
      requires AllPrintableExprs(args)
      modifies this
      ensures out == old(out) + ArgumentsText(args, |args|) && indent == old(indent)
      decreases args, 0
    {
      if |args| == 0 {
        return;
      }
      ghost var o := out;
      VisitExpression(args[0]);
      var i := 1;
      while i < |args|
        invariant 1 <= i <= |args| && indent == old(indent)
        invariant out == o + ArgumentsText(args, i)
        decreases |args| - i
      {
        ghost var w := ArgumentsText(args, i);
        Print(", ");
        Appended(o, w, ", ");
        VisitExpression(args[i]);
        Appended(o, w + ", ", ExprText(args[i]));
        ArgumentsNext(args, i);
        i := i + 1;
      }
    }

    // ----- statements -----

    /** The dispatch of `visit(Ast)` over the statement kinds. */
    method VisitStatement(s: Stmt)
      requires PrintableStmt(s)
      modifies this
      ensures out == old(out) + StmtText(jvm, separator, s, old(indent)) && indent == old(indent)
      decreases s, 1
    {
      match s
      case Expression(_) => VisitExpressionStatement(s);
      case Declaration(_, _, _, _) => VisitDeclaration(s);
      case Assignment(_, _) => VisitAssignment(s);
      case If(_, _, _) => VisitIf(s);
      case For(_, _, _, _) => VisitFor(s);
      case While(_, _) => VisitWhile(s);
      case Return(_) => VisitReturn(s);
    }

    method VisitExpressionStatement(s: Stmt)
      requires s.Expression? && PrintableStmt(s)
      modifies this
      ensures out == old(out) + StmtText(jvm, separator, s, old(indent)) && indent == old(indent)
      decreases s, 0
    {
      ghost var o := out;
      VisitExpression(s.expr);
      Print(";");
      Appended(o, ExprText(s.expr), ";");
    }

    method VisitDeclaration(s: Stmt)
      requires s.Declaration? && PrintableStmt(s)
      modifies this
      ensures out == old(out) + StmtText(jvm, separator, s, old(indent)) && indent == old(indent)
      decreases s, 0
    {
      ghost var o := out;
      var v := s.variable.value;
      Print(jvm(v.typ) + " " + v.jvmName);
      ghost var w := jvm(v.typ) + " " + v.jvmName;
      ghost var init := InitializerText(s.initializer);
      VisitInitializer(s.initializer);
      Appended(o, w, init);
      Print(";");
      Appended(o, w + init, ";");
    }

    /** ` = ` and the initial value of a declaration or a field, when there is one. */
    method VisitInitializer(v: Option<Expr>)
      requires v.Some? ==> Printable(v.value)
      modifies this
      ensures out == old(out) + InitializerText(v) && indent == old(indent)
    {
      if v.Some? {
        ghost var o := out;
        Print(" = ");
        VisitExpression(v.value);
        Appended(o, " = ", ExprText(v.value));
      }
    }

    method VisitAssignment(s: Stmt)
      requires s.Assignment? && PrintableStmt(s)
      modifies this
      ensures out == old(out) + StmtText(jvm, separator, s, old(indent)) && indent == old(indent)
      decreases s, 0
    {
      ghost var o := out;
      ghost var r := ExprText(s.receiver);
      ghost var v := ExprText(s.value);
      VisitExpression(s.receiver);
      Print(" = ");
      Appended(o, r, " = ");
      VisitExpression(s.value);
      Appended(o, r + " = ", v);
      Print(";");
      Appended(o, r + " = " + v, ";");
    }

    method VisitIf(s: Stmt)
      requires s.If? && PrintableStmt(s)
      modifies this
      ensures out == old(out) + StmtText(jvm, separator, s, old(indent)) && indent == old(indent)
      decreases s, 0
    {
      ghost var o := out;
      ghost var c := ExprText(s.condition);
      ghost var t := BodyText(jvm, separator, s.thenStmts, indent);
      Print("if (");
      VisitExpression(s.condition);
      Appended(o, "if (", c);
      Print(") {");
      Appended(o, "if (" + c, ") {");
      VisitBody(s.thenStmts);
      Appended(o, "if (" + c + ") {", t);
      Print("}");
      Appended(o, "if (" + c + ") {" + t, "}");
      ghost var w := "if (" + c + ") {" + t + "}";
      ghost var tail := "";
      if |s.elseStmts| != 0 {
        ghost var m := out;
        ghost var b := BodyText(jvm, separator, s.elseStmts, indent);
        Print(" else {");
        VisitBody(s.elseStmts);
        Appended(m, " else {", b);
        Print("}");
        Appended(m, " else {" + b, "}");
        tail := " else {" + b + "}";
      }
      Appended(o, w, tail);
    }

    method VisitFor(s: Stmt)
      requires s.For? && PrintableStmt(s)
      modifies this
      ensures out == old(out) + StmtText(jvm, separator, s, old(indent)) && indent == old(indent)
      decreases s, 0
    {
      ghost var o := out;
      ghost var init := ForInitText(jvm, separator, s.init, indent);
      ghost var c := ExprText(s.condition);
      ghost var incr := IncrementText(s.increment);
      ghost var b := BodyText(jvm, separator, s.body, indent);
      Print("for ( ");
      VisitForInit(s.init);
      Appended(o, "for ( ", init);
      ghost var w := "for ( " + init;
      Print(" ");
      Appended(o, w, " ");
      VisitExpression(s.condition);
      Appended(o, w + " ", c);
      Print(";");
      Appended(o, w + " " + c, ";");
      w := w + " " + c + ";";
      VisitIncrement(s.increment);
      Appended(o, w, incr);
      Print(" ) {");
      Appended(o, w + incr, " ) {");
      VisitBody(s.body);
      Appended(o, w + incr + " ) {", b);
      Print("}");
      Appended(o, w + incr + " ) {" + b, "}");
    }

    /** A For's initialization statement, or a bare `;` without one. */
    method VisitForInit(init: Option<Stmt>)
      requires init.Some? ==> PrintableStmt(init.value)
      modifies this
      ensures out == old(out) + ForInitText(jvm, separator, init, old(indent)) && indent == old(indent)
      decreases init, 0
    {
      if init.Some? {
        VisitStatement(init.value);
      } else {
        Print(";");
      }
    }

    /** A For's increment, cast to an assignment, as ` receiver = value`. */
    method VisitIncrement(incr: Option<Stmt>)
      requires incr.Some? ==> incr.value.Assignment? && Printable(incr.value.receiver) && Printable(incr.value.value)
      modifies this
      ensures out == old(out) + IncrementText(incr) && indent == old(indent)
    {
      if incr.Some? {
        ghost var o := out;
        ghost var r := ExprText(incr.value.receiver);
        ghost var v := ExprText(incr.value.value);
        Print(" ");
        VisitExpression(incr.value.receiver);
        Appended(o, " ", r);
        Print(" = ");
        Appended(o, " " + r, " = ");
        VisitExpression(incr.value.value);
        Appended(o, " " + r + " = ", v);
      }
    }

    method VisitWhile(s: Stmt)
      requires s.While? && PrintableStmt(s)
      modifies this
      ensures out == old(out) + StmtText(jvm, separator, s, old(indent)) && indent == old(indent)
      decreases s, 0
    {
      ghost var o := out;
      ghost var c := ExprText(s.condition);
      ghost var b := BodyText(jvm, separator, s.body, indent);
      Print("while (");
      VisitExpression(s.condition);
      Appended(o, "while (", c);
      Print(") {");
      Appended(o, "while (" + c, ") {");
      VisitBody(s.body);
      Appended(o, "while (" + c + ") {", b);
      Print("}");
      Appended(o, "while (" + c + ") {" + b, "}");
    }

    method VisitReturn(s: Stmt)
      requires s.Return? && PrintableStmt(s)
      modifies this
      ensures out == old(out) + StmtText(jvm, separator, s, old(indent)) && indent == old(indent)
      decreases s, 0
    {
      ghost var o := out;
      ghost var v := ExprText(s.value);
      Print("return ");
      VisitExpression(s.value);
      Appended(o, "return ", v);
      Print(";");
      Appended(o, "return " + v, ";");
    }

    /**
     * A block's statements: when there are any, the level goes up by one, each
     * statement starts a new line, and the level comes back down for the line of
     * the closing brace.
     */
    method VisitBody(ss: seq<Stmt>)
      requires AllPrintable(ss)
      modifies this
      ensures out == old(out) + BodyText(jvm, separator, ss, old(indent)) && indent == old(indent)
      decreases ss, 2
    {
      if |ss| == 0 {
        return;
      }
      ghost var o := out;
      ghost var n := indent;
      ghost var line := NewlineText(separator, n + 1);
      ghost var lines := LinesText(jvm, separator, ss, |ss|, n + 1);
      indent := indent + 1;
      Newline(indent);
      VisitStatements(ss);
      Appended(o, line, lines);
      indent := indent - 1;
      Newline(indent);
      Appended(o, line + lines, NewlineText(separator, n));
    }

    /** Non-empty statements at the current level, each after the first on a new line. */
    method VisitStatements(ss: seq<Stmt>)
      requires AllPrintable(ss) && |ss| > 0
      modifies this
      ensures out == old(out) + LinesText(jvm, separator, ss, |ss|, old(indent)) && indent == old(indent)
      decreases ss, 1
    {
      ghost var o := out;
      ghost var line := NewlineText(separator, indent);
      VisitStatement(ss[0]);
      var i := 1;
      while i < |ss|
        invariant 1 <= i <= |ss| && indent == old(indent)
        invariant out == o + LinesText(jvm, separator, ss, i, indent)
        decreases |ss| - i
      {
        ghost var w := LinesText(jvm, separator, ss, i, indent);
        Newline(indent);
        Appended(o, w, line);
        VisitStatement(ss[i]);
        Appended(o, w + line, StmtText(jvm, separator, ss[i], indent));
        LinesNext(jvm, separator, ss, i, indent);
        i := i + 1;
      }
    }

    // ----- fields, methods, sources -----

    method VisitField(f: Field)
      requires PrintableField(f)
      modifies this
      ensures out == old(out) + FieldText(jvm, f) && indent == old(indent)
    {
      ghost var o := out;
      if f.constant {
        Print("final ");
      }
      ghost var m := out;
      var v := f.variable.value;
      Print(jvm(v.typ) + " ");
      Print(v.jvmName);
      Appended(m, jvm(v.typ) + " ", v.jvmName);
      ghost var w := jvm(v.typ) + " " + v.jvmName;
      ghost var init := InitializerText(f.value);
      VisitInitializer(f.value);
      Appended(m, w, init);
      Print(";");
      Appended(m, w + init, ";");
      Appended(o, if f.constant then "final " else "", w + init + ";");
    }

    method VisitMethod(m: Method)
      requires PrintableMethod(m)
      modifies this
      ensures out == old(out) + MethodText(jvm, separator, m, old(indent)) && indent == old(indent)
    {
      ghost var o := out;
      var f := m.func.value;
      Print(jvm(f.returnType) + " ");
      Print(f.jvmName + "(");
      Appended(o, jvm(f.returnType) + " ", f.jvmName + "(");
      ghost var w := (jvm(f.returnType) + " ") + (f.jvmName + "(");
      ghost var p := ParametersText(jvm, m, |m.parameters|);
      VisitParameters(m);
      Appended(o, w, p);
      w := w + p;
      Print(") {");
      Appended(o, w, ") {");
      w := w + ") {";
      ghost var b := BodyText(jvm, separator, m.statements, indent);
      VisitBody(m.statements);
      Appended(o, w, b);
      Print("}");
      Appended(o, w + b, "}");
    }

    /** Each parameter as its type's JVM name and its name, with `, ` between consecutive ones. */
    method VisitParameters(m: Method)
      requires PrintableMethod(m)
      modifies this
      ensures out == old(out) + ParametersText(jvm, m, |m.parameters|) && indent == old(indent)
    {
      if |m.parameters| == 0 {
        return;
      }
      var types := m.func.value.parameterTypes;
      ghost var o := out;
      Print(jvm(types[0]) + " ");
      Print(m.parameters[0]);
      Appended(o, jvm(types[0]) + " ", m.parameters[0]);
      var i := 1;
      while i < |m.parameters|
        invariant 1 <= i <= |m.parameters| && indent == old(indent)
        invariant out == o + ParametersText(jvm, m, i)
        decreases |m.parameters| - i
      {
        ghost var w := ParametersText(jvm, m, i);
        Print(", ");
        Appended(o, w, ", ");
        ghost var m0 := out;
        Print(jvm(types[i]) + " ");
        Print(m.parameters[i]);
        Appended(m0, jvm(types[i]) + " ", m.parameters[i]);
        Appended(o, w + ", ", ParameterText(jvm, m, i));
        ParametersNext(jvm, m, i);
        i := i + 1;
      }
    }

    method VisitSource(src: Source)
      requires PrintableSource(src)
      modifies this
      ensures out == old(out) + SourceText(jvm, separator, src, old(indent)) && indent == old(indent)
    {
      ghost var o := out;
      ghost var n := indent;
      Print(ClassHeader);
      Newline(0);
      Appended(o, ClassHeader, NewlineText(separator, 0));
      ghost var w := ClassHeader + NewlineText(separator, 0);
      indent := indent + 1;
      ghost var fields := FieldsBlock(jvm, separator, src.fields, n + 1);
      VisitFields(src.fields);
      Appended(o, w, fields);
      w := w + fields;
      ghost var x := MainWrapper(separator, n + 1);
      VisitMainWrapper();
      Appended(o, w, x);
      w := w + x;
      ghost var methods := MethodLines(jvm, separator, src.methods, |src.methods|, n + 1);
      VisitMethods(src.methods);
      Appended(o, w, methods);
      w := w + methods;
      indent := indent - 1;
      Newline(indent);
      Appended(o, w, NewlineText(separator, n));
      w := w + NewlineText(separator, n);
      Print("}");
      Appended(o, w, "}");
      SourceParts(jvm, separator, src, n);
    }

    /** The `main(String[])` wrapper at the current level. */
    method VisitMainWrapper()
      modifies this
      ensures out == old(out) + MainWrapper(separator, old(indent)) && indent == old(indent)
    {
      ghost var o := out;
      ghost var n := indent;
      Newline(indent);
      Print(MainHeader);
      Appended(o, NewlineText(separator, n), MainHeader);
      ghost var x := NewlineText(separator, n) + MainHeader;
      indent := indent + 1;
      Newline(indent);
      Appended(o, x, NewlineText(separator, n + 1));
      x := x + NewlineText(separator, n + 1);
      Print(MainCall);
      Appended(o, x, MainCall);
      x := x + MainCall;
      indent := indent - 1;
      Newline(indent);
      Appended(o, x, NewlineText(separator, n));
      x := x + NewlineText(separator, n);
      Print("}");
      Appended(o, x, "}");
      x := x + "}";
      Newline(0);
      Appended(o, x, NewlineText(separator, 0));
    }

    /** The fields block of a source, at the current level. */
    method VisitFields(fs: seq<Field>)
      requires AllPrintableFields(fs)
      modifies this
      ensures out == old(out) + FieldsBlock(jvm, separator, fs, old(indent)) && indent == old(indent)
    {
      if |fs| == 0 {
        return;
      }
      ghost var o := out;
      var i := 0;
      while i < |fs|
        invariant 0 <= i <= |fs| && indent == old(indent)
        invariant out == o + FieldLines(jvm, separator, fs, i, indent)
        decreases |fs| - i
      {
        ghost var w := FieldLines(jvm, separator, fs, i, indent);
        ghost var m := out;
        Newline(indent);
        VisitField(fs[i]);
        Appended(m, NewlineText(separator, indent), FieldText(jvm, fs[i]));
        Appended(o, w, NewlineText(separator, indent) + FieldText(jvm, fs[i]));
        FieldLinesNext(jvm, separator, fs, i, indent);
        i := i + 1;
      }
      Newline(0);
      Appended(o, FieldLines(jvm, separator, fs, |fs|, indent), NewlineText(separator, 0));
    }

    /** The methods of a source, each followed by a line break, at the current level. */
    method VisitMethods(ms: seq<Method>)
      requires AllPrintableMethods(ms)
      modifies this
      ensures out == old(out) + MethodLines(jvm, separator, ms, |ms|, old(indent)) && indent == old(indent)
    {
      ghost var o := out;
      var i := 0;
      while i < |ms|
        invariant 0 <= i <= |ms| && indent == old(indent)
        invariant out == o + MethodLines(jvm, separator, ms, i, indent)
        decreases |ms| - i
      {
        ghost var w := MethodLines(jvm, separator, ms, i, indent);
        VisitMethodLine(ms[i]);
        Appended(o, w, MethodLine(jvm, separator, ms[i], indent));
        MethodLinesNext(jvm, separator, ms, i, indent);
        i := i + 1;
      }
    }

    /** One method of the source's loop: a new line at the current level, the method, a line break. */
    method VisitMethodLine(m: Method)
      requires PrintableMethod(m)
      modifies this
      ensures out == old(out) + MethodLine(jvm, separator, m, old(indent)) && indent == old(indent)
    {
      ghost var o := out;
      ghost var line := NewlineText(separator, indent);
      ghost var t := MethodText(jvm, separator, m, indent);
      Newline(indent);
      VisitMethod(m);
      Appended(o, line, t);
      Newline(0);
      Appended(o, line + t, NewlineText(separator, 0));
    }
  }
}
