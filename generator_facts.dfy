/**
 * Properties of the text the generator writes: the list texts are the items
 * joined by their separator, a String or Character literal is written so that
 * the language's own lexer accepts its body and decoding it gives the value
 * back, blocks, fields and calls have the shape the generator's tests expect,
 * and the Hello, World! source is written exactly as its test expects.
 */
module GeneratorFacts {
  import opened Common
  import opened Environment
  import opened Ast
  import opened GeneratorSpec
  import E = Escapes
  import L = LexerSpec

  // ----- the list texts are joins -----

  /** The first k arguments' text is their texts joined with `, `. */
  lemma {:induction false} ArgumentsJoin(args: seq<Expr>, k: nat)
    requires k <= |args| && AllPrintableExprs(args)
    ensures ArgumentsText(args, k) == Join(ExprTexts(args)[..k], ", ")
    decreases k
  {
    var texts := ExprTexts(args);
    var xs := texts[..k];
    if k == 1 {
      assert xs[0] == ExprText(args[0]);
    } else if k >= 2 {
      ArgumentsJoin(args, k - 1);
      assert xs[..k - 1] == texts[..k - 1];
      assert xs[k - 1] == ExprText(args[k - 1]);
      assert Join(xs, ", ") == Join(xs[..k - 1], ", ") + ", " + xs[k - 1];
    }
  }

  /** The first k statements' text is their texts joined with a line break to level n. */
  lemma {:induction false} LinesJoin(jvm: Type -> string, sep: string, ss: seq<Stmt>, k: nat, n: int)
    requires k <= |ss| && AllPrintable(ss)
    ensures LinesText(jvm, sep, ss, k, n) == Join(StmtTexts(jvm, sep, ss, n)[..k], NewlineText(sep, n))
    decreases k
  {
    var xs := StmtTexts(jvm, sep, ss, n)[..k];
    if k >= 2 {
      LinesJoin(jvm, sep, ss, k - 1, n);
      assert xs[..k - 1] == StmtTexts(jvm, sep, ss, n)[..k - 1];
    }
  }

  /** The first k parameters' text is their texts joined with `, `. */
  lemma {:induction false} ParametersJoin(jvm: Type -> string, m: Method, k: nat)
    requires PrintableMethod(m) && k <= |m.parameters|
    ensures ParametersText(jvm, m, k) == Join(ParameterTexts(jvm, m)[..k], ", ")
    decreases k
  {
    var xs := ParameterTexts(jvm, m)[..k];
    if k >= 2 {
      ParametersJoin(jvm, m, k - 1);
      assert xs[..k - 1] == ParameterTexts(jvm, m)[..k - 1];
    }
  }

  // ----- literals -----

  /** An escaped character is a body the lexer's string loop reads in one step. */
  lemma EscapedCharIsStringBody(c: char, rest: string)
    requires L.ValidStringBody(rest)
    ensures L.ValidStringBody(E.EscapeChar(c) + rest)
  {
    var e := E.EscapeChar(c);
    if |e| == 2 {
      assert (e + rest)[2..] == rest;
    } else {
      assert (e + rest)[1..] == rest;
    }
  }

  /** Every escaped string is a String literal body the lexer accepts. */
  lemma {:induction false} EscapedIsStringBody(s: string)
    ensures L.ValidStringBody(E.Escape(s))
    decreases |s|
  {
    if |s| > 0 {
      EscapedIsStringBody(s[1..]);
      EscapedCharIsStringBody(s[0], E.Escape(s[1..]));
    }
  }

  /** A body the lexer accepts holds no line break and no unescaped double quote. */
  lemma {:induction false} StringBodyStaysOnLine(s: string)
    requires L.ValidStringBody(s)
    ensures '\n' !in s && '\r' !in s
    ensures forall i :: 0 <= i < |s| && s[i] == '"' ==> 0 < i && s[i - 1] == '\\'
    decreases |s|
  {
    if |s| > 0 {
      if L.Matches(L.StringBody, s[0]) {
        StringBodyStaysOnLine(s[1..]);
        assert s == [s[0]] + s[1..];
        forall i | 0 <= i < |s| && s[i] == '"'
          ensures 0 < i && s[i - 1] == '\\'
        {
          assert s[1..][i - 1] == s[i];
        }
      } else {
        StringBodyStaysOnLine(s[2..]);
        assert s == s[..2] + s[2..];
        forall i | 0 <= i < |s| && s[i] == '"'
          ensures 0 < i && s[i - 1] == '\\'
        {
          if i >= 2 {
            assert s[2..][i - 2] == s[i];
          }
        }
      }
    }
  }

  /**
   * A String literal is written as a quote, a body the lexer accepts, and a quote,
   * and decoding the body's escapes gives the literal's value back.
   */
  lemma StringLiteralRoundTrip(s: string)
    ensures var t := LiteralText(StringLit(s), STRING);
      && |t| >= 2 && t[0] == '"' && t[|t| - 1] == '"'
      && L.ValidStringBody(t[1..|t| - 1])
      && E.DecodeEscapes(t[1..|t| - 1]) == s
  {
    var t := LiteralText(StringLit(s), STRING);
    assert t[1..|t| - 1] == E.Escape(s);
    EscapedIsStringBody(s);
    E.DecodeEscapeRoundTrip(s);
  }

  /**
   * A Character literal is written as a single quote, one character or one escape,
   * and a single quote, and decoding gives the character back.
   */
  lemma CharacterLiteralRoundTrip(c: char)
    ensures var t := LiteralText(CharLit(c), CHARACTER);
      && (|t| == 3 || |t| == 4) && t[0] == '\'' && t[|t| - 1] == '\''
      && (|t| == 4 ==> t[1] == '\\')
      && E.DecodeEscapes(t[1..|t| - 1]) == [c]
  {
    var t := LiteralText(CharLit(c), CHARACTER);
    assert E.Escape([c]) == E.EscapeChar(c) + E.Escape([]);
    assert t[1..|t| - 1] == E.EscapeChar(c);
    E.DecodeEscapedChar(c, "");
    assert E.EscapeChar(c) + "" == E.EscapeChar(c);
  }

  /** A string without a character that needs escaping is written unchanged. */
  lemma {:induction false} EscapeKeepsPlain(s: string)
    requires forall i :: 0 <= i < |s| ==> E.EscapeChar(s[i]) == [s[i]]
    ensures E.Escape(s) == s
    decreases |s|
  {
    if |s| > 0 {
      EscapeKeepsPlain(s[1..]);
      assert E.EscapeChar(s[0]) == [s[0]];
      assert [s[0]] + s[1..] == s;
    }
  }

  /**
   * As written, the String literal holding a line feed (the value of the source
   * text `"\n"`) is written with a raw line feed between the quotes, which is not
   * a String literal body; re-escaped, it is `"\n"` again.
   */
  lemma AsWrittenLiteralBreaksLine()
    ensures LiteralTextAsWritten(StringLit("\n"), STRING) == "\"\n\""
    ensures !L.ValidStringBody("\n")
    ensures LiteralText(StringLit("\n"), STRING) == "\"\\n\""
  {
    assert E.Escape("\n") == E.EscapeChar('\n') + E.Escape("");
  }

  // ----- statements, fields and the class -----

  /** A field is written as the Declaration of its name, marked `final` when constant. */
  lemma FieldIsDeclaration(jvm: Type -> string, sep: string, f: Field, n: int)
    requires PrintableField(f)
    ensures var d := Declaration(f.name, Some(f.typeName), f.value, f.variable);
      && PrintableStmt(d)
      && FieldText(jvm, f) == (if f.constant then "final " else "") + StmtText(jvm, sep, d, n)
  {
  }

  /**
   * A block's inside is empty for no statements; otherwise it is the statements
   * joined with line breaks to level n + 1, after a line break to that level and
   * before a line break back to level n.
   */
  lemma BodyShape(jvm: Type -> string, sep: string, ss: seq<Stmt>, n: int)
    requires AllPrintable(ss)
    ensures |ss| == 0 ==> BodyText(jvm, sep, ss, n) == ""
    ensures |ss| > 0 ==>
      BodyText(jvm, sep, ss, n)
      == NewlineText(sep, n + 1) + Join(StmtTexts(jvm, sep, ss, n + 1), NewlineText(sep, n + 1)) + NewlineText(sep, n)
  {
    if |ss| > 0 {
      LinesJoin(jvm, sep, ss, |ss|, n + 1);
      assert StmtTexts(jvm, sep, ss, n + 1)[..|ss|] == StmtTexts(jvm, sep, ss, n + 1);
    }
  }

  /** A call's text is the function's JVM name and the arguments joined with `, ` in parentheses. */
  lemma CallShape(recv: Option<Expr>, name: string, args: seq<Expr>, f: Function)
    requires Printable(FunctionCall(recv, name, args, Some(f)))
    ensures ExprText(FunctionCall(recv, name, args, Some(f)))
         == ReceiverText(recv) + f.jvmName + "(" + Join(ExprTexts(args), ", ") + ")"
  {
    ArgumentsJoin(args, |args|);
    assert ExprTexts(args)[..|args|] == ExprTexts(args);
  }

  // ----- the generator's tests, with the line separator "\n" -----

  /** `LET name: Integer;` is written `int name;`. */
  lemma DeclarationExample(jvm: Type -> string)
    requires jvm(INTEGER) == "int"
    ensures StmtText(jvm, "\n", Declaration("name", Some("Integer"), None, Some(Variable("name", "name", INTEGER, false))), 0)
         == "int name;"
  {
  }

  /** `TRUE && FALSE` is written `true && false`. */
  lemma BinaryExample()
    ensures ExprText(Binary("&&", Literal(BoolLit(true), Some(BOOLEAN)), Literal(BoolLit(false), Some(BOOLEAN)), Some(BOOLEAN)))
         == "true && false"
  {
  }

  /** The layout of the wrapper at level 1, as a flat concatenation of its lines. */
  lemma WrapperLayout(header: string, call: string, text: string)
    requires text == "\n    " + header + "\n        " + call + "\n    " + "}" + "\n"
    ensures text == "\n" + "    " + header + "\n" + "        " + call + "\n" + "    " + "}" + "\n"
  {
    assert "\n        " == "\n" + "        ";
    assert "\n    " == "\n" + "    ";
  }

  /** The `main(String[])` wrapper at level 1, with the line separator "\n". */
  lemma MainWrapperExample()
    ensures MainWrapper("\n", 1)
         == "\n" + "    " + "public static void main(String[] args) {"
          + "\n" + "        " + "System.exit(new Main().main());"
          + "\n" + "    " + "}" + "\n"
  {
    assert Indentation(1) == "    ";
    assert Indentation(2) == Indentation(1) + "    ";
    assert NewlineText("\n", 1) == "\n    ";
    assert NewlineText("\n", 2) == "\n        ";
    assert NewlineText("\n", 0) == "\n";
    WrapperLayout(MainHeader, MainCall, MainWrapper("\n", 1));
  }

  /** A string without a character that needs escaping is written back unchanged. */
  lemma HelloIsPlain(hello: string)
    requires hello == "Hello, World!"
    ensures E.Escape(hello) == hello
  {
    forall i | 0 <= i < |hello| ensures E.EscapeChar(hello[i]) == [hello[i]] {}
    EscapeKeepsPlain(hello);
  }

  /** `print(s)` is written as a call of `System.out.println` on the String literal's text. */
  lemma PrintStatementText(jvm: Type -> string, call: Expr, s: string, n: int)
    requires call == FunctionCall(None, "print", [Literal(StringLit(s), Some(STRING))],
                                  Some(Function("print", "System.out.println", [ANY], NIL)))
    ensures Printable(call)
    ensures StmtText(jvm, "\n", Expression(call), n)
         == "System.out.println" + "(" + ("\"" + E.Escape(s) + "\"") + ")" + ";"
  {
    var lit := Literal(StringLit(s), Some(STRING));
    assert call.args[0] == lit;
    assert AllPrintableExprs(call.args);
    assert ArgumentsText(call.args, 1) == ExprText(lit);
    var text := ("System.out.println" + "(") + ExprText(lit) + ")";
    assert ExprText(call) == "" + text;
    assert "" + text == text;
  }

  /** The layout of a two-statement block at level 1, as a flat concatenation of its lines. */
  lemma TwoLineBlockLayout(header: string, t1: string, t2: string, body: string, text: string)
    requires body == "\n        " + (t1 + "\n        " + t2) + "\n    "
    requires text == header + body + "}"
    ensures text == header + "\n" + "        " + t1 + "\n" + "        " + t2 + "\n" + "    " + "}"
  {
    assert "\n        " == "\n" + "        ";
    assert "\n    " == "\n" + "    ";
    assert body == "\n" + "        " + t1 + "\n" + "        " + t2 + "\n" + "    ";
  }

  /** A method `int main()` of two statements, written at level 1. */
  lemma TwoStatementMainText(jvm: Type -> string, main: Method, s1: Stmt, s2: Stmt)
    requires jvm(INTEGER) == "int" && PrintableStmt(s1) && PrintableStmt(s2)
    requires main == Method("main", [], [], Some("Integer"), [s1, s2], Some(Function("main", "main", [], INTEGER)))
    ensures PrintableMethod(main)
    ensures MethodText(jvm, "\n", main, 1)
         == "int main() {"
          + "\n" + "        " + StmtText(jvm, "\n", s1, 2)
          + "\n" + "        " + StmtText(jvm, "\n", s2, 2)
          + "\n" + "    " + "}"
  {
    var body := main.statements;
    assert body[0] == s1 && body[1] == s2;
    assert AllPrintable(body);
    assert Indentation(1) == "    ";
    assert Indentation(2) == Indentation(1) + "    ";
    var line := NewlineText("\n", 2);
    assert line == "\n        ";
    assert NewlineText("\n", 1) == "\n    ";
    var t1, t2 := StmtText(jvm, "\n", s1, 2), StmtText(jvm, "\n", s2, 2);
    assert LinesText(jvm, "\n", body, 2, 2) == t1 + line + t2;
    var bt := BodyText(jvm, "\n", body, 1);
    assert bt == "\n        " + (t1 + "\n        " + t2) + "\n    ";
    assert ParametersText(jvm, main, 0) == "";
    assert ("int" + " ") + ("main" + "(") + "" + ") {" == "int main() {";
    assert MethodText(jvm, "\n", main, 1) == "int main() {" + bt + "}";
    TwoLineBlockLayout("int main() {", t1, t2, bt, MethodText(jvm, "\n", main, 1));
  }

  /**
   * A source without fields and with one method is the class header, the wrapper at
   * level 1, the method on its own line at level 1 and a blank line, and the closing brace.
   */
  lemma OneMethodSourceText(jvm: Type -> string, main: Method)
    requires PrintableMethod(main)
    ensures PrintableSource(Source([], [main]))
    ensures SourceText(jvm, "\n", Source([], [main]), 0)
         == "public class Main {" + "\n" + MainWrapper("\n", 1)
          + ("\n" + "    " + MethodText(jvm, "\n", main, 1) + "\n") + "\n" + "}"
  {
    assert [main][0] == main;
    assert Indentation(1) == "    ";
    assert NewlineText("\n", 0) == "\n";
    assert NewlineText("\n", 1) == "\n" + "    ";
    assert MethodLines(jvm, "\n", [main], 1, 1) == "" + MethodLine(jvm, "\n", main, 1);
    assert "" + MethodLine(jvm, "\n", main, 1) == MethodLine(jvm, "\n", main, 1);
    assert FieldsBlock(jvm, "\n", [], 1) == "";
    assert ClassHeader + "\n" + "" == "public class Main {" + "\n";
  }

  /** The text of `print("Hello, World!");` as one string. */
  lemma HelloPrintLayout(hello: string, text: string)
    requires hello == "Hello, World!"
    requires text == "System.out.println" + "(" + ("\"" + hello + "\"") + ")" + ";"
    ensures text == "System.out.println(\"Hello, World!\");"
  {
  }

  /**
   * The Hello, World! test: a source of one `main` method that prints a string and
   * returns 0 is written as the class header, a blank line, the `main(String[])`
   * wrapper at level 1, a blank line, the method at level 1 with its statements at
   * level 2, a blank line and the closing brace.
   */
  lemma SourceExample(jvm: Type -> string, hello: string)
    requires jvm(INTEGER) == "int" && hello == "Hello, World!"
    ensures var println := Function("print", "System.out.println", [ANY], NIL);
      var body := [Expression(FunctionCall(None, "print", [Literal(StringLit(hello), Some(STRING))], Some(println))),
                   Return(Literal(IntLit(0), Some(INTEGER)))];
      var main := Method("main", [], [], Some("Integer"), body, Some(Function("main", "main", [], INTEGER)));
      && PrintableSource(Source([], [main]))
      && SourceText(jvm, "\n", Source([], [main]), 0)
         == "public class Main {" + "\n"
          + ("\n" + "    " + "public static void main(String[] args) {"
             + "\n" + "        " + "System.exit(new Main().main());"
             + "\n" + "    " + "}" + "\n")
          + ("\n" + "    " + ("int main() {"
                              + "\n" + "        " + "System.out.println(\"Hello, World!\");"
                              + "\n" + "        " + "return 0;"
                              + "\n" + "    " + "}") + "\n")
          + "\n" + "}"
  {
    var call := FunctionCall(None, "print", [Literal(StringLit(hello), Some(STRING))],
                             Some(Function("print", "System.out.println", [ANY], NIL)));
    var ret := Return(Literal(IntLit(0), Some(INTEGER)));
    var main := Method("main", [], [], Some("Integer"), [Expression(call), ret],
                       Some(Function("main", "main", [], INTEGER)));
    PrintStatementText(jvm, call, hello, 2);
    HelloIsPlain(hello);
    HelloPrintLayout(hello, StmtText(jvm, "\n", Expression(call), 2));
    assert N.IntToString(0) == "0";
    assert StmtText(jvm, "\n", ret, 2) == "return 0;";
    TwoStatementMainText(jvm, main, Expression(call), ret);
    MainWrapperExample();
    OneMethodSourceText(jvm, main);
  }

  /**
   * The statement `print(num + "\n");` of the While test is written with the
   * escape `\n` between the quotes, as the test expects.
   */
  lemma PrintLineFeedExample(num: Variable, value: string)
    requires num.jvmName == "num" && value == "\n"
    ensures var println := Function("print", "System.out.println", [ANY], NIL);
      var arg := Binary("+", Access(None, "num", Some(num)), Literal(StringLit(value), Some(STRING)), Some(STRING));
      var s := Expression(FunctionCall(None, "print", [arg], Some(println)));
      && PrintableStmt(s)
      && StmtText((t: Type) => "", "\n", s, 1) == "System.out.println(num + \"\\n\");"
  {
    var arg := Binary("+", Access(None, "num", Some(num)), Literal(StringLit(value), Some(STRING)), Some(STRING));
    assert [arg][0] == arg;
    assert AllPrintableExprs([arg]);
    AsWrittenLiteralBreaksLine();
    assert LiteralText(StringLit(value), STRING) == LiteralText(StringLit("\n"), STRING);
    var lit := Literal(StringLit(value), Some(STRING));
    assert ExprText(lit) == LiteralText(StringLit(value), STRING);
    assert arg.right == lit;
    assert ExprText(arg.left) == "num";
    assert ExprText(arg) == "num" + " + " + "\"\\n\"";
    assert ArgumentsText([arg], 1) == ExprText(arg);
  }
}
