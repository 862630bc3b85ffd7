/**
 * Properties of the interpreter's evaluation rules: the repeated visits of an
 * arithmetic node's left operand change nothing, so evaluation as written agrees
 * with the single-evaluation reference; and the behaviour of the operators, the
 * loop, the declaration and the return signal.
 */
module InterpreterFacts {
  import opened Common
  import opened Environment
  import opened Ast
  import opened InterpreterSpec
  import N = Numbers

  /** Visiting e from sc gives e's reference value and binds the names it reaches to NIL. */
  predicate MatchesReference(same: (Value, Value) -> bool, sc: Runtime, e: Expr)
    requires |sc| > 0
  {
    Eval(same, sc, e) == Evaluated(ValueOf(same, e), BindNils(sc, Touched(same, e)))
  }

  /** The scope chain after one visit of a binary node's left operand. */
  function AfterLeft(same: (Value, Value) -> bool, sc: Runtime, e: Expr): (r: Runtime)
    requires |sc| > 0 && e.Binary?
    ensures |r| == |sc|
  {
    BindNils(sc, Touched(same, e.left))
  }

  /** The operands' visits that a binary node's evaluation can make agree with the reference. */
  predicate OperandsMatch(same: (Value, Value) -> bool, sc: Runtime, e: Expr)
    requires |sc| > 0 && e.Binary?
  {
    && MatchesReference(same, sc, e.left)
    && MatchesReference(same, AfterLeft(same, sc, e), e.left)
    && MatchesReference(same, AfterLeft(same, sc, e), e.right)
  }

  /** The end of an arithmetic chain once the test for `kind` held: the right operand and the operation. */
  function ChainTail(same: (Value, Value) -> bool, sc: Runtime, e: Expr, kind: Kind, v: Value): (r: Evaluated)
    requires |sc| > 0 && e.Binary? && e.op in ArithmeticOps && kind in ArithKinds(e.op) && IsInstance(kind, v)
  {
    var b := Eval(same, sc, e.right);
    if b.result.Err? then b
    else if !IsInstance(kind, b.result.value) then Evaluated(Err(RuntimeError), b.scope)
    else Evaluated(Arithmetic(e.op, v, b.result.value), b.scope)
  }

  /**
   * From test k on, the chain behaves as one visit of the left operand followed
   * by the first test that holds: the visits for the other tests and for the
   * cast bind nothing new and give the same value.
   */
  lemma {:induction false} ChainAgrees(same: (Value, Value) -> bool, sc: Runtime, e: Expr, k: nat)
    requires |sc| > 0 && e.Binary? && e.op in ArithmeticOps && k < |ArithKinds(e.op)|
    requires MatchesReference(same, sc, e.left) && MatchesReference(same, AfterLeft(same, sc, e), e.left)
    requires ValueOf(same, e.left).Ok?
    ensures var kinds := ArithKinds(e.op);
      var j := FirstInstance(kinds, k, ValueOf(same, e.left).value);
      EvalChain(same, sc, e, kinds, k) ==
        if j == |kinds| then Evaluated(Err(RuntimeError), AfterLeft(same, sc, e))
        else ChainTail(same, AfterLeft(same, sc, e), e, kinds[j], ValueOf(same, e.left).value)
    decreases |ArithKinds(e.op)| - k
  {
    var kinds := ArithKinds(e.op);
    var v := ValueOf(same, e.left).value;
    var tl := Touched(same, e.left);
    var s1 := AfterLeft(same, sc, e);
    BindNilsTwice(sc, tl, tl);
    assert tl + tl == tl;
    assert AfterLeft(same, s1, e) == s1;
    if !IsInstance(kinds[k], v) && k + 1 < |kinds| {
      ChainAgrees(same, s1, e, k + 1);
    }
  }

  lemma LogicalAgrees(same: (Value, Value) -> bool, sc: Runtime, e: Expr)
    requires |sc| > 0 && e.Binary? && (e.op in AndOps || e.op in OrOps) && OperandsMatch(same, sc, e)
    ensures EvalLogical(same, sc, e) == Evaluated(ValueOf(same, e), BindNils(sc, Touched(same, e)))
  {
    OperandsAgree(same, sc, e);
  }

  lemma ComparisonAgrees(same: (Value, Value) -> bool, sc: Runtime, e: Expr)
    requires |sc| > 0 && e.Binary? && e.op in ComparisonOps && OperandsMatch(same, sc, e)
    ensures EvalComparison(same, sc, e) == Evaluated(ValueOf(same, e), BindNils(sc, Touched(same, e)))
  {
    OperandsAgree(same, sc, e);
    var lv, rv := ValueOf(same, e.left), ValueOf(same, e.right);
    if lv.Ok? && IsInstance(ComparableKind, lv.value) && rv.Ok? {
      assert BinaryValue(same, e.op, lv, rv) == Combine(same, e.op, lv.value, rv.value);
    }
  }

  lemma EqualityAgrees(same: (Value, Value) -> bool, sc: Runtime, e: Expr)
    requires |sc| > 0 && e.Binary? && e.op in EqualityOps && OperandsMatch(same, sc, e)
    ensures EvalEquality(same, sc, e) == Evaluated(ValueOf(same, e), BindNils(sc, Touched(same, e)))
  {
    OperandsAgree(same, sc, e);
    var lv, rv := ValueOf(same, e.left), ValueOf(same, e.right);
    if lv.Ok? && rv.Ok? {
      var t := same(lv.value, rv.value);
      assert BinaryValue(same, e.op, lv, rv) == Combine(same, e.op, lv.value, rv.value)
        == Ok(VBool(if e.op == "==" then t else !t));
    }
  }

  /** The two operand visits of a binary node, and the reference value and names of the node, spelled out. */
  lemma OperandsAgree(same: (Value, Value) -> bool, sc: Runtime, e: Expr)
    requires |sc| > 0 && e.Binary? && IsOperator(e.op) && OperandsMatch(same, sc, e)
    ensures var tl, tr := Touched(same, e.left), Touched(same, e.right);
      var lv, rv := ValueOf(same, e.left), ValueOf(same, e.right);
      && Eval(same, sc, e.left) == Evaluated(lv, BindNils(sc, tl))
      && Eval(same, BindNils(sc, tl), e.right) == Evaluated(rv, BindNils(sc, tl + tr))
      && ValueOf(same, e) == BinaryValue(same, e.op, lv, rv)
      && Touched(same, e) == (if RightEvaluated(e.op, lv) then tl + tr else tl)
  {
    var tl, tr := Touched(same, e.left), Touched(same, e.right);
    BindNilsTwice(sc, tl, tr);
    assert tl + {} == tl;
  }

  lemma ArithmeticAgrees(same: (Value, Value) -> bool, sc: Runtime, e: Expr)
    requires |sc| > 0 && e.Binary? && e.op in ArithmeticOps && OperandsMatch(same, sc, e)
    ensures EvalChain(same, sc, e, ArithKinds(e.op), 0) == Evaluated(ValueOf(same, e), BindNils(sc, Touched(same, e)))
  {
    var tl, tr := Touched(same, e.left), Touched(same, e.right);
    var lv, rv := ValueOf(same, e.left), ValueOf(same, e.right);
    var kinds := ArithKinds(e.op);
    assert ValueOf(same, e) == BinaryValue(same, e.op, lv, rv);
    assert Touched(same, e) == tl + (if RightEvaluated(e.op, lv) then tr else {});
    if lv.Err? {
      assert tl + {} == tl;
    } else {
      ChainAgrees(same, sc, e, 0);
      var j := FirstInstance(kinds, 0, lv.value);
      if j == |kinds| {
        assert !RightEvaluated(e.op, lv);
        assert tl + {} == tl;
      } else {
        assert RightEvaluated(e.op, lv);
        BindNilsTwice(sc, tl, tr);
        var s1 := AfterLeft(same, sc, e);
        assert Eval(same, s1, e.right) == Evaluated(rv, BindNils(sc, tl + tr));
      }
    }
  }

  lemma BinaryAgrees(same: (Value, Value) -> bool, sc: Runtime, e: Expr)
    requires |sc| > 0 && e.Binary? && OperandsMatch(same, sc, e)
    ensures EvalBinary(same, sc, e) == Evaluated(ValueOf(same, e), BindNils(sc, Touched(same, e)))
  {
    if e.op in AndOps || e.op in OrOps {
      LogicalAgrees(same, sc, e);
    } else if e.op in ComparisonOps {
      ComparisonAgrees(same, sc, e);
    } else if e.op in EqualityOps {
      EqualityAgrees(same, sc, e);
    } else if e.op in ArithmeticOps {
      ArithmeticAgrees(same, sc, e);
    } else {
      BindNilsNothing(sc);
    }
  }

  /**
   * Evaluation as written agrees with the reference semantics: the value never
   * depends on the scope chain, and the only change to the scope chain is NIL
   * bindings, in the current frame, of the names the evaluation reaches. In
   * particular the repeated visits of a left operand are harmless.
   */
  lemma {:induction false} EvalAgreesWithReference(same: (Value, Value) -> bool, sc: Runtime, e: Expr)
    requires |sc| > 0
    ensures MatchesReference(same, sc, e)
    decreases e
  {
    match e
    case Literal(_, _) =>
      BindNilsNothing(sc);
    case Group(x, _) =>
      EvalAgreesWithReference(same, sc, x);
    case Binary(_, l, r, _) =>
      EvalAgreesWithReference(same, sc, l);
      EvalAgreesWithReference(same, AfterLeft(same, sc, e), l);
      EvalAgreesWithReference(same, AfterLeft(same, sc, e), r);
      BinaryAgrees(same, sc, e);
    case Access(recv, name, _) =>
      if recv.Some? {
        EvalAgreesWithReference(same, sc, recv.value);
      } else {
        DefineNilIsBindNils(sc, name);
      }
    case FunctionCall(_, _, _, _) =>
      BindNilsNothing(sc);
  }

  /** Visiting an expression a second time gives the same value and leaves the scope chain as the first visit left it. */
  lemma EvalTwice(same: (Value, Value) -> bool, sc: Runtime, e: Expr)
    requires |sc| > 0
    ensures var first := Eval(same, sc, e);
      Eval(same, first.scope, e) == first
  {
    var t := Touched(same, e);
    EvalAgreesWithReference(same, sc, e);
    EvalAgreesWithReference(same, BindNils(sc, t), e);
    BindNilsTwice(sc, t, t);
    assert t + t == t;
  }

  // ----- the operators, on the reference semantics (EvalAgreesWithReference carries them over to Eval) -----

  /** OR does not evaluate its right operand once the left is TRUE: the right may fail, and its names stay unbound. */
  lemma OrShortCircuits(same: (Value, Value) -> bool, l: Expr, r: Expr, t: Option<Type>)
    requires ValueOf(same, l) == Ok(VBool(true))
    ensures ValueOf(same, Binary("OR", l, r, t)) == Ok(VBool(true))
    ensures Touched(same, Binary("OR", l, r, t)) == Touched(same, l)
  {
    assert Touched(same, l) + {} == Touched(same, l);
  }

  /**
   * AND evaluates both operands whatever the left gives: after a FALSE left
   * operand a failing or non-Boolean right operand still decides the outcome.
   */
  lemma AndVisitsBoth(same: (Value, Value) -> bool, l: Expr, r: Expr, t: Option<Type>)
    requires ValueOf(same, l) == Ok(VBool(false))
    ensures var x, rv := ValueOf(same, Binary("AND", l, r, t)), ValueOf(same, r);
      && Touched(same, Binary("AND", l, r, t)) == Touched(same, l) + Touched(same, r)
      && (rv.Err? ==> x == rv)
      && (rv.Ok? && !rv.value.VBool? ==> x == Err(RuntimeError))
      && (rv.Ok? && rv.value.VBool? ==> x == Ok(VBool(false)))
  {
  }

  /** On two Booleans AND and OR are the Boolean connectives; a non-Boolean left operand throws. */
  lemma LogicalOperands(same: (Value, Value) -> bool, op: string, l: Expr, r: Expr, t: Option<Type>)
    requires (op in AndOps || op in OrOps) && ValueOf(same, l).Ok?
    ensures var a, b := ValueOf(same, l).value, ValueOf(same, r);
      var res := ValueOf(same, Binary(op, l, r, t));
      && (!a.VBool? ==> res == Err(RuntimeError))
      && (a.VBool? && b.Ok? && b.value.VBool? ==> res == Ok(VBool(if op in AndOps then a.b && b.value.b else a.b || b.value.b)))
  {
  }

  /** The order a comparison operator tests, on the values' magnitudes. */
  predicate Ordered(op: string, x: real, y: real)
    requires op in ComparisonOps
  {
    if op == "<" then x < y
    else if op == "<=" then x <= y
    else if op == ">" then x > y
    else x >= y
  }

  /**
   * Integers and decimals compare by value: for decimals the scale plays no part,
   * so `1.0 < 1.00` is FALSE and `1.0 <= 1.00` is TRUE.
   */
  lemma ComparisonOfNumbers(same: (Value, Value) -> bool, op: string, l: Expr, r: Expr, t: Option<Type>)
    requires op in ComparisonOps && ValueOf(same, l).Ok? && ValueOf(same, r).Ok?
    ensures var a, b := ValueOf(same, l).value, ValueOf(same, r).value;
      var res := ValueOf(same, Binary(op, l, r, t));
      && (a.VInt? && b.VInt? ==> res == Ok(VBool(Ordered(op, a.i as real, b.i as real))))
      && (a.VDec? && b.VDec? ==> res == Ok(VBool(Ordered(op, N.Value(a.d), N.Value(b.d)))))
  {
  }

  /** A comparison throws on a NIL (non-Comparable) left operand and on operands of two different classes. */
  lemma ComparisonNeedsOneClass(same: (Value, Value) -> bool, op: string, l: Expr, r: Expr, t: Option<Type>)
    requires op in ComparisonOps && ValueOf(same, l).Ok? && ValueOf(same, r).Ok?
    ensures var a, b := ValueOf(same, l).value, ValueOf(same, r).value;
      var res := ValueOf(same, Binary(op, l, r, t));
      && (!IsInstance(ComparableKind, a) ==> res == Err(RuntimeError))
      && (IsInstance(ComparableKind, a) && !IsInstance(ClassOf(a), b) ==> res == Err(RuntimeError))
  {
  }

  /** String compareTo is antisymmetric. */
  lemma {:induction false} CompareStringsAntisymmetric(a: string, b: string)
    ensures CompareStrings(a, b) == -CompareStrings(b, a)
    decreases |a|
  {
    if |a| > 0 && |b| > 0 && a[0] == b[0] {
      CompareStringsAntisymmetric(a[1..], b[1..]);
    }
  }

  /** A proper prefix comes first. */
  lemma {:induction false} CompareStringsPrefix(a: string, b: string)
    requires |a| < |b| && a == b[..|a|]
    ensures CompareStrings(a, b) == -1
    decreases |a|
  {
    if |a| > 0 {
      assert a[0] == b[0];
      assert a[1..] == b[1..][..|a| - 1];
      CompareStringsPrefix(a[1..], b[1..]);
    }
  }

  /** compareTo between two values of one class is antisymmetric. */
  lemma CompareValuesAntisymmetric(a: Value, b: Value)
    requires IsInstance(ComparableKind, a) && IsInstance(ClassOf(a), b)
    ensures IsInstance(ComparableKind, b) && ClassOf(b) == ClassOf(a)
    ensures CompareValues(a, b) == -CompareValues(b, a)
  {
    if a.VString? {
      CompareStringsAntisymmetric(a.s, b.s);
    }
  }

  /** With operands of one class, `l < r` and `r > l` agree, and so do `l <= r` and `r >= l`. */
  lemma ComparisonConverse(same: (Value, Value) -> bool, l: Expr, r: Expr, t: Option<Type>, t': Option<Type>)
    requires ValueOf(same, l).Ok? && ValueOf(same, r).Ok?
    requires IsInstance(ComparableKind, ValueOf(same, l).value)
    requires IsInstance(ClassOf(ValueOf(same, l).value), ValueOf(same, r).value)
    ensures ValueOf(same, Binary("<", l, r, t)) == ValueOf(same, Binary(">", r, l, t'))
    ensures ValueOf(same, Binary("<=", l, r, t)) == ValueOf(same, Binary(">=", r, l, t'))
  {
    CompareValuesAntisymmetric(ValueOf(same, l).value, ValueOf(same, r).value);
  }

  /** `!=` is the negation of `==` on the same operands, and `==` is the reference comparison. */
  lemma NotEqualNegatesEqual(same: (Value, Value) -> bool, l: Expr, r: Expr, t: Option<Type>, t': Option<Type>)
    requires ValueOf(same, l).Ok? && ValueOf(same, r).Ok?
    ensures var eq := ValueOf(same, Binary("==", l, r, t));
      && eq == Ok(VBool(same(ValueOf(same, l).value, ValueOf(same, r).value)))
      && ValueOf(same, Binary("!=", l, r, t')) == Ok(VBool(!eq.value.b))
  {
  }

  /** Operands an arithmetic operator computes on pass its tests and reach the operation. */
  lemma CombineArithmetic(same: (Value, Value) -> bool, op: string, a: Value, b: Value)
    requires op in ArithmeticOps && ArithmeticOperands(op, a, b)
    ensures LeftAccepted(op, a) && Combine(same, op, a, b) == Arithmetic(op, a, b)
  {
    var kinds := ArithKinds(op);
    var j := if a.VDec? then 0 else if a.VInt? then 1 else 2;
    assert FirstInstance(kinds, j, a) == j;
    if j > 0 {
      assert FirstInstance(kinds, j - 1, a) == j;
    }
    if j > 1 {
      assert FirstInstance(kinds, 0, a) == FirstInstance(kinds, 1, a);
    }
  }

  /**
   * `+` adds two integers or two decimals exactly (at the larger scale) and
   * concatenates two strings; any other pair, a string with a non-string
   * included, throws.
   */
  lemma PlusOperands(same: (Value, Value) -> bool, l: Expr, r: Expr, t: Option<Type>)
    requires ValueOf(same, l).Ok? && ValueOf(same, r).Ok?
    ensures var a, b := ValueOf(same, l).value, ValueOf(same, r).value;
      var res := ValueOf(same, Binary("+", l, r, t));
      && (a.VInt? && b.VInt? ==> res == Ok(VInt(a.i + b.i)))
      && (a.VDec? && b.VDec? ==>
            res.Ok? && res.value.VDec? &&
            N.Value(res.value.d) == N.Value(a.d) + N.Value(b.d) && res.value.d.scale == N.Max(a.d.scale, b.d.scale))
      && (a.VString? && b.VString? ==> res == Ok(VString(a.s + b.s)))
      && (!ArithmeticOperands("+", a, b) ==> res == Err(RuntimeError))
  {
    var a, b := ValueOf(same, l).value, ValueOf(same, r).value;
    assert ValueOf(same, Binary("+", l, r, t)) == BinaryValue(same, "+", Ok(a), Ok(b));
    if ArithmeticOperands("+", a, b) {
      CombineArithmetic(same, "+", a, b);
    }
  }

  /** `-`, `*` and `/` need two integers or two decimals; strings included, anything else throws. */
  lemma ArithmeticNeedsNumbers(same: (Value, Value) -> bool, op: string, l: Expr, r: Expr, t: Option<Type>)
    requires op in ArithmeticOps && ValueOf(same, l).Ok? && ValueOf(same, r).Ok?
    requires !ArithmeticOperands(op, ValueOf(same, l).value, ValueOf(same, r).value)
    ensures ValueOf(same, Binary(op, l, r, t)) == Err(RuntimeError)
  {
  }

  /** Integer `-` and `*` are exact; `/` truncates toward zero and throws on a zero divisor. */
  lemma IntegerArithmetic(same: (Value, Value) -> bool, op: string, l: Expr, r: Expr, t: Option<Type>)
    requires op in ArithmeticOps && ValueOf(same, l).Ok? && ValueOf(same, r).Ok?
    requires ValueOf(same, l).value.VInt? && ValueOf(same, r).value.VInt?
    ensures var a, b := ValueOf(same, l).value.i, ValueOf(same, r).value.i;
      var res := ValueOf(same, Binary(op, l, r, t));
      && (op == "-" ==> res == Ok(VInt(a - b)))
      && (op == "*" ==> res == Ok(VInt(a * b)))
      && (op == "/" && b == 0 ==> res == Err(ArithmeticError))
      && (op == "/" && b != 0 ==>
            res.Ok? && res.value.VInt? &&
            N.Abs(a - res.value.i * b) < N.Abs(b) && (a - res.value.i * b) * a >= 0)
  {
    var a, b := ValueOf(same, l).value, ValueOf(same, r).value;
    CombineArithmetic(same, op, a, b);
    assert ValueOf(same, Binary(op, l, r, t)) == BinaryValue(same, op, Ok(a), Ok(b)) == Arithmetic(op, a, b);
    if op == "/" && b.i != 0 {
      var q := N.TruncatedDivide(a.i, b.i);
      assert Arithmetic(op, a, b) == Ok(VInt(q.value));
    }
  }

  /**
   * Decimal `-` and `*` are exact (at the larger scale and at the sum of the
   * scales); `/` keeps the dividend's scale, is within half a unit of the exact
   * quotient, and throws on a zero divisor.
   */
  lemma DecimalArithmetic(same: (Value, Value) -> bool, op: string, l: Expr, r: Expr, t: Option<Type>)
    requires op in ArithmeticOps && ValueOf(same, l).Ok? && ValueOf(same, r).Ok?
    requires ValueOf(same, l).value.VDec? && ValueOf(same, r).value.VDec?
    ensures var a, b := ValueOf(same, l).value.d, ValueOf(same, r).value.d;
      var res := ValueOf(same, Binary(op, l, r, t));
      && (op == "-" ==> res.Ok? && res.value.VDec? && N.Value(res.value.d) == N.Value(a) - N.Value(b))
      && (op == "*" ==>
            res.Ok? && res.value.VDec? &&
            N.Value(res.value.d) == N.Value(a) * N.Value(b) && res.value.d.scale == a.scale + b.scale)
      && (op == "/" && b.unscaled == 0 ==> res == Err(ArithmeticError))
      && (op == "/" && b.unscaled != 0 ==>
            res.Ok? && res.value.VDec? && res.value.d.scale == a.scale &&
            2 * N.Abs(a.unscaled * N.Pow10(b.scale) - res.value.d.unscaled * b.unscaled) <= N.Abs(b.unscaled))
  {
    if op == "/" && ValueOf(same, r).value.d.unscaled != 0 {
      N.DivideIsNearest(ValueOf(same, l).value.d, ValueOf(same, r).value.d);
    }
  }

  /**
   * As written, integer `/` multiplies: 7 / 2 gives 14 and 7 / 0 gives 0, where
   * BigInteger.divide gives 3 and throws.
   */
  lemma IntegerDivisionAsWritten()
    ensures ArithmeticAsWritten("/", VInt(7), VInt(2)) == Ok(VInt(14))
    ensures Arithmetic("/", VInt(7), VInt(2)) == Ok(VInt(3))
    ensures ArithmeticAsWritten("/", VInt(7), VInt(0)) == Ok(VInt(0))
    ensures Arithmetic("/", VInt(7), VInt(0)) == Err(ArithmeticError)
  {
    assert N.TruncatedDivide(7, 2) == Some(3);
  }

  /** An operator outside the switch throws before either operand is visited. */
  lemma UnknownOperatorThrows(same: (Value, Value) -> bool, sc: Runtime, op: string, l: Expr, r: Expr, t: Option<Type>)
    requires |sc| > 0 && !IsOperator(op)
    ensures Eval(same, sc, Binary(op, l, r, t)) == Evaluated(Err(RuntimeError), sc)
  {
  }

  /**
   * An Access without a receiver evaluates to its own name and rebinds that name
   * to NIL in the current frame, whatever it was bound to.
   */
  lemma AccessIsPlaceholder(same: (Value, Value) -> bool, sc: Runtime, name: string, v: Option<Variable>)
    requires |sc| > 0
    ensures var x := Eval(same, sc, Access(None, name, v));
      && x.result == Ok(VString(name))
      && LookupVariable(x.scope, name) == Some(NilVariable(name))
  {
    EvalAccessWithoutReceiver(same, sc, name, v);
    LookupAfterDefine(sc, name, NilVariable(name), name);
  }

  lemma EvalAccessWithoutReceiver(same: (Value, Value) -> bool, sc: Runtime, name: string, v: Option<Variable>)
    requires |sc| > 0
    ensures Eval(same, sc, Access(None, name, v)) == Evaluated(Ok(VString(name)), DefineVariable(sc, name, NilVariable(name)))
  {
  }

  /** A literal evaluates to its value without touching the scope chain; the null literal gives NIL. */
  lemma LiteralValue(same: (Value, Value) -> bool, sc: Runtime, l: LiteralValue, t: Option<Type>)
    requires |sc| > 0
    ensures Eval(same, sc, Literal(l, t)).scope == sc
    ensures Eval(same, sc, Literal(l, t)).result == Ok(VNil) <==> l == NilLit
  {
  }

  // ----- statements -----

  /** A declaration binds its name, as a mutable variable, to the initializer's value or to NIL. */
  lemma DeclarationBinds(same: (Value, Value) -> bool, sc: Runtime, name: string, tn: Option<string>,
                         init: Option<Expr>, v: Option<Variable>, fuel: nat)
    requires |sc| > 0
    requires init.Some? ==> ValueOf(same, init.value).Ok?
    ensures var x := Exec(same, sc, Declaration(name, tn, init, v), fuel);
      && x.signal == Normal
      && LookupVariable(x.scope, name) == Some(RtVariable(name, false, if init.Some? then ValueOf(same, init.value).value else VNil))
  {
    if init.Some? {
      EvalAgreesWithReference(same, sc, init.value);
      var e := Eval(same, sc, init.value);
      LookupAfterDefine(e.scope, name, RtVariable(name, false, e.result.value), name);
    } else {
      LookupAfterDefine(sc, name, NilVariable(name), name);
    }
  }

  /** A failing initializer throws and defines nothing more. */
  lemma DeclarationFails(same: (Value, Value) -> bool, sc: Runtime, name: string, tn: Option<string>,
                         init: Expr, v: Option<Variable>, fuel: nat)
    requires |sc| > 0 && ValueOf(same, init).Err?
    ensures Exec(same, sc, Declaration(name, tn, Some(init), v), fuel)
      == Executed(Thrown(ValueOf(same, init).error), BindNils(sc, Touched(same, init)))
  {
    EvalAgreesWithReference(same, sc, init);
  }

  /** Return ends with the Return signal, carrying the value wrapped in one more object. */
  lemma ReturnWraps(same: (Value, Value) -> bool, sc: Runtime, x: Expr, fuel: nat)
    requires |sc| > 0 && ValueOf(same, x).Ok?
    ensures Exec(same, sc, Return(x), fuel).signal == Returning(VObject(ValueOf(same, x).value))
  {
    EvalAgreesWithReference(same, sc, x);
  }

  /** A loop whose condition is FALSE does not run its body: only the condition's visit shows. */
  lemma WhileFalseSkipsBody(same: (Value, Value) -> bool, sc: Runtime, s: Stmt, fuel: nat)
    requires |sc| > 0 && s.While? && fuel > 0 && ValueOf(same, s.condition) == Ok(VBool(false))
    ensures ExecWhile(same, sc, s, fuel) == Executed(Normal, BindNils(sc, Touched(same, s.condition)))
  {
    EvalAgreesWithReference(same, sc, s.condition);
  }

  /** A condition that is not a Boolean throws: a placeholder Access, say, is a string. */
  lemma WhileNeedsBoolean(same: (Value, Value) -> bool, sc: Runtime, s: Stmt, fuel: nat)
    requires |sc| > 0 && s.While? && fuel > 0
    requires ValueOf(same, s.condition).Ok? && !ValueOf(same, s.condition).value.VBool?
    ensures ExecWhile(same, sc, s, fuel).signal == Thrown(RuntimeError)
  {
    EvalAgreesWithReference(same, sc, s.condition);
  }

  /**
   * However the loop ends, the frames its iterations opened are closed again: the
   * scope chain is the one the condition's visits leave, since the body's own
   * bindings live in the child frames.
   */
  lemma {:induction false} WhileRestoresScope(same: (Value, Value) -> bool, sc: Runtime, s: Stmt, fuel: nat)
    requires |sc| > 0 && s.While? && fuel > 0
    ensures ExecWhile(same, sc, s, fuel).scope == BindNils(sc, Touched(same, s.condition))
    decreases fuel
  {
    var t := Touched(same, s.condition);
    EvalAgreesWithReference(same, sc, s.condition);
    var c := Eval(same, sc, s.condition);
    if c.result == Ok(VBool(true)) && fuel > 1 {
      var body := ExecBlock(same, Push(c.scope), s.body, 0, fuel - 1);
      if body.signal == Normal {
        WhileRestoresScope(same, c.scope, s, fuel - 1);
        BindNilsTwice(sc, t, t);
        assert t + t == t;
      }
    }
  }

  /** `WHILE TRUE DO END` never finishes: for any fuel it runs out, and leaves the scope chain unchanged. */
  lemma {:induction false} WhileTrueRunsOut(same: (Value, Value) -> bool, sc: Runtime, t: Option<Type>, fuel: nat)
    requires |sc| > 0
    ensures ExecWhile(same, sc, While(Literal(BoolLit(true), t), []), fuel) == Executed(OutOfFuel, sc)
    decreases fuel
  {
    if fuel > 0 {
      assert Pop(Push(sc)) == sc;
      WhileTrueRunsOut(same, sc, t, fuel - 1);
    }
  }

  /** A Return in the body leaves the loop at once, carrying its value out. */
  lemma ReturnLeavesWhile(same: (Value, Value) -> bool, sc: Runtime, t: Option<Type>, x: Expr, fuel: nat)
    requires |sc| > 0 && fuel > 0 && ValueOf(same, x).Ok?
    ensures ExecWhile(same, sc, While(Literal(BoolLit(true), t), [Return(x)]), fuel).signal
      == Returning(VObject(ValueOf(same, x).value))
  {
    EvalAgreesWithReference(same, Push(sc), x);
    var ret := Exec(same, Push(sc), Return(x), fuel - 1);
    assert ret.signal == Returning(VObject(ValueOf(same, x).value));
    assert ExecBlock(same, Push(sc), [Return(x)], 0, fuel - 1) == ret;
  }
}
