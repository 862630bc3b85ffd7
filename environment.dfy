/**
 * The language's closed set of types, the bindings the analyzer attaches to the
 * tree, and the chained scope, defined from how the core uses them.
 */
module Environment {
  import opened Common

  /** The registered types, named as the host's type constants are. */
  datatype Type = ANY | NIL | COMPARABLE | BOOLEAN | INTEGER | DECIMAL | CHARACTER | STRING

  /** A type's name in the language (`getName`). */
  function TypeName(t: Type): (r: string)
    ensures |r| > 0
  {
    match t
    case ANY => "Any"
    case NIL => "Nil"
    case COMPARABLE => "Comparable"
    case BOOLEAN => "Boolean"
    case INTEGER => "Integer"
    case DECIMAL => "Decimal"
    case CHARACTER => "Character"
    case STRING => "String"
  }

  /** `getType(name)`: the registered type of that name; an unknown name is an error. */
  function GetType(name: string): (r: Option<Type>)
    ensures r.Some? ==> TypeName(r.value) == name
  {
    if name == "Any" then Some(ANY)
    else if name == "Nil" then Some(NIL)
    else if name == "Comparable" then Some(COMPARABLE)
    else if name == "Boolean" then Some(BOOLEAN)
    else if name == "Integer" then Some(INTEGER)
    else if name == "Decimal" then Some(DECIMAL)
    else if name == "Character" then Some(CHARACTER)
    else if name == "String" then Some(STRING)
    else None
  }

  /** Every type is found again under its own name, so the names are distinct. */
  lemma TypeNameRoundTrip(t: Type)
    ensures GetType(TypeName(t)) == Some(t)
  {
  }

  /** A name is registered exactly when it is some type's name. */
  lemma GetTypeExactly(name: string)
    ensures GetType(name).Some? <==> exists t: Type :: TypeName(t) == name
  {
    if exists t: Type :: TypeName(t) == name {
      var t: Type :| TypeName(t) == name;
      TypeNameRoundTrip(t);
    }
  }

  /** A variable binding as the analyzer records it: declared name, JVM name, type, constness. */
  datatype Variable = Variable(name: string, jvmName: string, typ: Type, constant: bool)

  /** A function binding: declared name, JVM name, parameter types and return type. */
  datatype Function = Function(name: string, jvmName: string, parameterTypes: seq<Type>, returnType: Type)

  /**
   * One scope of the chain: variables by name and functions by name and arity.
   * The analyzer and the interpreter use it with different payloads.
   */
  datatype Frame<V, F> = Frame(variables: map<string, V>, functions: map<(string, nat), F>)

  /** A scope chain, outermost frame first and the current frame last. */
  type Scope<V, F> = seq<Frame<V, F>>

  function EmptyFrame<V, F>(): Frame<V, F> {
    Frame(map[], map[])
  }

  /** `new Scope(scope)`: a fresh, empty child of the current scope. */
  function Push<V, F>(s: Scope<V, F>): (r: Scope<V, F>)
    ensures |r| == |s| + 1 && r[..|s|] == s && r[|s|] == EmptyFrame()
  {
    s + [EmptyFrame()]
  }

  /** `scope.getParent()`: the scope without its current frame. */
  function Pop<V, F>(s: Scope<V, F>): (r: Scope<V, F>)
    requires |s| > 0
    ensures |r| == |s| - 1
  {
    s[..|s| - 1]
  }

  /** `lookupVariable(name)`: the innermost binding of the name; none is an error. */
  function LookupVariable<V, F>(s: Scope<V, F>, name: string): (r: Option<V>)
    ensures r.Some? <==> exists k :: 0 <= k < |s| && name in s[k].variables
    decreases |s|
  {
    if |s| == 0 then None
    else if name in s[|s| - 1].variables then Some(s[|s| - 1].variables[name])
    else LookupVariable(s[..|s| - 1], name)
  }

  /** `lookupFunction(name, arity)`: the innermost function of that name and arity. */
  function LookupFunction<V, F>(s: Scope<V, F>, name: string, arity: nat): (r: Option<F>)
    ensures r.Some? <==> exists k :: 0 <= k < |s| && (name, arity) in s[k].functions
    decreases |s|
  {
    if |s| == 0 then None
    else if (name, arity) in s[|s| - 1].functions then Some(s[|s| - 1].functions[(name, arity)])
    else LookupFunction(s[..|s| - 1], name, arity)
  }

  /** `defineVariable`: binds the name in the current frame, replacing an earlier binding there. */
  function DefineVariable<V, F>(s: Scope<V, F>, name: string, v: V): (r: Scope<V, F>)
    requires |s| > 0
    ensures |r| == |s| && r[..|s| - 1] == s[..|s| - 1]
    ensures r[|s| - 1] == s[|s| - 1].(variables := s[|s| - 1].variables[name := v])
  {
    s[..|s| - 1] + [s[|s| - 1].(variables := s[|s| - 1].variables[name := v])]
  }

  /** `defineFunction`: binds (name, arity) in the current frame. */
  function DefineFunction<V, F>(s: Scope<V, F>, name: string, arity: nat, f: F): (r: Scope<V, F>)
    requires |s| > 0
    ensures |r| == |s| && r[..|s| - 1] == s[..|s| - 1]
    ensures r[|s| - 1] == s[|s| - 1].(functions := s[|s| - 1].functions[(name, arity) := f])
  {
    s[..|s| - 1] + [s[|s| - 1].(functions := s[|s| - 1].functions[(name, arity) := f])]
  }

  /** Only the current frame may have changed: the frames below it are as they were. */
  predicate KeepsOuterFrames<V(==), F(==)>(before: Scope<V, F>, after: Scope<V, F>) {
    |before| > 0 && |after| == |before| && after[..|before| - 1] == before[..|before| - 1]
  }

  /** Popping the child opened by Push gives the scope back (`scope = scope.getParent()`). */
  lemma PushPop<V, F>(s: Scope<V, F>)
    ensures Push(s)[..|s|] == s
  {
  }

  /** A fresh child frame hides nothing: lookups see through it to the parent. */
  lemma LookupThroughPush<V, F>(s: Scope<V, F>, name: string, arity: nat)
    ensures LookupVariable(Push(s), name) == LookupVariable(s, name)
    ensures LookupFunction(Push(s), name, arity) == LookupFunction(s, name, arity)
  {
    assert Push(s)[..|Push(s)| - 1] == s;
  }

  /** A defined variable is found, and every other name resolves as before. */
  lemma {:induction false} LookupAfterDefine<V, F>(s: Scope<V, F>, name: string, v: V, other: string)
    requires |s| > 0
    ensures LookupVariable(DefineVariable(s, name, v), name) == Some(v)
    ensures other != name ==> LookupVariable(DefineVariable(s, name, v), other) == LookupVariable(s, other)
  {
    var r := DefineVariable(s, name, v);
    assert r[..|r| - 1] == s[..|s| - 1];
  }

  /** A defined function is found under its name and arity; other keys resolve as before. */
  lemma {:induction false} LookupAfterDefineFunction<V, F>(s: Scope<V, F>, name: string, arity: nat, f: F,
                                                           other: string, otherArity: nat)
    requires |s| > 0
    ensures LookupFunction(DefineFunction(s, name, arity, f), name, arity) == Some(f)
    ensures (other, otherArity) != (name, arity) ==>
      LookupFunction(DefineFunction(s, name, arity, f), other, otherArity) == LookupFunction(s, other, otherArity)
  {
    var r := DefineFunction(s, name, arity, f);
    assert r[..|r| - 1] == s[..|s| - 1];
  }
}
