/**
  What expressions compute, whatever the operators and the runtime's functions do: the C tree that is meant for an
  expression has the expression's value, where the names it uses stand for what they should.
*/
module LoweredMeaning {
  import Grammar
  import opened CGrammar
  import opened WriterLayout

  /** What the parts of an expression do to values. */
  datatype Machine<!V> = Machine(
    number: nat -> V,
    variable: string -> V,
    infix: (Operator, V, V) -> V,
    negate: V -> V,
    complement: V -> V,
    behind: V -> V,
    address: V -> V,
    cast: (string, V) -> V,
    field: (V, string) -> V,
    fieldBehind: (V, string) -> V,
    call: (V, seq<V>) -> V,
    literal: (string, seq<(string, V)>) -> V,
    decrement: V -> V)

  /** What the source language has and C has not. */
  datatype Surface<!V> = Surface(
    truth: bool -> V,
    join: (V, V) -> V,
    same: (V, V) -> V,
    element: (string, V, V) -> V,
    character: (V, V) -> V)

  // ---------------------------------------------------------------- the value of a tree and of an expression

  function TreeValue<V>(m: Machine<V>, t: Tree): V
    decreases t
  {
    match t
    case Constant(v) => m.number(v)
    case Id(x) => m.variable(x)
    case Compound(T, fields) => m.literal(T, FieldValues(m, fields))
    case Apply(f, args) => m.call(TreeValue(m, f), TreeValues(m, args))
    case Member(a, arrow, field) =>
      if arrow then m.fieldBehind(TreeValue(m, a), field) else m.field(TreeValue(m, a), field)
    case PostDecrement(x) => m.decrement(TreeValue(m, x))
    case PreDecrement(x) => m.decrement(TreeValue(m, x))
    case Prefixed(p, x) => PrefixValue(m, p, TreeValue(m, x))
    case Infix(l, op, r) => m.infix(op, TreeValue(m, l), TreeValue(m, r))
  }

  function PrefixValue<V>(m: Machine<V>, p: Prefix, v: V): V {
    match p
    case Negation => m.negate(v)
    case Complement => m.complement(v)
    case Indirection => m.behind(v)
    case Address => m.address(v)
    case CastTo(T) => m.cast(T, v)
  }

  function TreeValues<V>(m: Machine<V>, ts: seq<Tree>): (vs: seq<V>)
    ensures |vs| == |ts|
    decreases ts
  {
    if ts == [] then [] else [TreeValue(m, ts[0])] + TreeValues(m, ts[1..])
  }

  function FieldValues<V>(m: Machine<V>, fields: seq<Field>): seq<(string, V)>
    decreases fields
  {
    if fields == [] then [] else [(fields[0].name, TreeValue(m, fields[0].value))] + FieldValues(m, fields[1..])
  }

  function Value<V>(m: Machine<V>, s: Surface<V>, e: Expr): V
    decreases e
  {
    match e
    case Integer(v) => m.number(v)
    case Boolean(b) => s.truth(b)
    case Name(x) => m.variable(x)
    case Binary(l, op, r) => m.infix(op, Value(m, s, l), Value(m, s, r))
    case Strings(l, Join, r) => s.join(Value(m, s, l), Value(m, s, r))
    case Strings(l, Same, r) => s.same(Value(m, s, l), Value(m, s, r))
    case Strings(l, Different, r) => m.complement(s.same(Value(m, s, l), Value(m, s, r)))
    case Unary(OpNegate, x) => m.negate(Value(m, s, x))
    case Unary(OpNot, x) => m.complement(Value(m, s, x))
    case AddressOf(x) => m.address(Value(m, s, x))
    case Dereference(x) => m.behind(Value(m, s, x))
    case Conversion(T, x) => m.cast(T, Value(m, s, x))
    case Access(a, true, field) => m.fieldBehind(Value(m, s, a), field)
    case Access(a, false, field) => m.field(Value(m, s, a), field)
    case Call(f, bare, args) =>
      m.call(Value(m, s, f), (if bare then [] else [m.variable("ey_execution_context")]) + Values(m, s, args))
    case Element(T, v, i) => s.element(T, Value(m, s, v), Value(m, s, i))
    case Character(t, i) => s.character(Value(m, s, t), Value(m, s, i))
    case StructLiteral(T, pairs) => m.literal(T, PairValues(m, s, pairs))
  }

  function Values<V>(m: Machine<V>, s: Surface<V>, es: seq<Expr>): seq<V>
    decreases es
  {
    if es == [] then [] else [Value(m, s, es[0])] + Values(m, s, es[1..])
  }

  function PairValues<V>(m: Machine<V>, s: Surface<V>, pairs: seq<WriterLayout.Pair>): seq<(string, V)>
    decreases pairs
  {
    if pairs == [] then [] else [(pairs[0].field, Value(m, s, pairs[0].value))] + PairValues(m, s, pairs[1..])
  }

  /** The runtime's names stand for what the source language has. */
  ghost predicate Implements<V(!new)>(m: Machine<V>, s: Surface<V>) {
    var context := m.variable("ey_execution_context");
    && m.variable("k_true") == s.truth(true) && m.variable("k_false") == s.truth(false)
    && (forall a, b :: m.call(m.variable("ey_runtime_string_join"), [context, a, b]) == s.join(a, b))
    && (forall a, b :: m.call(m.variable("ey_runtime_string_equality"), [context, a, b]) == s.same(a, b))
    && (forall a, b :: m.call(m.variable("ey_runtime_string_get_character"), [context, a, b]) == s.character(a, b))
    && (forall T, a, b ::
          m.behind(m.cast(T + "*", m.call(m.variable("ey_vector_access"), [context, a, b]))) == s.element(T, a, b))
  }

  // ---------------------------------------------------------------- they agree

  lemma RuntimeValue<V>(m: Machine<V>, name: string, a: Tree, b: Tree)
    ensures TreeValue(m, Runtime(name, a, b))
         == m.call(m.variable(name), [m.variable("ey_execution_context"), TreeValue(m, a), TreeValue(m, b)])
  {
    var args := [Id(CONTEXT), a, b];
    assert args[1..] == [a, b] && [a, b][1..] == [b] && [b][1..] == [];
    assert TreeValues(m, [b]) == [TreeValue(m, b)];
    assert TreeValues(m, [a, b]) == [TreeValue(m, a), TreeValue(m, b)];
    assert TreeValues(m, args) == [m.variable(CONTEXT), TreeValue(m, a), TreeValue(m, b)];
  }

  lemma GivenValues<V>(m: Machine<V>, bare: bool, ts: seq<Tree>)
    ensures TreeValues(m, Given(bare, ts))
         == (if bare then [] else [m.variable("ey_execution_context")]) + TreeValues(m, ts)
  {
    if bare {
      assert [] + TreeValues(m, ts) == TreeValues(m, ts);
    } else {
      assert Given(bare, ts)[1..] == ts;
    }
  }

  lemma TruthValue<V(!new)>(m: Machine<V>, s: Surface<V>, b: bool)
    requires Implements(m, s)
    ensures m.variable(TruthName(b)) == s.truth(b)
  {
  }

  lemma StringedValue<V(!new)>(m: Machine<V>, s: Surface<V>, how: StringOperator, a: Tree, b: Tree)
    requires Implements(m, s)
    ensures var x, y := TreeValue(m, a), TreeValue(m, b);
            TreeValue(m, Stringed(how, a, b))
            == if how == Join then s.join(x, y) else if how == Same then s.same(x, y) else m.complement(s.same(x, y))
  {
    hide Runtime;
    RuntimeValue(m, StringFunction(how), a, b);
  }

  lemma ElementValue<V(!new)>(m: Machine<V>, s: Surface<V>, T: string, a: Tree, b: Tree)
    requires Implements(m, s)
    ensures TreeValue(m, Prefixed(Indirection, Prefixed(CastTo(T + "*"), Runtime("ey_vector_access", a, b))))
         == s.element(T, TreeValue(m, a), TreeValue(m, b))
  {
    hide Runtime;
    RuntimeValue(m, "ey_vector_access", a, b);
  }

  lemma CharacterValue<V(!new)>(m: Machine<V>, s: Surface<V>, a: Tree, b: Tree)
    requires Implements(m, s)
    ensures TreeValue(m, Runtime("ey_runtime_string_get_character", a, b))
         == s.character(TreeValue(m, a), TreeValue(m, b))
  {
    hide Runtime;
    RuntimeValue(m, "ey_runtime_string_get_character", a, b);
  }

  /** The tree that is meant has the expression's value. */
  lemma {:induction false} LoweredValue<V(!new)>(m: Machine<V>, s: Surface<V>, e: Expr)
    requires Implements(m, s)
    ensures TreeValue(m, Lower(e)) == Value(m, s, e)
    decreases e, 1
  {
    hide Implements;
    match e
    case Integer(v) =>
    case Boolean(b) => TruthValue(m, s, b);
    case Name(x) =>
    case Binary(l, _, r) =>
      LoweredValue(m, s, l);
      LoweredValue(m, s, r);
    case Unary(_, x) => LoweredValue(m, s, x);
    case AddressOf(x) => LoweredValue(m, s, x);
    case Dereference(x) => LoweredValue(m, s, x);
    case Conversion(_, x) => LoweredValue(m, s, x);
    case Access(a, _, _) => LoweredValue(m, s, a);
    case _ => LoweredCall(m, s, e);
  }

  /** What is written as a call, or as a literal. */
  lemma {:induction false} LoweredCall<V(!new)>(m: Machine<V>, s: Surface<V>, e: Expr)
    requires Implements(m, s)
    requires e.Strings? || e.Call? || e.Element? || e.Character? || e.StructLiteral?
    ensures TreeValue(m, Lower(e)) == Value(m, s, e)
    decreases e, 0
  {
    hide Runtime, Implements, Stringed, Given;
    match e
    case Strings(l, how, r) =>
      LoweredValue(m, s, l);
      LoweredValue(m, s, r);
      StringedValue(m, s, how, Lower(l), Lower(r));
    case Call(f, bare, args) =>
      LoweredValue(m, s, f);
      LoweredValues(m, s, args);
      GivenValues(m, bare, LowerAll(args));
    case Element(T, v, i) =>
      LoweredValue(m, s, v);
      LoweredValue(m, s, i);
      ElementValue(m, s, T, Lower(v), Lower(i));
    case Character(t, i) =>
      LoweredValue(m, s, t);
      LoweredValue(m, s, i);
      CharacterValue(m, s, Lower(t), Lower(i));
    case StructLiteral(_, pairs) => LoweredPairs(m, s, pairs);
  }

  lemma {:induction false} LoweredValues<V(!new)>(m: Machine<V>, s: Surface<V>, es: seq<Expr>)
    requires Implements(m, s)
    ensures TreeValues(m, LowerAll(es)) == Values(m, s, es)
    decreases es
  {
    if es != [] {
      LoweredValue(m, s, es[0]);
      LoweredValues(m, s, es[1..]);
      assert LowerAll(es)[1..] == LowerAll(es[1..]);
    }
  }

  lemma {:induction false} LoweredPairs<V(!new)>(m: Machine<V>, s: Surface<V>, pairs: seq<WriterLayout.Pair>)
    requires Implements(m, s)
    ensures FieldValues(m, LowerPairs(pairs)) == PairValues(m, s, pairs)
    decreases pairs
  {
    if pairs != [] {
      LoweredValue(m, s, pairs[0].value);
      LoweredPairs(m, s, pairs[1..]);
      assert LowerPairs(pairs)[1..] == LowerPairs(pairs[1..]);
    }
  }

  /** So what C computes from the code written for an expression is the expression's value, where nothing in it comes
      apart and no signs run together. */
  lemma {:induction false} WrittenCodeHasTheValue<V(!new)>(m: Machine<V>, s: Surface<V>, e: Expr)
    requires Implements(m, s) && Attached(e) && SignsApart(e)
    ensures var r := Meaning(Layout(e, []));
            r.Read? && r.rest == [] && TreeValue(m, r.value) == Value(m, s, e)
  {
    hide Meaning, Layout;
    ReadsBackExactlyWhenFlat(e);
    LoweredValue(m, s, e);
  }
}
