/** The tokens the code generator writes for each kind of expression, spelled out. */
module WriterSpelling {
  import Grammar
  import opened CGrammar
  import opened WriterLayout

  function Var(name: string): Expr {
    Expr.Name(name)
  }

  /** Short sequences, token by token. */
  lemma Joined()
    ensures forall t: Token :: [t] + [] == [t]
    ensures forall t, u: Token :: [t] + [u] == [t, u]
    ensures forall t, u, v: Token :: [t] + [u, v] == [t, u, v]
    ensures forall t, u, v, w: Token :: [t] + [u, v, w] == [t, u, v, w]
    ensures forall t, u, v, w, x: Token :: [t] + [u, v, w, x] == [t, u, v, w, x]
    ensures forall t, u, v, w, x, y: Token :: [t] + [u, v, w, x, y] == [t, u, v, w, x, y]
    ensures forall t, u, v, w, x, y, z: Token :: [t] + [u, v, w, x, y, z] == [t, u, v, w, x, y, z]
    ensures forall t, u, v, w, x, y, z, p: Token :: [t] + [u, v, w, x, y, z, p] == [t, u, v, w, x, y, z, p]
    ensures forall t, u, v, w, x, y, z, p, q: Token :: [t] + [u, v, w, x, y, z, p, q] == [t, u, v, w, x, y, z, p, q]
    ensures forall t, u, v, w, x, y, z, p, q, a: Token ::
              [t] + [u, v, w, x, y, z, p, q, a]
              == [t, u, v, w, x, y, z, p, q, a]
    ensures forall t, u, v, w, x, y, z, p, q, a, b: Token ::
              [t] + [u, v, w, x, y, z, p, q, a, b]
              == [t, u, v, w, x, y, z, p, q, a, b]
    ensures forall t, u: Token :: [t, u] + [] == [t, u]
    ensures forall t, u, v: Token :: [t, u] + [v] == [t, u, v]
    ensures forall t, u, v, w: Token :: [t, u] + [v, w] == [t, u, v, w]
    ensures forall t, u, v: Token :: [t, u, v] + [] == [t, u, v]
    ensures forall t, u, v, w: Token :: [t, u, v] + [w] == [t, u, v, w]
    ensures forall t, u, v, w, x: Token :: [t, u, v] + [w, x] == [t, u, v, w, x]
    ensures forall t, u, v, w, x, y: Token :: [t, u, v] + [w, x, y] == [t, u, v, w, x, y]
    ensures forall t, u, v, w, x, y, z: Token :: [t, u, v] + [w, x, y, z] == [t, u, v, w, x, y, z]
    ensures forall t, u, v, w, x, y, z, p: Token :: [t, u, v] + [w, x, y, z, p] == [t, u, v, w, x, y, z, p]
    ensures forall t, u, v, w, x, y, z, p, q: Token :: [t, u, v] + [w, x, y, z, p, q] == [t, u, v, w, x, y, z, p, q]
    ensures forall t, u, v, w, x, y, z, p, q, a: Token ::
              [t, u, v] + [w, x, y, z, p, q, a]
              == [t, u, v, w, x, y, z, p, q, a]
    ensures forall t, u, v, w, x, y, z, p, q, a, b: Token ::
              [t, u, v] + [w, x, y, z, p, q, a, b]
              == [t, u, v, w, x, y, z, p, q, a, b]
    ensures forall t, u, v, w, x, y, z, p, q, a, b, c: Token ::
              [t, u, v] + [w, x, y, z, p, q, a, b, c]
              == [t, u, v, w, x, y, z, p, q, a, b, c]
  {
  }

  lemma NameWritten(a: string, rest: seq<Token>)
    ensures Layout(Var(a), rest) == [Word(a)] + rest
  {
  }

  lemma TerminalsWritten(v: nat, a: string)
    ensures Layout(Integer(v), []) == [Digits(v)]
    ensures Layout(Boolean(true), []) == [Word("k_true")]
    ensures Layout(Boolean(false), []) == [Word("k_false")]
    ensures Layout(Var(a), []) == [Word(a)]
  {
    Joined();
  }

  lemma OperatorWritten(a: string, op: Operator, b: string)
    ensures Layout(Binary(Var(a), op, Var(b)), [])
         == [Open, Word(a), Close, Sign(op), Open, Word(b), Close]
  {
    Joined();
    NameWritten(b, [Close] + []);
    NameWritten(a, [Close, Sign(op), Open, Word(b), Close]);
  }

  /** Prefix operators and conversions are written directly before what they apply to. */
  lemma PrefixesWritten(T: string, a: string)
    ensures Layout(Unary(Grammar.OpNegate, Var(a)), []) == [Sign(Grammar.OpSubtract), Word(a)]
    ensures Layout(Unary(Grammar.OpNot, Var(a)), []) == [Bang, Word(a)]
    ensures Layout(AddressOf(Var(a)), []) == [Ampersand, Word(a)]
    ensures Layout(Dereference(Var(a)), []) == [Sign(Grammar.OpMultiply), Word(a)]
    ensures Layout(Conversion(T, Var(a)), []) == [Open, TypeName(T), Close, Word(a)]
  {
    Joined();
    NameWritten(a, []);
  }

  lemma AccessesWritten(a: string, f: string)
    ensures Layout(Access(Var(a), true, f), []) == [Word(a), Arrow, Word(f)]
    ensures Layout(Access(Var(a), false, f), []) == [Word(a), Dot, Word(f)]
  {
    Joined();
    NameWritten(a, [Arrow, Word(f)]);
    NameWritten(a, [Dot, Word(f)]);
  }

  /** Calls have the execution context before the arguments in their order. */
  lemma CallsWritten(f: string, a: string, b: string)
    ensures Layout(Call(Var(f), true, [Var(a), Var(b)]), []) == [Word(f), Open, Word(a), Comma, Word(b), Close]
    ensures Layout(Call(Var(f), false, [Var(a), Var(b)]), [])
         == [Word(f), Open, Word("ey_execution_context"), Comma, Word(a), Comma, Word(b), Close]
  {
    Joined();
    var args := [Var(a), Var(b)];
    assert args[1..] == [Var(b)] && [Var(b)][1..] == [];
    NameWritten(b, [Close]);
    assert LayoutMore([], []) == [Close];
    assert LayoutMore([Var(b)], []) == [Comma, Word(b), Close];
    NameWritten(a, [Comma, Word(b), Close]);
    assert LayoutMore(args, []) == [Comma, Word(a), Comma, Word(b), Close];
    assert LayoutArguments(true, args, []) == [Word(a), Comma, Word(b), Close];
    assert LayoutArguments(false, args, [])
        == [Word("ey_execution_context"), Comma, Word(a), Comma, Word(b), Close];
  }

  lemma RuntimeWritten(name: string, a: string, b: string, rest: seq<Token>)
    ensures Opened(name, Layout(Var(a), [Comma] + Layout(Var(b), [Close] + rest)))
         == [Word(name), Open, Word("ey_execution_context")] + ([Comma, Word(a), Comma] + ([Word(b), Close] + rest))
  {
    NameWritten(b, [Close] + rest);
    NameWritten(a, [Comma] + ([Word(b)] + ([Close] + rest)));
  }

  lemma StringsWritten(a: string, b: string)
    ensures Layout(Strings(Var(a), Join, Var(b)), [])
         == [Open, Word("ey_runtime_string_join"), Open, Word("ey_execution_context"), Comma, Word(a), Comma, Word(b),
             Close, Close]
    ensures Layout(Strings(Var(a), Same, Var(b)), [])
         == [Open, Word("ey_runtime_string_equality"), Open, Word("ey_execution_context"), Comma, Word(a), Comma,
             Word(b), Close, Close]
    ensures Layout(Strings(Var(a), Different, Var(b)), [])
         == [Open, Bang, Word("ey_runtime_string_equality"), Open, Word("ey_execution_context"), Comma, Word(a), Comma,
             Word(b), Close, Close]
    ensures Layout(Character(Var(a), Var(b)), [])
         == [Word("ey_runtime_string_get_character"), Open, Word("ey_execution_context"), Comma, Word(a), Comma,
             Word(b), Close]
  {
    RuntimeWritten("ey_runtime_string_join", a, b, [Close] + []);
    RuntimeWritten("ey_runtime_string_equality", a, b, [Close] + []);
    RuntimeWritten("ey_runtime_string_get_character", a, b, []);
  }

  /** An element of a vector: a star, a cast to a pointer to its type, and the call that finds it. */
  lemma ElementsWritten(T: string, a: string, b: string)
    ensures Layout(Element(T, Var(a), Var(b)), [])
         == [Sign(Grammar.OpMultiply), Open, TypeName(T + "*"), Close, Word("ey_vector_access"), Open,
             Word("ey_execution_context"), Comma, Word(a), Comma, Word(b), Close]
  {
    RuntimeWritten("ey_vector_access", a, b, []);
  }

  lemma LiteralsWritten(T: string, f: string, a: string, g: string, b: string)
    ensures Layout(StructLiteral(T, [Pair(f, Var(a)), Pair(g, Var(b))]), [])
         == [Open, TypeName(T), Close, OpenBrace, Dot, Word(f), Assign, Word(a), Comma,
             Dot, Word(g), Assign, Word(b), CloseBrace]
  {
    var pairs := [Pair(f, Var(a)), Pair(g, Var(b))];
    assert pairs[1..] == [Pair(g, Var(b))] && [Pair(g, Var(b))][1..] == [];
    NameWritten(b, [CloseBrace]);
    assert LayoutPairs([], false, []) == [CloseBrace];
    assert LayoutPairs([Pair(g, Var(b))], false, [])
        == [Comma, Dot, Word(g), Assign, Word(b), CloseBrace];
    NameWritten(a, [Comma, Dot, Word(g), Assign, Word(b), CloseBrace]);
    assert LayoutPairs(pairs, true, [])
        == [Dot, Word(f), Assign, Word(a), Comma, Dot, Word(g), Assign, Word(b), CloseBrace];
  }
}
