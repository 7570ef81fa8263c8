/**
  What particular token sequences mean, spelled out: which token stands for which operator or keyword, and which of
  several operators binds first.
*/
module Spelling {
  import opened Wrappers
  import opened Grammar
  import opened RoundTrip

  // ---------------------------------------------------------------- operators and their classes

  predicate Spells(t: Token, op: BinaryOperator) {
    || (t == Multiply && op == OpMultiply)
    || (t == Divide && op == OpDivide)
    || (t == Percent && op == OpMod)
    || (t == Plus && op == OpAdd)
    || (t == Minus && op == OpSubtract)
    || (t == LessThan && op == OpLT)
    || (t == LessThanOrEqual && op == OpLTE)
    || (t == GreaterThan && op == OpGT)
    || (t == GreaterThanOrEqual && op == OpGTE)
    || (t == Equality && op == OpEquality)
    || (t == Inequality && op == OpInequality)
    || (t == And && op == OpAnd)
    || (t == Or && op == OpOr)
  }

  predicate Multiplicative(op: BinaryOperator) {
    op == OpMultiply || op == OpDivide || op == OpMod
  }

  predicate Additive(op: BinaryOperator) {
    op == OpAdd || op == OpSubtract
  }

  predicate Relational(op: BinaryOperator) {
    op == OpLT || op == OpLTE || op == OpGT || op == OpGTE
  }

  predicate Equating(op: BinaryOperator) {
    op == OpEquality || op == OpInequality
  }

  /** The first of two operators binds first: it is of a tighter class than the second, or of the same. */
  predicate FirstBinds(op: BinaryOperator, next: BinaryOperator) {
    || Multiplicative(op)
    || (Additive(op) && !Multiplicative(next))
    || (Relational(op) && !Multiplicative(next) && !Additive(next))
    || (Equating(op) && (Equating(next) || next == OpAnd || next == OpOr))
    || (op == OpAnd && (next == OpAnd || next == OpOr))
    || (op == OpOr && next == OpOr)
  }

  lemma FirstBindsByRung(op: BinaryOperator, next: BinaryOperator)
    ensures FirstBinds(op, next) <==> Rung(op) <= Rung(next)
  {
  }

  lemma SpelledToken(t: Token, op: BinaryOperator)
    requires Spells(t, op)
    ensures BinaryToken(op) == t
  {
  }

  /** Of two operators between names `*`, `/` and `%` bind first, then `+` and `-`, the four comparisons, the two
      equalities, `and`, and `or` last; and of the same class the left one. */
  lemma Precedence(a: string, t: Token, op: BinaryOperator, b: string, u: Token, next: BinaryOperator, c: string)
    requires Spells(t, op) && Spells(u, next)
    ensures var x, y, z := IdentifierTerminal(a), IdentifierTerminal(b), IdentifierTerminal(c);
            var left, right := Binary(Binary(x, op, y), next, z), Binary(x, op, Binary(y, next, z));
            ParseExpression([Identifier(a), t, Identifier(b), u, Identifier(c)], 0)
            == Found(if FirstBinds(op, next) then left else right, [])
  {
    hide ParseExpression;
    SpelledToken(t, op);
    SpelledToken(u, next);
    FirstBindsByRung(op, next);
    TwoOperators(a, op, b, next, c);
  }

  // ---------------------------------------------------------------- everything else

  function Var(name: string): Expr {
    IdentifierTerminal(name)
  }

  /** Short sequences, token by token. */
  lemma Joined()
    ensures forall t: Token :: [t] + [] == [t]
    ensures forall t: Token, u: Token :: [t, u] + [] == [t, u]
    ensures forall t, u: Token :: [t] + [u] == [t, u]
    ensures forall t, u, v: Token :: [t] + [u, v] == [t, u, v]
    ensures forall t, u, v, w: Token :: [t] + [u, v, w] == [t, u, v, w]
    ensures forall t, u, v, w, x: Token :: [t] + [u, v, w, x] == [t, u, v, w, x]
    ensures forall t, u, v, w, x, y: Token :: [t] + [u, v, w, x, y] == [t, u, v, w, x, y]
    ensures forall t, u, v, w, x, y, z: Token :: [t] + [u, v, w, x, y, z] == [t, u, v, w, x, y, z]
    ensures forall t, u, v, w, x, y, z, p: Token :: [t] + [u, v, w, x, y, z, p] == [t, u, v, w, x, y, z, p]
    ensures forall t, u, v: Token :: [t, u] + [v] == [t, u, v]
    ensures forall t, u, v, w: Token :: [t, u] + [v, w] == [t, u, v, w]
    ensures forall t, u, v, w, x: Token :: [t, u] + [v, w, x] == [t, u, v, w, x]
    ensures forall t, u, v, w, x, y: Token :: [t, u] + [v, w, x, y] == [t, u, v, w, x, y]
    ensures forall t, u, v, w, x, y, z: Token :: [t, u] + [v, w, x, y, z] == [t, u, v, w, x, y, z]
    ensures forall t, u, v, w, x, y, z, p: Token :: [t, u] + [v, w, x, y, z, p] == [t, u, v, w, x, y, z, p]
    ensures forall t, u, v, w, x, y, z, p, q: Token :: [t, u] + [v, w, x, y, z, p, q] == [t, u, v, w, x, y, z, p, q]
  {
  }

  lemma PrintedReads(e: Expr, ts: seq<Token>)
    requires Print(e, 1, false, []) == ts
    ensures ParseExpression(ts, 0) == Found(e, [])
  {
    hide ParseExpression, Print;
    InnerLevel(e, 1);
    OperandIs(e, 9, 1, false, false, []);
    ParseUndoesPrint(e, 0, false, []);
  }

  lemma Terminals(v: int, a: string)
    ensures ParseExpression([Integer(v)], 0) == Found(IntegerTerminal(v), [])
    ensures ParseExpression([True], 0) == Found(BooleanTerminal(true), [])
    ensures ParseExpression([False], 0) == Found(BooleanTerminal(false), [])
    ensures ParseExpression([Identifier(a)], 0) == Found(Var(a), [])
  {
    hide ParseExpression;
    Joined();
    PrintedReads(IntegerTerminal(v), [Integer(v)]);
    PrintedReads(BooleanTerminal(true), [True]);
    PrintedReads(BooleanTerminal(false), [False]);
    PrintedReads(Var(a), [Identifier(a)]);
  }

  /** A unary operator binds before any other, but after an access. */
  lemma UnaryOperators(a: string, t: Token, op: BinaryOperator, b: string)
    requires Spells(t, op)
    ensures ParseExpression([Minus, Identifier(a), t, Identifier(b)], 0)
         == Found(Binary(Unary(OpNegate, Var(a)), op, Var(b)), [])
    ensures ParseExpression([Not, Identifier(a), t, Identifier(b)], 0)
         == Found(Binary(Unary(OpNot, Var(a)), op, Var(b)), [])
    ensures ParseExpression([Minus, Identifier(a), Dot, Identifier(b)], 0)
         == Found(Unary(OpNegate, Access(Var(a), b)), [])
    ensures ParseExpression([Not, Identifier(a), Dot, Identifier(b)], 0)
         == Found(Unary(OpNot, Access(Var(a), b)), [])
  {
    hide ParseExpression, Print;
    SignedFirst(OpNegate, a, t, op, b);
    SignedFirst(OpNot, a, t, op, b);
    SignedAccess(OpNegate, a, b);
    SignedAccess(OpNot, a, b);
    PrintedReads(Binary(Unary(OpNegate, Var(a)), op, Var(b)), [Minus, Identifier(a), t, Identifier(b)]);
    PrintedReads(Binary(Unary(OpNot, Var(a)), op, Var(b)), [Not, Identifier(a), t, Identifier(b)]);
    PrintedReads(Unary(OpNegate, Access(Var(a), b)), [Minus, Identifier(a), Dot, Identifier(b)]);
    PrintedReads(Unary(OpNot, Access(Var(a), b)), [Not, Identifier(a), Dot, Identifier(b)]);
  }

  lemma SignedFirst(u: UnaryOperator, a: string, t: Token, op: BinaryOperator, b: string)
    requires Spells(t, op)
    ensures Print(Binary(Unary(u, Var(a)), op, Var(b)), 1, false, [])
         == [UnaryToken(u), Identifier(a), t, Identifier(b)]
  {
    hide Operand;
    SpelledToken(t, op);
    Joined();
    OperandIs(Var(b), Rung(op) - 1, 1, false, false, []);
    assert Operand(Var(b), Rung(op) - 1, 1, false, false, []) == [Identifier(b)];
    OperandIs(Unary(u, Var(a)), Rung(op), 1, false, false, [t, Identifier(b)]);
    OperandIs(Var(a), 0, 1, false, false, [t, Identifier(b)]);
    assert Operand(Var(a), 0, 1, false, false, [t, Identifier(b)]) == [Identifier(a), t, Identifier(b)];
  }

  lemma SignedAccess(u: UnaryOperator, a: string, b: string)
    ensures Print(Unary(u, Access(Var(a), b)), 1, false, []) == [UnaryToken(u), Identifier(a), Dot, Identifier(b)]
  {
    hide Operand;
    Joined();
    OperandIs(Var(a), 0, 1, false, false, [Dot, Identifier(b)]);
    OperandIs(Access(Var(a), b), 0, 1, false, false, []);
    assert Operand(Var(a), 0, 1, false, false, [Dot, Identifier(b)]) == [Identifier(a), Dot, Identifier(b)];
    assert Print(Access(Var(a), b), 1, false, []) == [Identifier(a), Dot, Identifier(b)];
  }

  lemma NamesPrinted()
    ensures forall a, ok, full, rest :: Print(IdentifierTerminal(a), ok, full, rest) == [Identifier(a)] + rest
  {
  }

  lemma BinaryPrinted(a: string, t: Token, op: BinaryOperator, b: string, ok: int, rest: seq<Token>)
    requires Spells(t, op)
    ensures Print(Binary(Var(a), op, Var(b)), ok, false, rest) == [Identifier(a)] + ([t] + ([Identifier(b)] + rest))
  {
    hide Print, Operand;
    SpelledToken(t, op);
    PrintBinary(Var(a), op, Var(b), ok, rest);
    PrintName(b, Rung(op) - 1, ok, rest);
    PrintName(a, Rung(op), ok, [t] + ([Identifier(b)] + rest));
  }

  /** `new`, `*`, `cpu` and `gpu` take all of what follows. */
  lemma Prefixes(a: string, t: Token, op: BinaryOperator, b: string)
    requires Spells(t, op)
    ensures var e := Binary(Var(a), op, Var(b));
            && ParseExpression([New, Identifier(a), t, Identifier(b)], 0) == Found(NewExpr(e), [])
            && ParseExpression([Multiply, Identifier(a), t, Identifier(b)], 0) == Found(Dereference(e), [])
            && ParseExpression([Cpu, Identifier(a), t, Identifier(b)], 0) == Found(CreateWorker(e, false), [])
            && ParseExpression([Gpu, Identifier(a), t, Identifier(b)], 0) == Found(CreateWorker(e, true), [])
  {
    hide ParseExpression, Print;
    var e := Binary(Var(a), op, Var(b));
    Joined();
    BinaryPrinted(a, t, op, b, 1, []);
    BinaryPrinted(a, t, op, b, 2, []);
    Prefixed4(e);
    PrintedReads(NewExpr(e), [New, Identifier(a), t, Identifier(b)]);
    PrintedReads(Dereference(e), [Multiply, Identifier(a), t, Identifier(b)]);
    PrintedReads(CreateWorker(e, false), [Cpu, Identifier(a), t, Identifier(b)]);
    PrintedReads(CreateWorker(e, true), [Gpu, Identifier(a), t, Identifier(b)]);
  }

  lemma Prefixed4(e: Expr)
    requires e.Binary?
    ensures Print(NewExpr(e), 1, false, []) == [New] + Print(e, 1, false, [])
    ensures Print(Dereference(e), 1, false, []) == [Multiply] + Print(e, 1, false, [])
    ensures Print(CreateWorker(e, false), 1, false, []) == [Cpu] + Print(e, 2, false, [])
    ensures Print(CreateWorker(e, true), 1, false, []) == [Gpu] + Print(e, 2, false, [])
  {
    hide Operand;
    OperandIs(e, TOP, 1, false, false, []);
    OperandIs(e, 8, 1, false, false, []);
  }

  /** Brackets bind first whatever is in them. */
  lemma Brackets(a: string, t: Token, op: BinaryOperator, b: string, c: string)
    requires Spells(t, op)
    ensures ParseExpression([OpenCurved, Identifier(a), t, Identifier(b), CloseCurved, Dot, Identifier(c)], 0)
         == Found(Access(Binary(Var(a), op, Var(b)), c), [])
  {
    hide ParseExpression, Print;
    var e := Binary(Var(a), op, Var(b));
    Joined();
    BinaryPrinted(a, t, op, b, 2, [CloseCurved, Dot, Identifier(c)]);
    BracketedAccess(e, c);
    PrintedReads(Access(e, c), [OpenCurved, Identifier(a), t, Identifier(b), CloseCurved, Dot, Identifier(c)]);
  }

  lemma BracketedAccess(e: Expr, c: string)
    requires e.Binary?
    ensures Print(Access(e, c), 1, false, [])
         == [OpenCurved] + Print(e, 2, false, [CloseCurved, Dot, Identifier(c)])
  {
    hide Operand;
    Joined();
    OperandIs(e, 0, 1, false, false, [Dot, Identifier(c)]);
  }

  lemma Indexing(a: string, b: string)
    ensures ParseExpression([Identifier(a), OpenSquare, Identifier(b), CloseSquare], 0)
         == Found(Index(Var(a), Var(b)), [])
  {
    hide ParseExpression, Operand;
    NamesPrinted();
    Joined();
    OperandIs(Var(a), 0, 1, false, false, [OpenSquare, Identifier(b), CloseSquare]);
    PrintedReads(Index(Var(a), Var(b)), [Identifier(a), OpenSquare, Identifier(b), CloseSquare]);
  }

  /** Arguments come in their order. */
  lemma Calling(a: string, b: string, c: string)
    ensures ParseExpression([Identifier(a), OpenCurved, Identifier(b), Comma, Identifier(c), CloseCurved], 0)
         == Found(Call(Var(a), [Var(b), Var(c)]), [])
  {
    hide ParseExpression, Operand;
    NamesPrinted();
    Joined();
    var args := [Var(b), Var(c)];
    assert args[1..] == [Var(c)] && [Var(c)][1..] == [];
    assert PrintList([Var(c)], false, 1, false, [CloseCurved]) == [Comma, Identifier(c), CloseCurved];
    assert PrintList(args, true, 1, false, [CloseCurved]) == [Identifier(b), Comma, Identifier(c), CloseCurved];
    OperandIs(Var(a), 0, 1, false, false, [OpenCurved, Identifier(b), Comma, Identifier(c), CloseCurved]);
    PrintedReads(Call(Var(a), args), [Identifier(a), OpenCurved, Identifier(b), Comma, Identifier(c), CloseCurved]);
  }

  /** Ranges, receives and drains. */
  lemma Keywords(a: string, b: string, c: string)
    ensures ParseExpression([Range, OpenCurved, Identifier(a), Comma, Identifier(b), Comma, Identifier(c),
                             CloseCurved], 0)
         == Found(RangeExpr(Var(a), Var(b), Var(c)), [])
    ensures ParseExpression([Receive, OpenCurved, Identifier(a), CloseCurved], 0)
         == Found(ReceiveWorker(Var(a), false), [])
    ensures ParseExpression([Drain, OpenCurved, Identifier(a), CloseCurved], 0)
         == Found(ReceiveWorker(Var(a), true), [])
  {
    hide ParseExpression, Operand;
    NamesPrinted();
    Joined();
    OperandIs(Var(a), 8, 1, false, false, [CloseCurved]);
    PrintedReads(RangeExpr(Var(a), Var(b), Var(c)),
                 [Range, OpenCurved, Identifier(a), Comma, Identifier(b), Comma, Identifier(c), CloseCurved]);
    PrintedReads(ReceiveWorker(Var(a), false), [Receive, OpenCurved, Identifier(a), CloseCurved]);
    PrintedReads(ReceiveWorker(Var(a), true), [Drain, OpenCurved, Identifier(a), CloseCurved]);
  }

  lemma StructLiterals(a: string, f: string, b: string, g: string, c: string)
    ensures ParseExpression([Identifier(a), OpenCurly, Identifier(f), Colon, Identifier(b), Comma,
                             Identifier(g), Colon, Identifier(c), CloseCurly], 0)
         == Found(StructLiteral(a, [Pair(f, Var(b)), Pair(g, Var(c))]), [])
  {
    hide ParseExpression, Operand;
    NamesPrinted();
    Joined();
    var pairs := [Pair(f, Var(b)), Pair(g, Var(c))];
    assert pairs[1..] == [Pair(g, Var(c))] && [Pair(g, Var(c))][1..] == [];
    assert PrintPairs([], false, 1, false, [CloseCurly]) == [CloseCurly];
    assert PrintPairs([Pair(g, Var(c))], false, 1, false, [CloseCurly])
        == [Comma, Identifier(g), Colon, Identifier(c), CloseCurly];
    assert PrintPairs(pairs, true, 1, false, [CloseCurly])
        == [Identifier(f), Colon, Identifier(b), Comma, Identifier(g), Colon, Identifier(c), CloseCurly];
    PrintedReads(StructLiteral(a, pairs),
                 [Identifier(a), OpenCurly, Identifier(f), Colon, Identifier(b), Comma,
                  Identifier(g), Colon, Identifier(c), CloseCurly]);
  }
}
