/**
  Printing and reading back: with brackets round every operand of a binary operator, or only
  where the ladder asks for them, an expression parses to the tree it was printed from.
*/
module RoundTrip {
  import opened Wrappers
  import opened Grammar

  // ---------------------------------------------------------------- the printer

  /**
    The lowest production an expression belongs to: the ladder's rungs, then 8 for
    allocations, 9 for prefixed expressions and 10 for what needs brackets in any case.
    Where struct literals are not allowed, neither is `cpu` or `gpu`, whose operand allows them.
  */
  function Level(e: Expr, ok: int): nat {
    match e
    case Unary(_, _) => 1
    case Binary(_, op, _) => Rung(op)
    case NewExpr(_) => 8
    case RangeExpr(_, _, _) => 9
    case Dereference(_) => 9
    case ReceiveWorker(_, _) => 9
    case CreateWorker(_, _) => if ok < 0 then 10 else 9
    case StructLiteral(_, _) => if ok < 0 then 10 else 0
    case _ => 0
  }

  /**
    The tokens of `e` followed by `rest`.  With `full`, operands of binary operators are
    always bracketed; otherwise only where the ladder needs it.
  */
  function Print(e: Expr, ok: int, full: bool, rest: seq<Token>): seq<Token>
    decreases e, 0
  {
    match e
    case IntegerTerminal(v) => [Integer(v)] + rest
    case BooleanTerminal(b) => [if b then True else False] + rest
    case IdentifierTerminal(name) => [Identifier(name)] + rest
    case StructLiteral(name, pairs) =>
      [Identifier(name), OpenCurly] + PrintPairs(pairs, true, ok, full, [CloseCurly] + rest)
    case Call(f, args) =>
      Operand(f, 0, ok, full, false, [OpenCurved] + PrintList(args, true, ok, full, [CloseCurved] + rest))
    case Index(a, i) =>
      Operand(a, 0, ok, full, false, [OpenSquare] + Print(i, ok + 1, full, [CloseSquare] + rest))
    case Access(a, field) => Operand(a, 0, ok, full, false, [Dot, Identifier(field)] + rest)
    case Unary(op, x) => [UnaryToken(op)] + Operand(x, 0, ok, full, false, rest)
    case Binary(l, op, r) =>
      Operand(l, Rung(op), ok, full, full, [BinaryToken(op)] + Operand(r, Rung(op) - 1, ok, full, full, rest))
    case NewExpr(x) => [New] + Operand(x, TOP, ok, full, false, rest)
    case RangeExpr(a, b, c) =>
      [Range, OpenCurved] + Print(a, ok + 1, full,
        [Comma] + Print(b, ok + 1, full,
          [Comma] + Print(c, ok + 1, full, [CloseCurved] + rest)))
    case Dereference(x) => [Multiply] + Operand(x, 8, ok, full, false, rest)
    case ReceiveWorker(x, all) =>
      [if all then Drain else Receive, OpenCurved] + Operand(x, 8, ok, full, false, [CloseCurved] + rest)
    case CreateWorker(x, gpu) => [if gpu then Gpu else Cpu] + Print(x, ok + 1, full, rest)
  }

  /** An operand, bracketed when its level is too high or `force` asks for it. */
  function Operand(e: Expr, level: nat, ok: int, full: bool, force: bool, rest: seq<Token>): seq<Token>
    decreases e, 1
  {
    if force || Level(e, ok) > level
    then [OpenCurved] + Print(e, ok + 1, full, [CloseCurved] + rest)
    else Print(e, ok, full, rest)
  }

  /** Expressions with commas before each, or between them when `first`. */
  function PrintList(es: seq<Expr>, first: bool, ok: int, full: bool, rest: seq<Token>): seq<Token>
    decreases es
  {
    if es == [] then rest
    else
      var item := Print(es[0], ok + 1, full, PrintList(es[1..], false, ok, full, rest));
      if first then item else [Comma] + item
  }

  function PrintPairs(pairs: seq<Pair>, first: bool, ok: int, full: bool, rest: seq<Token>): seq<Token>
    decreases pairs
  {
    if pairs == [] then rest
    else
      var item := [Identifier(pairs[0].field), Colon]
                  + Print(pairs[0].value, ok + 1, full, PrintPairs(pairs[1..], false, ok, full, rest));
      if first then item else [Comma] + item
  }

  /** No suffix or operator at the head of `rest` continues an expression of the rung. */
  predicate Ends(rest: seq<Token>, level: int) {
    rest != [] ==>
      && (level >= 0 ==> rest[0] != OpenCurved && rest[0] != OpenSquare && rest[0] != Dot)
      && (OperatorOf(rest[0]).Some? ==> Rung(OperatorOf(rest[0]).value) > level)
  }

  /** The last token printed is a name that a brace after it would make a struct literal of. */
  predicate TakesBrace(e: Expr, ok: int, full: bool)
    decreases e, 0
  {
    match e
    case IdentifierTerminal(_) => ok >= 0
    case Unary(_, x) => OperandTakesBrace(x, 0, ok, full, false)
    case Binary(_, op, x) => OperandTakesBrace(x, Rung(op) - 1, ok, full, full)
    case NewExpr(x) => OperandTakesBrace(x, TOP, ok, full, false)
    case Dereference(x) => OperandTakesBrace(x, 8, ok, full, false)
    case CreateWorker(x, _) => TakesBrace(x, ok + 1, full)
    case _ => false
  }

  predicate OperandTakesBrace(e: Expr, level: nat, ok: int, full: bool, force: bool)
    decreases e, 1
  {
    !force && Level(e, ok) <= level && TakesBrace(e, ok, full)
  }

  /** Nothing at the head of `rest` continues an expression of the rung, one that takes a brace or not. */
  predicate Stops(rest: seq<Token>, level: int, brace: bool) {
    Ends(rest, level) && !(brace && HeadIs(rest, OpenCurly))
  }

  // ---------------------------------------------------------------- one rung at a time

  /** What remains to be done at a rung once its first operand `e` is read. */
  function Tail(level: nat, e: Expr, rest: seq<Token>, ok: int): Parsed<Expr> {
    if level == 0 then PostfixTail(e, rest, ok)
    else if level == 1 then Found(e, rest)
    else InfixTail(level, e, rest, ok)
  }

  lemma TailStops(level: nat, e: Expr, rest: seq<Token>, ok: int)
    requires Ends(rest, level)
    ensures Tail(level, e, rest, ok) == Found(e, rest)
  {
  }

  /** From one rung to a higher one, when no operator of the rungs between follows. */
  lemma {:induction false} Climb(from: nat, level: nat, ts: seq<Token>, e: Expr, rest: seq<Token>, ok: int)
    requires from <= level
    requires Ladder(from, ts, ok) == Tail(from, e, rest, ok)
    requires from == 0 ==> !HeadIs(ts, Not) && !HeadIs(ts, Minus)
    requires Ends(rest, level - 1)
    ensures Ladder(level, ts, ok) == Tail(level, e, rest, ok)
  {
    hide Postfix, PostfixTail, InfixTail;
    if from < level {
      Climb(from, level - 1, ts, e, rest, ok);
      TailStops(level - 1, e, rest, ok);
    }
  }

  /** The first token of an expression that is neither an allocation nor prefixed. */
  predicate StartsOperand(t: Token) {
    t.Integer? || t.True? || t.False? || t.Identifier? || t.OpenCurved?
  }

  lemma PrintStarts(e: Expr, ok: int, full: bool, rest: seq<Token>)
    requires Level(e, ok) <= TOP
    ensures var ts := Print(e, ok, full, rest);
            && ts != []
            && (StartsOperand(ts[0]) || ts[0] == Not || ts[0] == Minus)
            && (Level(e, ok) == 0 ==> StartsOperand(ts[0]))
    decreases e, 0
  {
    match e
    case Call(f, args) =>
      OperandStarts(f, 0, ok, full, false, [OpenCurved] + PrintList(args, true, ok, full, [CloseCurved] + rest));
    case Index(a, i) =>
      OperandStarts(a, 0, ok, full, false, [OpenSquare] + Print(i, ok + 1, full, [CloseSquare] + rest));
    case Access(a, field) => OperandStarts(a, 0, ok, full, false, [Dot, Identifier(field)] + rest);
    case Binary(l, op, r) =>
      OperandStarts(l, Rung(op), ok, full, full,
                    [BinaryToken(op)] + Operand(r, Rung(op) - 1, ok, full, full, rest));
    case _ =>
  }

  lemma OperandStarts(e: Expr, level: nat, ok: int, full: bool, force: bool, rest: seq<Token>)
    requires level <= TOP
    ensures var ts := Operand(e, level, ok, full, force, rest);
            && ts != []
            && (StartsOperand(ts[0]) || ts[0] == Not || ts[0] == Minus)
            && (level == 0 ==> StartsOperand(ts[0]))
    decreases e, 1
  {
    if !force && Level(e, ok) <= level {
      PrintStarts(e, ok, full, rest);
    }
  }

  predicate StartsNothing(ts: seq<Token>) {
    HeadIs(ts, CloseCurved) || HeadIs(ts, CloseCurly) || HeadIs(ts, Semicolon)
  }

  /** Before a closing bracket or a semicolon there is no expression to find. */
  lemma {:induction false} NothingToRead(level: nat, ts: seq<Token>, ok: int)
    requires StartsNothing(ts)
    ensures Ladder(level, ts, ok) == NotFound(ts)
  {
    assert Literal(ts, ok) == NotFound(ts);
    assert Primary(ts, ok) == NotFound(ts);
    assert Postfix(ts, ok) == NotFound(ts);
    if level > 1 {
      NothingToRead(level - 1, ts, ok);
    }
  }

  lemma NoExpression(ts: seq<Token>, ok: int)
    requires StartsNothing(ts)
    ensures ParseExpression(ts, ok) == NotFound(ts)
  {
    hide Ladder;
    NothingToRead(TOP, ts, ok + 1);
    assert Allocation(ts, ok + 1) == NotFound(ts);
  }

  // ---------------------------------------------------------------- single steps of the productions

  lemma Behead(t: Token, rest: seq<Token>)
    ensures HeadIs([t] + rest, t) && ([t] + rest)[1..] == rest
  {
  }

  lemma BeheadTwo(t: Token, u: Token, rest: seq<Token>)
    ensures var ts := [t, u] + rest;
            HeadIs(ts, t) && HeadIs(ts[1..], u) && ts[1..][1..] == rest && ts[2..] == rest
  {
  }

  lemma {:induction false} BracketStep(ts: seq<Token>, e: Expr, last: seq<Token>, ok: int)
    requires HeadIs(ts, OpenCurved) && HeadIs(last, CloseCurved)
    requires Prefixed(ts[1..], ok + 1) == Found(e, last)
    ensures Postfix(ts, ok) == PostfixTail(e, last[1..], ok)
  {
    hide PostfixTail, Prefixed, Literal;
    assert ParseExpression(ts[1..], ok) == Found(e, last);
    assert Primary(ts, ok) == Found(e, last[1..]);
  }

  /** A closing bracket or a comma ends any expression. */
  lemma AnyBrace(rest: seq<Token>)
    requires HeadIs(rest, CloseCurved) || HeadIs(rest, CloseSquare) || HeadIs(rest, CloseCurly) || HeadIs(rest, Comma)
    ensures forall brace :: Stops(rest, TOP, brace)
  {
  }

  lemma InnerLevel(e: Expr, ok: int)
    requires 0 <= ok
    ensures Level(e, ok) <= 9
  {
  }

  lemma LiteralStep(ts: seq<Token>, e: Expr, rest: seq<Token>, ok: int)
    requires Literal(ts, ok) == Found(e, rest) && !HeadIs(ts, OpenCurved)
    ensures Postfix(ts, ok) == PostfixTail(e, rest, ok)
  {
    hide PostfixTail, Literal, Prefixed;
  }

  lemma StructStep(ts: seq<Token>, pairs: seq<Pair>, rest: seq<Token>, ok: int)
    requires |ts| > 1 && ts[0].Identifier? && HeadIs(ts[1..], OpenCurly) && ok >= 0
    requires StructPairs(ts[1..][1..], [], true, ok) == Found(pairs, rest)
    ensures Literal(ts, ok) == Found(StructLiteral(ts[0].name, pairs), rest)
  {
    hide StructPairs;
  }

  lemma PairStep(ts: seq<Token>, e: Expr, rest: seq<Token>, ok: int)
    requires |ts| > 1 && ts[0].Identifier? && HeadIs(ts[1..], Colon)
    requires Prefixed(ts[2..], ok + 1) == Found(e, rest)
    ensures LiteralPair(ts, ok) == Found(Pair(ts[0].name, e), rest)
  {
    hide Prefixed;
  }

  lemma PairsStep(ts: seq<Token>, done: seq<Pair>, pair: Pair, rest: seq<Token>, ok: int)
    requires if done == [] then ts != [] && ts[0].Identifier? else |ts| > 1 && HeadIs(ts, Comma) && ts[1].Identifier?
    requires LiteralPair(if done == [] then ts else ts[1..], ok) == Found(pair, rest)
    ensures StructPairs(ts, done, done == [], ok) == StructPairs(rest, done + [pair], false, ok)
  {
    hide LiteralPair;
    assert done != [] ==> SkipSemicolons(ts[1..]) == ts[1..];
  }

  lemma ListStep(done: seq<Expr>, ts: seq<Token>, e: Expr, rest: seq<Token>, ok: int)
    requires HeadIs(ts, Comma) && Prefixed(ts[1..], ok + 1) == Found(e, rest)
    ensures ListTail(done, ts, ok) == ListTail(done + [e], rest, ok)
  {
    hide Prefixed;
  }

  lemma CallStep(f: Expr, ts: seq<Token>, args: seq<Expr>, last: seq<Token>, ok: int)
    requires HeadIs(ts, OpenCurved) && HeadIs(last, CloseCurved)
    requires ExpressionList(ts[1..], ok) == Found(args, last)
    ensures PostfixTail(f, ts, ok) == PostfixTail(Call(f, args), last[1..], ok)
  {
    hide ExpressionList, ParseExpression;
  }

  lemma IndexStep(a: Expr, ts: seq<Token>, i: Expr, last: seq<Token>, ok: int)
    requires HeadIs(ts, OpenSquare) && HeadIs(last, CloseSquare)
    requires Prefixed(ts[1..], ok + 1) == Found(i, last)
    ensures PostfixTail(a, ts, ok) == PostfixTail(Index(a, i), last[1..], ok)
  {
    hide ExpressionList, Prefixed;
  }

  lemma AccessStep(a: Expr, field: string, ts: seq<Token>, ok: int)
    requires HeadIs(ts, Dot) && HeadIs(ts[1..], Identifier(field))
    ensures PostfixTail(a, ts, ok) == PostfixTail(Access(a, field), ts[2..], ok)
  {
    hide ExpressionList, ParseExpression;
  }

  lemma UnaryStep(op: UnaryOperator, ts: seq<Token>, x: Expr, rest: seq<Token>, ok: int)
    requires HeadIs(ts, UnaryToken(op)) && Postfix(ts[1..], ok) == Found(x, rest)
    ensures UnaryExpression(ts, ok) == Found(Unary(op, x), rest)
  {
    hide Postfix;
  }

  lemma InfixStep(lhs: Expr, op: BinaryOperator, ts: seq<Token>, r: Expr, rest: seq<Token>, ok: int)
    requires HeadIs(ts, BinaryToken(op)) && Ladder(Rung(op) - 1, ts[1..], ok) == Found(r, rest)
    ensures InfixTail(Rung(op), lhs, ts, ok) == InfixTail(Rung(op), Binary(lhs, op, r), rest, ok)
  {
    hide Ladder;
  }

  lemma {:induction false} RangeStep(ts: seq<Token>, a: Expr, b: Expr, c: Expr, ts1: seq<Token>, ts2: seq<Token>,
                                     ts3: seq<Token>, ok: int)
    requires HeadIs(ts, Range) && HeadIs(ts[1..], OpenCurved)
    requires HeadIs(ts1, Comma) && HeadIs(ts2, Comma) && HeadIs(ts3, CloseCurved)
    requires Prefixed(ts[2..], ok + 1) == Found(a, ts1)
    requires Prefixed(ts1[1..], ok + 1) == Found(b, ts2)
    requires Prefixed(ts2[1..], ok + 1) == Found(c, ts3)
    ensures RangeExpression(ts, ok) == Found(RangeExpr(a, b, c), ts3[1..])
  {
    hide Prefixed;
    assert [a, b] + [c] == [a, b, c] && [a] + [b] == [a, b];
    assert RangeTail([a, b] + [c], 0, ts3, ok) == Found([a, b, c], ts3);
    assert RangeTail([a, b], 1, ts2, ok) == Found([a, b, c], ts3);
    assert RangeTail([a], 2, ts1, ok) == Found([a, b, c], ts3);
  }

  lemma ReceiveStep(ts: seq<Token>, e: Expr, last: seq<Token>, all: bool, ok: int)
    requires HeadIs(ts, if all then Drain else Receive) && HeadIs(ts[1..], OpenCurved) && HeadIs(last, CloseCurved)
    requires Allocation(ts[2..], ok) == Found(e, last)
    ensures Prefixed(ts, ok) == Found(ReceiveWorker(e, all), last[1..])
  {
    hide Allocation, RangeExpression;
  }

  lemma CreateStep(ts: seq<Token>, e: Expr, rest: seq<Token>, gpu: bool, ok: int)
    requires HeadIs(ts, if gpu then Gpu else Cpu) && Prefixed(ts[1..], ok + 1) == Found(e, rest)
    ensures Prefixed(ts, ok) == Found(CreateWorker(e, gpu), rest)
  {
    hide Allocation, RangeExpression, ReceiveExpression;
    assert ParseExpression(ts[1..], ok) == Found(e, rest);
  }

  lemma DereferenceStep(ts: seq<Token>, e: Expr, rest: seq<Token>, ok: int)
    requires HeadIs(ts, Multiply) && Allocation(ts[1..], ok) == Found(e, rest)
    ensures Prefixed(ts, ok) == Found(Dereference(e), rest)
  {
    hide Allocation, RangeExpression, ReceiveExpression;
  }

  lemma PlainStep(ts: seq<Token>, ok: int)
    requires ts != []
    requires StartsOperand(ts[0]) || ts[0] == Not || ts[0] == Minus || ts[0] == New
    ensures Prefixed(ts, ok) == Allocation(ts, ok)
  {
    hide Allocation, RangeExpression, ReceiveExpression;
  }

  lemma AllocationStep(ts: seq<Token>, e: Expr, rest: seq<Token>, ok: int)
    requires Ladder(TOP, if HeadIs(ts, New) then ts[1..] else ts, ok) == Found(e, rest)
    ensures Allocation(ts, ok) == Found(if HeadIs(ts, New) then NewExpr(e) else e, rest)
  {
    hide Ladder;
  }

  // ---------------------------------------------------------------- reading back

  /** A bracketed expression is a primary one. */
  lemma BracketsRead(e: Expr, ok: int, full: bool, rest: seq<Token>)
    requires -1 <= ok
    ensures Postfix([OpenCurved] + Print(e, ok + 1, full, [CloseCurved] + rest), ok) == PostfixTail(e, rest, ok)
    decreases e, 4
  {
    var last := [CloseCurved] + rest;
    hide *;
    Behead(CloseCurved, rest);
    AnyBrace(last);
    InnerLevel(e, ok + 1);
    Behead(OpenCurved, Print(e, ok + 1, full, last));
    ExpressionReads(e, ok + 1, full, last);
    BracketStep([OpenCurved] + Print(e, ok + 1, full, last), e, last, ok);
  }

  /** On the ladder, an operand is read and its rung goes on from there. */
  lemma OperandReads(e: Expr, level: nat, ok: int, full: bool, force: bool, rest: seq<Token>)
    requires -1 <= ok && level <= TOP && Stops(rest, level - 1, OperandTakesBrace(e, level, ok, full, force))
    ensures Ladder(level, Operand(e, level, ok, full, force, rest), ok) == Tail(level, e, rest, ok)
    decreases e, 5
  {
    var ts := Operand(e, level, ok, full, force, rest);
    if force || Level(e, ok) > level {
      BracketsRead(e, ok, full, rest);
      Climb(0, level, ts, e, rest, ok);
    } else {
      RungReads(e, ok, full, rest);
      PrintStarts(e, ok, full, rest);
      Climb(Level(e, ok), level, ts, e, rest, ok);
    }
  }

  lemma RungReads(e: Expr, ok: int, full: bool, rest: seq<Token>)
    requires -1 <= ok && Level(e, ok) <= TOP && Stops(rest, Level(e, ok) - 1, TakesBrace(e, ok, full))
    ensures Ladder(Level(e, ok), Print(e, ok, full, rest), ok) == Tail(Level(e, ok), e, rest, ok)
    decreases e, 1
  {
    PostfixIsLowest(Print(e, ok, full, rest), ok);
    match e
    case IntegerTerminal(v) => TerminalReads(e, Integer(v), ok, full, rest);
    case BooleanTerminal(b) => TerminalReads(e, if b then True else False, ok, full, rest);
    case IdentifierTerminal(name) => TerminalReads(e, Identifier(name), ok, full, rest);
    case StructLiteral(name, pairs) => StructReads(name, pairs, ok, full, rest);
    case Call(f, args) => CallReads(f, args, ok, full, rest);
    case Index(a, i) => IndexReads(a, i, ok, full, rest);
    case Access(a, field) => AccessReads(a, field, ok, full, rest);
    case Unary(op, x) => UnaryReads(op, x, ok, full, rest);
    case Binary(l, op, r) => BinaryReads(l, op, r, ok, full, rest);
  }

  lemma PostfixIsLowest(ts: seq<Token>, ok: int)
    ensures Ladder(0, ts, ok) == Postfix(ts, ok)
    ensures Ladder(1, ts, ok) == UnaryExpression(ts, ok)
  {
  }

  lemma TerminalReads(e: Expr, t: Token, ok: int, full: bool, rest: seq<Token>)
    requires e.IntegerTerminal? || e.BooleanTerminal? || e.IdentifierTerminal?
    requires Print(e, ok, full, rest) == [t] + rest && Stops(rest, -1, TakesBrace(e, ok, full))
    requires Print(e, ok, full, []) == [t] + []
    ensures Postfix(Print(e, ok, full, rest), ok) == PostfixTail(e, rest, ok)
  {
    var ts := [t] + rest;
    Behead(t, rest);
    assert ts[0] == ([t] + [])[0];
    assert Literal(ts, ok) == Found(e, rest);
    LiteralStep(ts, e, rest, ok);
  }

  lemma StructReads(name: string, pairs: seq<Pair>, ok: int, full: bool, rest: seq<Token>)
    requires 0 <= ok
    ensures Postfix(Print(StructLiteral(name, pairs), ok, full, rest), ok)
         == PostfixTail(StructLiteral(name, pairs), rest, ok)
    decreases StructLiteral(name, pairs), 0
  {
    var body := PrintPairs(pairs, true, ok, full, [CloseCurly] + rest);
    var ts := [Identifier(name), OpenCurly] + body;
    assert Print(StructLiteral(name, pairs), ok, full, rest) == ts;
    assert !HeadIs(ts, OpenCurved);
    hide *;
    BeheadTwo(Identifier(name), OpenCurly, body);
    PairsRead([], pairs, ok, full, rest);
    assert [] + pairs == pairs;
    StructStep(ts, pairs, rest, ok);
    LiteralStep(ts, StructLiteral(name, pairs), rest, ok);
  }

  lemma PrintPairsNext(pairs: seq<Pair>, first: bool, ok: int, full: bool, last: seq<Token>)
    requires pairs != []
    ensures PrintPairs(pairs, first, ok, full, last)
         == (if first then [] else [Comma]) + ([Identifier(pairs[0].field), Colon]
            + Print(pairs[0].value, ok + 1, full, PrintPairs(pairs[1..], false, ok, full, last)))
  {
    hide Print;
    var item := [Identifier(pairs[0].field), Colon]
                + Print(pairs[0].value, ok + 1, full, PrintPairs(pairs[1..], false, ok, full, last));
    assert [] + item == item;
  }

  lemma MorePairsStart(pairs: seq<Pair>, ok: int, full: bool, last: seq<Token>)
    requires HeadIs(last, CloseCurly)
    ensures var more := PrintPairs(pairs, false, ok, full, last);
            HeadIs(more, Comma) || HeadIs(more, CloseCurly)
  {
    hide Print;
  }

  lemma PairsEnd(done: seq<Pair>, ok: int, full: bool, last: seq<Token>)
    requires HeadIs(last, CloseCurly)
    ensures StructPairs(PrintPairs([], done == [], ok, full, last), done, done == [], ok) == Found(done, last[1..])
  {
  }

  /** The rest of a struct literal's pairs, after those in `done`. */
  lemma PairsRead(done: seq<Pair>, pairs: seq<Pair>, ok: int, full: bool, rest: seq<Token>)
    requires 0 <= ok
    ensures StructPairs(PrintPairs(pairs, done == [], ok, full, [CloseCurly] + rest), done, done == [], ok)
         == Found(done + pairs, rest)
    decreases pairs, 1
  {
    hide *;
    var last := [CloseCurly] + rest;
    Behead(CloseCurly, rest);
    if pairs == [] {
      assert done + pairs == done;
      PairsEnd(done, ok, full, last);
    } else {
      PairsReadNext(done, pairs, ok, full, last);
      PairsRead(done + [pairs[0]], pairs[1..], ok, full, rest);
      assert done + [pairs[0]] + pairs[1..] == done + pairs;
    }
  }

  lemma PairsReadNext(done: seq<Pair>, pairs: seq<Pair>, ok: int, full: bool, last: seq<Token>)
    requires 0 <= ok && HeadIs(last, CloseCurly) && pairs != []
    ensures StructPairs(PrintPairs(pairs, done == [], ok, full, last), done, done == [], ok)
         == StructPairs(PrintPairs(pairs[1..], false, ok, full, last), done + [pairs[0]], false, ok)
    decreases pairs, 0
  {
    hide *;
    var more := PrintPairs(pairs[1..], false, ok, full, last);
    var inner := Print(pairs[0].value, ok + 1, full, more);
    var item := [Identifier(pairs[0].field), Colon] + inner;
    var ts := (if done == [] then [] else [Comma]) + item;
    PrintPairsNext(pairs, done == [], ok, full, last);
    MorePairsStart(pairs[1..], ok, full, last);
    AnyBrace(more);
    InnerLevel(pairs[0].value, ok + 1);
    BeheadTwo(Identifier(pairs[0].field), Colon, inner);
    ExpressionReads(pairs[0].value, ok + 1, full, more);
    PairStep(item, pairs[0].value, more, ok);
    Behead(Comma, item);
    assert [] + item == item;
    HeadOf(item, Identifier(pairs[0].field));
    PairsStep(ts, done, pairs[0], more, ok);
  }

  lemma HeadOf(ts: seq<Token>, t: Token)
    requires HeadIs(ts, t)
    ensures ts != [] && ts[0] == t
  {
  }

  lemma ListReads(es: seq<Expr>, ok: int, full: bool, rest: seq<Token>)
    requires -1 <= ok && HeadIs(rest, CloseCurved)
    ensures ExpressionList(PrintList(es, true, ok, full, rest), ok) == Found(es, rest)
    decreases es, 1
  {
    hide *;
    if es == [] {
      EmptyListReads(ok, full, rest);
    } else {
      var more := PrintList(es[1..], false, ok, full, rest);
      PrintListFirst(es, ok, full, rest);
      ItemReads(es, ok, full, rest);
      FirstItem(Print(es[0], ok + 1, full, more), es[0], more, ok);
      ListTailReads([es[0]], es[1..], ok, full, rest);
      assert [es[0]] + es[1..] == es;
    }
  }

  lemma EmptyListReads(ok: int, full: bool, rest: seq<Token>)
    requires HeadIs(rest, CloseCurved)
    ensures ExpressionList(PrintList([], true, ok, full, rest), ok) == Found([], rest)
  {
    hide Print, ParseExpression;
    NoExpression(rest, ok);
  }

  lemma PrintListFirst(es: seq<Expr>, ok: int, full: bool, rest: seq<Token>)
    requires es != []
    ensures PrintList(es, true, ok, full, rest) == Print(es[0], ok + 1, full, PrintList(es[1..], false, ok, full, rest))
  {
    hide Print;
  }

  lemma ItemReads(es: seq<Expr>, ok: int, full: bool, rest: seq<Token>)
    requires -1 <= ok && HeadIs(rest, CloseCurved) && es != []
    ensures var more := PrintList(es[1..], false, ok, full, rest);
            Prefixed(Print(es[0], ok + 1, full, more), ok + 1) == Found(es[0], more)
    decreases es, 0
  {
    hide *;
    var more := PrintList(es[1..], false, ok, full, rest);
    MoreItemsStart(es[1..], ok, full, rest);
    AnyBrace(more);
    InnerLevel(es[0], ok + 1);
    ExpressionReads(es[0], ok + 1, full, more);
  }

  lemma MoreItemsStart(es: seq<Expr>, ok: int, full: bool, rest: seq<Token>)
    requires HeadIs(rest, CloseCurved)
    ensures var more := PrintList(es, false, ok, full, rest);
            HeadIs(more, Comma) || HeadIs(more, CloseCurved)
  {
    hide Print;
  }

  lemma FirstItem(ts: seq<Token>, e: Expr, rest: seq<Token>, ok: int)
    requires Prefixed(ts, ok + 1) == Found(e, rest)
    ensures ExpressionList(ts, ok) == ListTail([e], rest, ok)
  {
    hide Prefixed, ListTail;
  }

  lemma ListTailReads(done: seq<Expr>, es: seq<Expr>, ok: int, full: bool, rest: seq<Token>)
    requires -1 <= ok && HeadIs(rest, CloseCurved)
    ensures ListTail(done, PrintList(es, false, ok, full, rest), ok) == Found(done + es, rest)
    decreases es, 1
  {
    hide *;
    PrintListNext(es, ok, full, rest);
    if es == [] {
      assert done + es == done;
      HeadOf(rest, CloseCurved);
      ListEnds(done, rest, ok);
    } else {
      var more := PrintList(es[1..], false, ok, full, rest);
      var item := Print(es[0], ok + 1, full, more);
      ItemReads(es, ok, full, rest);
      Behead(Comma, item);
      ListStep(done, [Comma] + item, es[0], more, ok);
      ListTailReads(done + [es[0]], es[1..], ok, full, rest);
      assert done + [es[0]] + es[1..] == done + es;
    }
  }

  lemma PrintListNext(es: seq<Expr>, ok: int, full: bool, rest: seq<Token>)
    ensures PrintList(es, false, ok, full, rest)
         == if es == [] then rest
            else [Comma] + Print(es[0], ok + 1, full, PrintList(es[1..], false, ok, full, rest))
  {
    hide Print;
  }

  lemma ListEnds(done: seq<Expr>, ts: seq<Token>, ok: int)
    requires ts != [] && ts[0] == CloseCurved
    ensures ListTail(done, ts, ok) == Found(done, ts)
  {
  }

  lemma CallReads(f: Expr, args: seq<Expr>, ok: int, full: bool, rest: seq<Token>)
    requires -1 <= ok
    ensures Postfix(Print(Call(f, args), ok, full, rest), ok) == PostfixTail(Call(f, args), rest, ok)
    decreases Call(f, args), 0
  {
    var last := [CloseCurved] + rest;
    var after := [OpenCurved] + PrintList(args, true, ok, full, last);
    assert Print(Call(f, args), ok, full, rest) == Operand(f, 0, ok, full, false, after);
    PostfixOperandReads(f, ok, full, after);
    hide *;
    Behead(OpenCurved, PrintList(args, true, ok, full, last));
    Behead(CloseCurved, rest);
    ListReads(args, ok, full, last);
    CallStep(f, after, args, last, ok);
  }

  lemma PostfixOperandReads(e: Expr, ok: int, full: bool, after: seq<Token>)
    requires -1 <= ok && (Stops(after, -1, OperandTakesBrace(e, 0, ok, full, false)) ||
                          HeadIs(after, OpenSquare) || HeadIs(after, OpenCurved) || HeadIs(after, Dot))
    ensures Postfix(Operand(e, 0, ok, full, false, after), ok) == PostfixTail(e, after, ok)
    decreases e, 6
  {
    OperandReads(e, 0, ok, full, false, after);
    PostfixIsLowest(Operand(e, 0, ok, full, false, after), ok);
  }

  lemma PrintIndex(a: Expr, i: Expr, ok: int, full: bool, rest: seq<Token>)
    ensures Print(Index(a, i), ok, full, rest)
         == Operand(a, 0, ok, full, false, [OpenSquare] + Print(i, ok + 1, full, [CloseSquare] + rest))
  {
    hide Operand;
  }

  lemma PrintRange(a: Expr, b: Expr, c: Expr, ok: int, full: bool, rest: seq<Token>)
    ensures Print(RangeExpr(a, b, c), ok, full, rest)
         == [Range, OpenCurved] + Print(a, ok + 1, full,
              [Comma] + Print(b, ok + 1, full,
                [Comma] + Print(c, ok + 1, full, [CloseCurved] + rest)))
  {
    hide Operand;
  }

  lemma PrintCreate(x: Expr, gpu: bool, ok: int, full: bool, rest: seq<Token>)
    ensures Print(CreateWorker(x, gpu), ok, full, rest) == [if gpu then Gpu else Cpu] + Print(x, ok + 1, full, rest)
  {
    hide Operand;
  }

  lemma IndexReads(a: Expr, i: Expr, ok: int, full: bool, rest: seq<Token>)
    requires -1 <= ok
    ensures Postfix(Print(Index(a, i), ok, full, rest), ok) == PostfixTail(Index(a, i), rest, ok)
    decreases Index(a, i), 0
  {
    hide *;
    var last := [CloseSquare] + rest;
    var inner := Print(i, ok + 1, full, last);
    var after := [OpenSquare] + inner;
    PrintIndex(a, i, ok, full, rest);
    Behead(OpenSquare, inner);
    Behead(CloseSquare, rest);
    PostfixOperandReads(a, ok, full, after);
    AnyBrace(last);
    InnerLevel(i, ok + 1);
    ExpressionReads(i, ok + 1, full, last);
    IndexStep(a, after, i, last, ok);
  }

  lemma AccessReads(a: Expr, field: string, ok: int, full: bool, rest: seq<Token>)
    requires -1 <= ok
    ensures Postfix(Print(Access(a, field), ok, full, rest), ok) == PostfixTail(Access(a, field), rest, ok)
    decreases Access(a, field), 0
  {
    var after := [Dot, Identifier(field)] + rest;
    assert Print(Access(a, field), ok, full, rest) == Operand(a, 0, ok, full, false, after);
    PostfixOperandReads(a, ok, full, after);
    hide *;
    BeheadTwo(Dot, Identifier(field), rest);
    AccessStep(a, field, after, ok);
  }

  lemma UnaryReads(op: UnaryOperator, x: Expr, ok: int, full: bool, rest: seq<Token>)
    requires -1 <= ok && Stops(rest, 0, TakesBrace(Unary(op, x), ok, full))
    ensures UnaryExpression(Print(Unary(op, x), ok, full, rest), ok) == Found(Unary(op, x), rest)
    decreases Unary(op, x), 0
  {
    var operand := Operand(x, 0, ok, full, false, rest);
    assert Print(Unary(op, x), ok, full, rest) == [UnaryToken(op)] + operand;
    PostfixOperandReads(x, ok, full, rest);
    TailStops(0, x, rest, ok);
    assert Postfix(operand, ok) == Found(x, rest);
    hide *;
    Behead(UnaryToken(op), operand);
    UnaryStep(op, [UnaryToken(op)] + operand, x, rest, ok);
  }

  lemma {:induction false} BinaryReads(l: Expr, op: BinaryOperator, r: Expr, ok: int, full: bool, rest: seq<Token>)
    requires -1 <= ok && Stops(rest, Rung(op) - 1, TakesBrace(Binary(l, op, r), ok, full))
    ensures Ladder(Rung(op), Print(Binary(l, op, r), ok, full, rest), ok)
         == InfixTail(Rung(op), Binary(l, op, r), rest, ok)
    decreases Binary(l, op, r), 0
  {
    var rung := Rung(op);
    var right := Operand(r, rung - 1, ok, full, full, rest);
    var after := [BinaryToken(op)] + right;
    assert Print(Binary(l, op, r), ok, full, rest) == Operand(l, rung, ok, full, full, after);
    OperatorStops(op, right, OperandTakesBrace(l, rung, ok, full, full));
    hide Print, Operand, Ladder, InfixTail, PostfixTail, Stops;
    OperandReads(l, rung, ok, full, full, after);
    OperandReads(r, rung - 1, ok, full, full, rest);
    TailStops(rung - 1, r, rest, ok);
    Behead(BinaryToken(op), right);
    InfixStep(l, op, after, r, rest, ok);
  }

  lemma OperatorStops(op: BinaryOperator, right: seq<Token>, brace: bool)
    ensures Stops([BinaryToken(op)] + right, Rung(op) - 1, brace)
  {
    assert OperatorOf(BinaryToken(op)) == Some(op);
  }

  /** An allocation outside brackets. */
  lemma {:induction false} BareAllocationReads(e: Expr, ok: int, full: bool, rest: seq<Token>)
    requires -1 <= ok && Level(e, ok) <= 8 && Stops(rest, TOP, TakesBrace(e, ok, full))
    ensures Allocation(Print(e, ok, full, rest), ok) == Found(e, rest)
    decreases e, 2
  {
    var ts := Print(e, ok, full, rest);
    if e.NewExpr? {
      NewReads(e.initialiser, ok, full, rest);
    } else {
      RungReads(e, ok, full, rest);
      PrintStarts(e, ok, full, rest);
      Climb(Level(e, ok), TOP, ts, e, rest, ok);
      TailStops(TOP, e, rest, ok);
      AllocationStep(ts, e, rest, ok);
    }
  }

  lemma NewReads(x: Expr, ok: int, full: bool, rest: seq<Token>)
    requires -1 <= ok && Stops(rest, TOP, TakesBrace(NewExpr(x), ok, full))
    ensures Allocation(Print(NewExpr(x), ok, full, rest), ok) == Found(NewExpr(x), rest)
    decreases NewExpr(x), 0
  {
    var operand := Operand(x, TOP, ok, full, false, rest);
    OperandReads(x, TOP, ok, full, false, rest);
    TailStops(TOP, x, rest, ok);
    Behead(New, operand);
    AllocationStep([New] + operand, x, rest, ok);
  }

  /** An operand of `*`, `drain` or `receive`. */
  lemma AllocationReads(e: Expr, ok: int, full: bool, rest: seq<Token>)
    requires -1 <= ok && Stops(rest, TOP, OperandTakesBrace(e, 8, ok, full, false))
    ensures Allocation(Operand(e, 8, ok, full, false, rest), ok) == Found(e, rest)
    decreases e, 5
  {
    if Level(e, ok) <= 8 {
      BareAllocationReads(e, ok, full, rest);
    } else {
      var ts := Operand(e, 8, ok, full, false, rest);
      BracketsRead(e, ok, full, rest);
      PostfixIsLowest(ts, ok);
      Climb(0, TOP, ts, e, rest, ok);
      TailStops(TOP, e, rest, ok);
      AllocationStep(ts, e, rest, ok);
    }
  }

  /** Every expression is read back whole. */
  lemma ExpressionReads(e: Expr, ok: int, full: bool, rest: seq<Token>)
    requires -1 <= ok && Level(e, ok) <= 9 && Stops(rest, TOP, TakesBrace(e, ok, full))
    ensures Prefixed(Print(e, ok, full, rest), ok) == Found(e, rest)
    decreases e, 3
  {
    hide Print, Operand, Prefixed, Ladder, Allocation;
    match e
    case RangeExpr(a, b, c) => RangeReads(a, b, c, ok, full, rest);
    case Dereference(x) => DereferenceReads(x, ok, full, rest);
    case ReceiveWorker(x, all) => ReceiveReads(x, all, ok, full, rest);
    case CreateWorker(x, gpu) => CreateReads(x, gpu, ok, full, rest);
    case NewExpr(x) =>
      BareAllocationReads(e, ok, full, rest);
      NewStarts(x, ok, full, rest);
      PlainStep(Print(e, ok, full, rest), ok);
    case _ =>
      BareAllocationReads(e, ok, full, rest);
      PrintStarts(e, ok, full, rest);
      PlainStep(Print(e, ok, full, rest), ok);
  }

  lemma NewStarts(x: Expr, ok: int, full: bool, rest: seq<Token>)
    ensures HeadIs(Print(NewExpr(x), ok, full, rest), New)
  {
  }

  lemma DereferenceReads(x: Expr, ok: int, full: bool, rest: seq<Token>)
    requires -1 <= ok && Stops(rest, TOP, TakesBrace(Dereference(x), ok, full))
    ensures Prefixed(Print(Dereference(x), ok, full, rest), ok) == Found(Dereference(x), rest)
    decreases Dereference(x), 0
  {
    var operand := Operand(x, 8, ok, full, false, rest);
    assert Print(Dereference(x), ok, full, rest) == [Multiply] + operand;
    hide *;
    Behead(Multiply, operand);
    AllocationReads(x, ok, full, rest);
    DereferenceStep([Multiply] + operand, x, rest, ok);
  }

  lemma CreateTakesBrace(x: Expr, gpu: bool, ok: int, full: bool)
    ensures TakesBrace(CreateWorker(x, gpu), ok, full) == TakesBrace(x, ok + 1, full)
  {
  }

  lemma CreateReads(x: Expr, gpu: bool, ok: int, full: bool, rest: seq<Token>)
    requires 0 <= ok && Stops(rest, TOP, TakesBrace(CreateWorker(x, gpu), ok, full))
    ensures Prefixed(Print(CreateWorker(x, gpu), ok, full, rest), ok) == Found(CreateWorker(x, gpu), rest)
    decreases CreateWorker(x, gpu), 0
  {
    hide *;
    var inner := Print(x, ok + 1, full, rest);
    var head := if gpu then Gpu else Cpu;
    PrintCreate(x, gpu, ok, full, rest);
    assert TakesBrace(CreateWorker(x, gpu), ok, full) == TakesBrace(x, ok + 1, full) by {
      CreateTakesBrace(x, gpu, ok, full);
    }
    Behead(head, inner);
    InnerLevel(x, ok + 1);
    ExpressionReads(x, ok + 1, full, rest);
    CreateStep([head] + inner, x, rest, gpu, ok);
  }

  lemma ReceiveReads(x: Expr, all: bool, ok: int, full: bool, rest: seq<Token>)
    requires -1 <= ok
    ensures Prefixed(Print(ReceiveWorker(x, all), ok, full, rest), ok) == Found(ReceiveWorker(x, all), rest)
    decreases ReceiveWorker(x, all), 0
  {
    var last := [CloseCurved] + rest;
    var operand := Operand(x, 8, ok, full, false, last);
    var head := if all then Drain else Receive;
    assert Print(ReceiveWorker(x, all), ok, full, rest) == [head, OpenCurved] + operand;
    assert forall brace :: Stops(last, TOP, brace);
    hide *;
    BeheadTwo(head, OpenCurved, operand);
    Behead(CloseCurved, rest);
    AllocationReads(x, ok, full, last);
    ReceiveStep([head, OpenCurved] + operand, x, last, all, ok);
  }

  lemma RangeReads(a: Expr, b: Expr, c: Expr, ok: int, full: bool, rest: seq<Token>)
    requires -1 <= ok
    ensures Prefixed(Print(RangeExpr(a, b, c), ok, full, rest), ok) == Found(RangeExpr(a, b, c), rest)
    decreases RangeExpr(a, b, c), 0
  {
    hide *;
    var last := [CloseCurved] + rest;
    var third := Print(c, ok + 1, full, last);
    var second := Print(b, ok + 1, full, [Comma] + third);
    var first := Print(a, ok + 1, full, [Comma] + second);
    var ts := [Range, OpenCurved] + first;
    PrintRange(a, b, c, ok, full, rest);
    BeheadTwo(Range, OpenCurved, first);
    Behead(Comma, second);
    Behead(Comma, third);
    Behead(CloseCurved, rest);
    AnyBrace([Comma] + second);
    AnyBrace([Comma] + third);
    AnyBrace(last);
    InnerLevel(a, ok + 1);
    InnerLevel(b, ok + 1);
    InnerLevel(c, ok + 1);
    ExpressionReads(a, ok + 1, full, [Comma] + second);
    ExpressionReads(b, ok + 1, full, [Comma] + third);
    ExpressionReads(c, ok + 1, full, last);
    RangeStep(ts, a, b, c, [Comma] + second, [Comma] + third, last, ok);
    RangeIsPrefixed(ts, ok);
  }

  lemma RangeIsPrefixed(ts: seq<Token>, ok: int)
    requires HeadIs(ts, Range)
    ensures Prefixed(ts, ok) == RangeExpression(ts, ok)
  {
    hide RangeExpression;
  }

  // ---------------------------------------------------------------- whole expressions

  /**
    Parsing undoes printing, for every expression, with any bracketing style and wherever
    struct literals are (`ok >= -1`) or are not (`ok == -2`, the condition of an `if` or a loop) allowed.
  */
  lemma {:induction false} ParseUndoesPrint(e: Expr, ok: int, full: bool, rest: seq<Token>)
    requires -2 <= ok && Stops(rest, TOP, OperandTakesBrace(e, 9, ok + 1, full, false))
    ensures ParseExpression(Operand(e, 9, ok + 1, full, false, rest), ok) == Found(e, rest)
  {
    hide Prefixed, Print, Operand, Ends;
    OperandIs(e, 9, ok + 1, full, false, rest);
    if Level(e, ok + 1) <= 9 {
      ExpressionReads(e, ok + 1, full, rest);
    } else {
      BracketedReads(e, ok + 1, full, rest);
    }
  }

  /** Where struct literals are not allowed, a brace is never taken. */
  lemma {:induction false} NoBraceOutside(e: Expr, ok: int, full: bool)
    requires ok < 0 && Level(e, ok) <= 9
    ensures !TakesBrace(e, ok, full)
    decreases e
  {
    match e
    case Unary(_, x) => if Level(x, ok) <= 9 { NoBraceOutside(x, ok, full); }
    case Binary(_, _, x) => if Level(x, ok) <= 9 { NoBraceOutside(x, ok, full); }
    case NewExpr(x) => if Level(x, ok) <= 9 { NoBraceOutside(x, ok, full); }
    case Dereference(x) => if Level(x, ok) <= 9 { NoBraceOutside(x, ok, full); }
    case _ =>
  }

  lemma OperandIs(e: Expr, level: nat, ok: int, full: bool, force: bool, rest: seq<Token>)
    ensures Operand(e, level, ok, full, force, rest)
         == if force || Level(e, ok) > level
            then [OpenCurved] + Print(e, ok + 1, full, [CloseCurved] + rest)
            else Print(e, ok, full, rest)
  {
    hide Print;
  }

  /** In brackets, an expression is read whatever follows, even a block. */
  lemma BracketedReads(e: Expr, ok: int, full: bool, rest: seq<Token>)
    requires -1 <= ok && Ends(rest, TOP)
    ensures Prefixed([OpenCurved] + Print(e, ok + 1, full, [CloseCurved] + rest), ok) == Found(e, rest)
  {
    hide Prefixed, Allocation, Ladder, Postfix, Print;
    var inner := Print(e, ok + 1, full, [CloseCurved] + rest);
    var ts := [OpenCurved] + inner;
    BracketsRead(e, ok, full, rest);
    Behead(OpenCurved, inner);
    PostfixIsLowest(ts, ok);
    Climb(0, TOP, ts, e, rest, ok);
    TailStops(TOP, e, rest, ok);
    AllocationStep(ts, e, rest, ok);
    PlainStep(ts, ok);
  }

  /** A name before a brace is only a name in the condition of an `if` or a loop (`ok == -2`); in an `elseif`
      (`ok == 0`), as anywhere else, the brace is taken as the start of a struct literal. */
  lemma NameBeforeBrace(name: string, block: seq<Token>, ok: int)
    ensures ok < -1 <==>
      ParseExpression([Identifier(name), OpenCurly] + block, ok)
      == Found(IdentifierTerminal(name), [OpenCurly] + block)
  {
    hide Prefixed, Postfix, Allocation, Ends;
    var ts, after := [Identifier(name), OpenCurly] + block, [OpenCurly] + block;
    PrependTwo(Identifier(name), OpenCurly, block);
    if ok < -1 {
      BraceEnds(block);
      PlainStep(ts, ok + 1);
      NameAlone(name, after, ok + 1);
    } else {
      BareBeforeBrace(IdentifierTerminal(name), ok, false, block);
      PrintsName(name, ok + 1, false, block);
    }
  }

  lemma PrependTwo(t: Token, u: Token, rest: seq<Token>)
    ensures [t, u] + rest == [t] + ([u] + rest)
  {
  }

  lemma BraceEnds(block: seq<Token>)
    ensures Ends([OpenCurly] + block, TOP)
  {
  }

  lemma NameAlone(name: string, after: seq<Token>, ok: int)
    requires ok < 0 && Ends(after, TOP)
    ensures Allocation([Identifier(name)] + after, ok) == Found(IdentifierTerminal(name), after)
  {
    hide Allocation, Ladder, Postfix;
    var ts := [Identifier(name)] + after;
    assert ts[1..] == after;
    LiteralStep(ts, IdentifierTerminal(name), after, ok);
    PostfixIsLowest(ts, ok);
    Climb(0, TOP, ts, IdentifierTerminal(name), after, ok);
    TailStops(TOP, IdentifierTerminal(name), after, ok);
    AllocationStep(ts, IdentifierTerminal(name), after, ok);
  }

  lemma BraceTaken(name: string, block: seq<Token>, ok: int)
    requires 0 <= ok
    ensures var ts, after := [Identifier(name), OpenCurly] + block, [OpenCurly] + block;
            match Postfix(ts, ok) case Found(_, rest) => |rest| < |after| case _ => true
  {
    hide StructPairs, PostfixTail;
    var ts, after := [Identifier(name), OpenCurly] + block, [OpenCurly] + block;
    assert ts == [Identifier(name)] + after && ts[1..] == after && after[1..] == block;
    var body := StructLiteralBody(after, ok);
    assert !body.NotFound? && (body.Found? ==> |body.rest| < |after|);
    assert Primary(ts, ok) == Literal(ts, ok);
  }

  // ---------------------------------------------------------------- before a brace

  /** Not all of `after` is left, or nothing was read. */
  predicate Spoilt(r: Parsed<Expr>, after: seq<Token>) {
    r.Found? ==> |r.rest| < |after|
  }

  /** A rung never gives back what a lower one consumed. */
  lemma {:induction false} StaysSpoilt(from: nat, level: nat, ts: seq<Token>, after: seq<Token>, ok: int)
    requires from <= level && Spoilt(Ladder(from, ts, ok), after)
    requires from == 0 ==> !HeadIs(ts, Not) && !HeadIs(ts, Minus)
    ensures Spoilt(Ladder(level, ts, ok), after)
  {
    hide Postfix, InfixTail;
    if from < level {
      StaysSpoilt(from, level - 1, ts, after, ok);
    }
  }

  lemma {:induction false} RungSpoilt(e: Expr, ok: int, full: bool, block: seq<Token>)
    requires 0 <= ok && Level(e, ok) <= TOP && TakesBrace(e, ok, full)
    ensures Spoilt(Ladder(Level(e, ok), Print(e, ok, full, [OpenCurly] + block), ok), [OpenCurly] + block)
    decreases e, 0
  {
    hide Ladder, Postfix, InfixTail, Print, Operand;
    var after := [OpenCurly] + block;
    var ts := Print(e, ok, full, after);
    PostfixIsLowest(ts, ok);
    match e
    case IdentifierTerminal(name) =>
      BraceTaken(name, block, ok);
      PrintsName(name, ok, full, block);
    case Unary(op, x) =>
      OperandSpoilt(x, 0, ok, full, false, block);
      UnarySpoilt(op, x, ok, full, after);
    case Binary(l, op, r) =>
      OperandSpoilt(r, Rung(op) - 1, ok, full, full, block);
      BinarySpoilt(l, op, r, ok, full, after);
  }

  lemma {:induction false} OperandSpoilt(e: Expr, level: nat, ok: int, full: bool, force: bool, block: seq<Token>)
    requires 0 <= ok && level <= TOP && OperandTakesBrace(e, level, ok, full, force)
    ensures Spoilt(Ladder(level, Operand(e, level, ok, full, force, [OpenCurly] + block), ok), [OpenCurly] + block)
    decreases e, 1
  {
    hide Ladder, Print;
    var after := [OpenCurly] + block;
    RungSpoilt(e, ok, full, block);
    PrintStarts(e, ok, full, after);
    OperandIs(e, level, ok, full, force, after);
    StaysSpoilt(Level(e, ok), level, Print(e, ok, full, after), after, ok);
  }

  lemma PrintsName(name: string, ok: int, full: bool, block: seq<Token>)
    ensures Print(IdentifierTerminal(name), ok, full, [OpenCurly] + block) == [Identifier(name), OpenCurly] + block
  {
    PrependTwo(Identifier(name), OpenCurly, block);
  }

  lemma UnarySpoilt(op: UnaryOperator, x: Expr, ok: int, full: bool, after: seq<Token>)
    requires Spoilt(Ladder(0, Operand(x, 0, ok, full, false, after), ok), after)
    ensures Spoilt(Ladder(1, Print(Unary(op, x), ok, full, after), ok), after)
  {
    hide Postfix, Operand;
    var operand := Operand(x, 0, ok, full, false, after);
    var ts := Print(Unary(op, x), ok, full, after);
    assert ts == [UnaryToken(op)] + operand;
    Behead(UnaryToken(op), operand);
    PostfixIsLowest(operand, ok);
    PostfixIsLowest(ts, ok);
  }

  lemma BinarySpoilt(l: Expr, op: BinaryOperator, r: Expr, ok: int, full: bool, after: seq<Token>)
    requires 0 <= ok
    requires Spoilt(Ladder(Rung(op) - 1, Operand(r, Rung(op) - 1, ok, full, full, after), ok), after)
    ensures Spoilt(Ladder(Rung(op), Print(Binary(l, op, r), ok, full, after), ok), after)
  {
    var rung := Rung(op);
    var right := Operand(r, rung - 1, ok, full, full, after);
    var middle := [BinaryToken(op)] + right;
    assert Print(Binary(l, op, r), ok, full, after) == Operand(l, rung, ok, full, full, middle);
    OperatorStops(op, right, OperandTakesBrace(l, rung, ok, full, full));
    hide Print, Operand, Ladder, PostfixTail, Stops, TakesBrace, OperandTakesBrace;
    OperandReads(l, rung, ok, full, full, middle);
    Behead(BinaryToken(op), right);
    InfixSpoilt(l, op, right, after, ok);
  }

  lemma InfixSpoilt(l: Expr, op: BinaryOperator, right: seq<Token>, after: seq<Token>, ok: int)
    requires Spoilt(Ladder(Rung(op) - 1, right, ok), after)
    ensures Spoilt(InfixTail(Rung(op), l, [BinaryToken(op)] + right, ok), after)
  {
    hide Ladder;
    Behead(BinaryToken(op), right);
  }

  lemma {:induction false} PrefixedSpoilt(e: Expr, ok: int, full: bool, block: seq<Token>)
    requires 0 <= ok && Level(e, ok) <= 9 && TakesBrace(e, ok, full)
    ensures Spoilt(Prefixed(Print(e, ok, full, [OpenCurly] + block), ok), [OpenCurly] + block)
    decreases e, 2
  {
    hide Ladder, Print, Operand, Allocation, Prefixed;
    var after := [OpenCurly] + block;
    match e
    case NewExpr(_) =>
      AllocationSpoilt(e, ok, full, block);
      NewStarts(e.initialiser, ok, full, after);
      PlainStep(Print(e, ok, full, after), ok);
    case Dereference(x) =>
      AllocationSpoilt(x, ok, full, block);
      DereferenceSpoilt(x, ok, full, after);
    case CreateWorker(x, gpu) =>
      InnerLevel(x, ok + 1);
      PrefixedSpoilt(x, ok + 1, full, block);
      CreateSpoilt(x, gpu, ok, full, after);
    case _ =>
      AllocationSpoilt(e, ok, full, block);
      PrintStarts(e, ok, full, after);
      PlainStep(Print(e, ok, full, after), ok);
  }

  lemma {:induction false} AllocationSpoilt(e: Expr, ok: int, full: bool, block: seq<Token>)
    requires 0 <= ok && Level(e, ok) <= 8 && TakesBrace(e, ok, full)
    ensures Spoilt(Allocation(Print(e, ok, full, [OpenCurly] + block), ok), [OpenCurly] + block)
    decreases e, 1
  {
    hide Ladder, Operand;
    var after := [OpenCurly] + block;
    if e.NewExpr? {
      var operand := Operand(e.initialiser, TOP, ok, full, false, after);
      OperandSpoilt(e.initialiser, TOP, ok, full, false, block);
      Behead(New, operand);
      assert Print(e, ok, full, after) == [New] + operand;
    } else {
      hide Print;
      RungSpoilt(e, ok, full, block);
      PrintStarts(e, ok, full, after);
      StaysSpoilt(Level(e, ok), TOP, Print(e, ok, full, after), after, ok);
    }
  }

  lemma DereferenceSpoilt(x: Expr, ok: int, full: bool, after: seq<Token>)
    requires Level(x, ok) <= 8 && Spoilt(Allocation(Print(x, ok, full, after), ok), after)
    ensures Spoilt(Prefixed(Print(Dereference(x), ok, full, after), ok), after)
  {
    hide Allocation;
    var operand := Operand(x, 8, ok, full, false, after);
    OperandIs(x, 8, ok, full, false, after);
    assert Print(Dereference(x), ok, full, after) == [Multiply] + operand;
    Behead(Multiply, operand);
  }

  lemma CreateSpoilt(x: Expr, gpu: bool, ok: int, full: bool, after: seq<Token>)
    requires Spoilt(Prefixed(Print(x, ok + 1, full, after), ok + 1), after)
    ensures Spoilt(Prefixed(Print(CreateWorker(x, gpu), ok, full, after), ok), after)
  {
    hide Allocation;
    PrintCreate(x, gpu, ok, full, after);
    Behead(if gpu then Gpu else Cpu, Print(x, ok + 1, full, after));
  }

  /** Where struct literals are allowed, as in the condition of an `elseif`, a bare expression is read before a block
      exactly when it does not end in a name; the name of a field is no such name. */
  lemma BareBeforeBrace(e: Expr, ok: int, full: bool, block: seq<Token>)
    requires -1 <= ok
    ensures ParseExpression(Print(e, ok + 1, full, [OpenCurly] + block), ok) == Found(e, [OpenCurly] + block)
       <==> !TakesBrace(e, ok + 1, full)
  {
    hide Prefixed, Print, Ends;
    InnerLevel(e, ok + 1);
    if TakesBrace(e, ok + 1, full) {
      PrefixedSpoilt(e, ok + 1, full, block);
    } else {
      BraceEnds(block);
      ExpressionReads(e, ok + 1, full, [OpenCurly] + block);
    }
  }

  /** A range of one value starts at 0 and one of two values has step 1. */
  lemma RangeDefaults(a: Expr, b: Expr, ok: int, full: bool, rest: seq<Token>)
    requires -1 <= ok
    ensures Prefixed([Range, OpenCurved] + Print(a, ok + 1, full, [CloseCurved] + rest), ok)
         == Found(RangeExpr(IntegerTerminal(0), a, IntegerTerminal(1)), rest)
    ensures Prefixed([Range, OpenCurved]
                     + Print(a, ok + 1, full, [Comma] + Print(b, ok + 1, full, [CloseCurved] + rest)), ok)
         == Found(RangeExpr(a, b, IntegerTerminal(1)), rest)
  {
    hide *;
    var last := [CloseCurved] + rest;
    var second := Print(b, ok + 1, full, last);
    var one := Print(a, ok + 1, full, last);
    var two := Print(a, ok + 1, full, [Comma] + second);
    Behead(CloseCurved, rest);
    Behead(Comma, second);
    BeheadTwo(Range, OpenCurved, one);
    BeheadTwo(Range, OpenCurved, two);
    AnyBrace(last);
    AnyBrace([Comma] + second);
    InnerLevel(a, ok + 1);
    InnerLevel(b, ok + 1);
    ExpressionReads(a, ok + 1, full, last);
    ExpressionReads(a, ok + 1, full, [Comma] + second);
    ExpressionReads(b, ok + 1, full, last);
    OneValueRange([Range, OpenCurved] + one, a, last, ok);
    TwoValueRange([Range, OpenCurved] + two, a, b, [Comma] + second, last, ok);
    RangeIsPrefixed([Range, OpenCurved] + one, ok);
    RangeIsPrefixed([Range, OpenCurved] + two, ok);
  }

  lemma {:induction false} OneValueRange(ts: seq<Token>, a: Expr, last: seq<Token>, ok: int)
    requires HeadIs(ts, Range) && HeadIs(ts[1..], OpenCurved) && HeadIs(last, CloseCurved)
    requires Prefixed(ts[2..], ok + 1) == Found(a, last)
    ensures RangeExpression(ts, ok) == Found(RangeExpr(IntegerTerminal(0), a, IntegerTerminal(1)), last[1..])
  {
    hide Prefixed;
    assert RangeTail([a], 0, last, ok) == Found([a], last);
    assert RangeTail([a], 1, last, ok) == Found([a], last);
    assert RangeTail([a], 2, last, ok) == Found([a], last);
  }

  lemma {:induction false} TwoValueRange(ts: seq<Token>, a: Expr, b: Expr, ts1: seq<Token>, last: seq<Token>, ok: int)
    requires HeadIs(ts, Range) && HeadIs(ts[1..], OpenCurved) && HeadIs(ts1, Comma) && HeadIs(last, CloseCurved)
    requires Prefixed(ts[2..], ok + 1) == Found(a, ts1)
    requires Prefixed(ts1[1..], ok + 1) == Found(b, last)
    ensures RangeExpression(ts, ok) == Found(RangeExpr(a, b, IntegerTerminal(1)), last[1..])
  {
    hide Prefixed;
    assert [a] + [b] == [a, b];
    assert RangeTail([a, b], 0, last, ok) == Found([a, b], last);
    assert RangeTail([a, b], 1, last, ok) == Found([a, b], last);
    assert RangeTail([a], 2, ts1, ok) == Found([a, b], last);
  }

  lemma PrintName(a: string, level: nat, ok: int, rest: seq<Token>)
    ensures Operand(IdentifierTerminal(a), level, ok, false, false, rest) == [Identifier(a)] + rest
  {
  }

  /** The tokens of three names with two operators between them. */
  function TwoOperatorTokens(a: string, op: BinaryOperator, b: string, next: BinaryOperator,
                             c: string): (ts: seq<Token>)
    ensures ts == [Identifier(a), BinaryToken(op), Identifier(b), BinaryToken(next), Identifier(c)]
  {
    [Identifier(a)] + ([BinaryToken(op)] + ([Identifier(b)] + ([BinaryToken(next)] + ([Identifier(c)] + []))))
  }

  /** Without brackets the earlier of two equal rungs, else the lower rung, binds first. */
  lemma TwoOperators(a: string, op: BinaryOperator, b: string, next: BinaryOperator, c: string)
    ensures ParseExpression(TwoOperatorTokens(a, op, b, next, c), 0)
         == Found(if Rung(op) <= Rung(next)
                  then Binary(Binary(IdentifierTerminal(a), op, IdentifierTerminal(b)), next, IdentifierTerminal(c))
                  else Binary(IdentifierTerminal(a), op, Binary(IdentifierTerminal(b), next, IdentifierTerminal(c))),
                [])
  {
    hide ParseExpression, BinaryToken, TwoOperatorTokens;
    if Rung(op) <= Rung(next) {
      LeftFirst(a, op, b, next, c);
    } else {
      RightFirst(a, op, b, next, c);
    }
  }

  lemma LeftFirst(a: string, op: BinaryOperator, b: string, next: BinaryOperator, c: string)
    requires Rung(op) <= Rung(next)
    ensures ParseExpression(TwoOperatorTokens(a, op, b, next, c), 0)
         == Found(Binary(Binary(IdentifierTerminal(a), op, IdentifierTerminal(b)), next, IdentifierTerminal(c)), [])
  {
    hide ParseExpression, Print, Operand, BinaryToken, Rung;
    var x, y, z := IdentifierTerminal(a), IdentifierTerminal(b), IdentifierTerminal(c);
    var third := [BinaryToken(next)] + ([Identifier(c)] + []);
    var l := Binary(x, op, y);
    PrintBinary(x, op, y, 1, third);
    PrintBinary(l, next, z, 1, []);
    OperandIs(l, Rung(next), 1, false, false, third);
    OperandIs(Binary(l, next, z), 9, 1, false, false, []);
    PrintName(a, Rung(op), 1, [BinaryToken(op)] + ([Identifier(b)] + third));
    PrintName(b, Rung(op) - 1, 1, third);
    PrintName(c, Rung(next) - 1, 1, []);
    ParseUndoesPrint(Binary(l, next, z), 0, false, []);
  }

  lemma RightFirst(a: string, op: BinaryOperator, b: string, next: BinaryOperator, c: string)
    requires Rung(op) > Rung(next)
    ensures ParseExpression(TwoOperatorTokens(a, op, b, next, c), 0)
         == Found(Binary(IdentifierTerminal(a), op, Binary(IdentifierTerminal(b), next, IdentifierTerminal(c))), [])
  {
    hide ParseExpression, Print, Operand, BinaryToken, Rung;
    var x, y, z := IdentifierTerminal(a), IdentifierTerminal(b), IdentifierTerminal(c);
    var third := [BinaryToken(next)] + ([Identifier(c)] + []);
    var r := Binary(y, next, z);
    PrintBinary(y, next, z, 1, []);
    PrintBinary(x, op, r, 1, []);
    OperandIs(r, Rung(op) - 1, 1, false, false, []);
    OperandIs(Binary(x, op, r), 9, 1, false, false, []);
    PrintName(a, Rung(op), 1, [BinaryToken(op)] + ([Identifier(b)] + third));
    PrintName(b, Rung(next), 1, third);
    PrintName(c, Rung(next) - 1, 1, []);
    ParseUndoesPrint(Binary(x, op, r), 0, false, []);
  }

  lemma PrintBinary(l: Expr, op: BinaryOperator, r: Expr, ok: int, rest: seq<Token>)
    ensures Print(Binary(l, op, r), ok, false, rest)
         == Operand(l, Rung(op), ok, false, false,
                    [BinaryToken(op)] + Operand(r, Rung(op) - 1, ok, false, false, rest))
  {
    hide Operand;
  }
}
