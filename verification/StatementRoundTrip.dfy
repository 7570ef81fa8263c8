/**
  Statements: parsing undoes printing.  Statements stand where `structLiteralOk` is 0.
*/
module StatementRoundTrip {
  import opened Wrappers
  import opened Grammar
  import opened StatementGrammar
  import opened RoundTrip

  // ---------------------------------------------------------------- the printer

  function PrintIndices(indices: seq<Expr>, full: bool, rest: seq<Token>): seq<Token> {
    if indices == [] then rest
    else [OpenSquare] + Print(indices[0], 1, full, [CloseSquare] + PrintIndices(indices[1..], full, rest))
  }

  function PrintLValue(lv: LValue, full: bool, rest: seq<Token>): seq<Token> {
    var indices := PrintIndices(lv.indices, full, rest);
    var name := [Identifier(lv.name)] + if lv.field.Some? then [Dot] + ([Identifier(lv.field.value)] + indices)
        else indices;
    if lv.deref then [Multiply] + name else name
  }

  function PrintLValues(lvs: seq<LValue>, first: bool, full: bool, rest: seq<Token>): seq<Token> {
    if lvs == [] then rest
    else
      var item := PrintLValue(lvs[0], full, PrintLValues(lvs[1..], false, full, rest));
      if first then item else [Comma] + item
  }

  /** The tokens of `s` followed by `rest`. */
  function PrintStmt(s: Stmt, full: bool, rest: seq<Token>): seq<Token>
    decreases s
  {
    match s
    case ExpressionStatement(e) => Print(e, 1, full, [Semicolon] + rest)
    case ReturnStatement(values) => [Return] + PrintList(values, true, 0, full, [Semicolon] + rest)
    case BreakStatement => [Break] + ([Semicolon] + rest)
    case SendStatement(pipe, value) =>
      [Send, OpenCurved] + Print(pipe, 1, full, [Comma] + Print(value, 1, full, [CloseCurved] + ([Semicolon] + rest)))
    case AssignStatement(kind, lhs, rhs) =>
      var after := PrintLValues(lhs, true, full, [Equals] + PrintList(rhs, true, 0, full, [Semicolon] + rest));
      (match kind
       case AssignNormal => after
       case AssignLet => [Let] + after
       case AssignConst => [Const] + after)
    case ModifyInPlaceStatement(lhs, op, e) =>
      PrintLValues(lhs, true, full, [ModifyToken(op)] + Print(e, 1, full, [Semicolon] + rest))
    case WhileStatement(condition, body) => [While] + PrintCondition(condition, full, PrintBlock(body, full, rest))
    case ForeachStatement(name, iterable, body) =>
      [Foreach] + ([Identifier(name)] + ([Colon] + PrintCondition(iterable, full, PrintBlock(body, full, rest))))
    case IfStatement(segments, otherwise) =>
      var last := if otherwise.Some? then [Else] + PrintBlock(otherwise.value, full, rest) else rest;
      PrintSegments(segments, true, full, last)
  }

  /** A condition of `if` or of a loop: brackets only where no struct literal may start. */
  function PrintCondition(e: Expr, full: bool, rest: seq<Token>): seq<Token> {
    Operand(e, 9, -1, full, false, rest)
  }

  function PrintSegments(segments: seq<Segment>, first: bool, full: bool, rest: seq<Token>): seq<Token>
    decreases segments
  {
    if segments == [] then rest
    else PrintSegment(segments[0], first, full, PrintSegments(segments[1..], false, full, rest))
  }

  /** The condition of an `elseif` needs brackets just where it ends in a name: see `BareBeforeBrace`. */
  function PrintSegment(s: Segment, first: bool, full: bool, rest: seq<Token>): seq<Token>
    decreases s
  {
    var after := PrintBlock(s.block, full, rest);
    if first then [If] + PrintCondition(s.condition, full, after)
    else [ElseIf] + Operand(s.condition, 9, 1, full, TakesBrace(s.condition, 1, full), after)
  }

  function PrintBlock(b: Block, full: bool, rest: seq<Token>): seq<Token>
    decreases b
  {
    [OpenCurly] + PrintStmts(b.stmts, full, [CloseCurly] + rest)
  }

  function PrintStmts(ss: seq<Stmt>, full: bool, rest: seq<Token>): seq<Token>
    decreases ss
  {
    if ss == [] then rest else PrintStmt(ss[0], full, PrintStmts(ss[1..], full, rest))
  }

  /** The shapes the parser makes. */
  predicate Shaped(s: Stmt)
    decreases s
  {
    match s
    case AssignStatement(kind, lhs, rhs) => lhs != [] && rhs != [] && (kind != AssignNormal ==> |rhs| == 1)
    case ModifyInPlaceStatement(lhs, _, _) => lhs != []
    case WhileStatement(_, body) => ShapedBlock(body)
    case ForeachStatement(_, _, body) => ShapedBlock(body)
    case IfStatement(segments, otherwise) =>
      && segments != []
      && (forall i :: 0 <= i < |segments| ==> ShapedSegment(segments[i]))
      && (otherwise.Some? ==> ShapedBlock(otherwise.value))
    case _ => true
  }

  predicate ShapedSegment(s: Segment)
    decreases s
  {
    ShapedBlock(s.block)
  }

  predicate ShapedBlock(b: Block)
    decreases b
  {
    forall i :: 0 <= i < |b.stmts| ==> Shaped(b.stmts[i])
  }

  /** What may follow a statement: nothing that would be taken as part of it. */
  predicate Calm(rest: seq<Token>) {
    !HeadIs(rest, Semicolon) && !HeadIs(rest, ElseIf) && !HeadIs(rest, Else)
  }

  // ---------------------------------------------------------------- what can be assigned

  lemma ReadOne(e: Expr, full: bool, rest: seq<Token>)
    requires Ends(rest, TOP) && !HeadIs(rest, OpenCurly)
    ensures ParseExpression(Print(e, 1, full, rest), 0) == Found(e, rest)
  {
    hide Prefixed, Print, Ends;
    InnerLevel(e, 1);
    ExpressionReads(e, 1, full, rest);
  }

  lemma IndicesRead(done: seq<Expr>, indices: seq<Expr>, full: bool, rest: seq<Token>)
    requires !HeadIs(rest, OpenSquare)
    ensures Indices(done, PrintIndices(indices, full, rest), 0) == Found(done + indices, rest)
    decreases |indices|
  {
    hide ParseExpression, Print;
    if indices == [] {
      assert done + indices == done;
    } else {
      var more := PrintIndices(indices[1..], full, rest);
      var inner := Print(indices[0], 1, full, [CloseSquare] + more);
      Behead(OpenSquare, inner);
      Behead(CloseSquare, more);
      ReadOne(indices[0], full, [CloseSquare] + more);
      IndicesRead(done + [indices[0]], indices[1..], full, rest);
      assert done + [indices[0]] + indices[1..] == done + indices;
    }
  }

  /** What may follow the things assigned to. */
  predicate EndsLValue(rest: seq<Token>) {
    HeadIs(rest, Comma) || HeadIs(rest, Equals) || ModifyOperatorOf(rest).Some?
  }

  lemma LValueReads(lv: LValue, full: bool, rest: seq<Token>)
    requires EndsLValue(rest)
    ensures DereferenceLValue(PrintLValue(lv, full, rest), 0) == Found(lv, rest)
  {
    hide Indices, PrintIndices;
    var indices := PrintIndices(lv.indices, full, rest);
    IndicesRead([], lv.indices, full, rest);
    assert [] + lv.indices == lv.indices;
    var tail := if lv.field.Some? then [Dot] + ([Identifier(lv.field.value)] + indices) else indices;
    var name := [Identifier(lv.name)] + tail;
    NameReads(lv.deref, lv.name, lv.field, lv.indices, full, rest);
    Behead(Multiply, name);
    assert !HeadIs(name, Multiply);
  }

  lemma {:induction false} NameReads(deref: bool, name: string, field: Option<string>, indices: seq<Expr>,
                                     full: bool, rest: seq<Token>)
    requires EndsLValue(rest)
    ensures var after := PrintIndices(indices, full, rest);
            var named := if field.Some? then [Dot] + ([Identifier(field.value)] + after) else after;
            IndexingLValue(deref, [Identifier(name)] + named, 0)
            == Found(LValue(deref, name, field, indices), rest)
  {
    hide Indices, PrintIndices;
    var after := PrintIndices(indices, full, rest);
    IndicesRead([], indices, full, rest);
    assert [] + indices == indices;
    if field.Some? {
      FieldStep(deref, name, field.value, after);
    } else {
      NoDot(indices, full, rest);
      NameStep(deref, name, after);
    }
  }

  lemma FieldStep(deref: bool, name: string, field: string, after: seq<Token>)
    ensures var r := Indices([], after, 0);
            r.Found? ==> IndexingLValue(deref, [Identifier(name)] + ([Dot] + ([Identifier(field)] + after)), 0)
                         == Found(LValue(deref, name, Some(field), r.value), r.rest)
  {
    hide Indices;
    var ts := [Identifier(name)] + ([Dot] + ([Identifier(field)] + after));
    assert ts[2] == Identifier(field) && ts[3..] == after;
  }

  lemma NameStep(deref: bool, name: string, after: seq<Token>)
    requires !HeadIs(after, Dot)
    ensures var r := Indices([], after, 0);
            r.Found? ==> IndexingLValue(deref, [Identifier(name)] + after, 0)
                         == Found(LValue(deref, name, None, r.value), r.rest)
  {
    hide Indices;
    assert ([Identifier(name)] + after)[1..] == after;
  }

  lemma NoDot(indices: seq<Expr>, full: bool, rest: seq<Token>)
    requires EndsLValue(rest)
    ensures !HeadIs(PrintIndices(indices, full, rest), Dot)
  {
    hide Print;
  }

  lemma {:induction false} LValuesRead(lvs: seq<LValue>, full: bool, rest: seq<Token>)
    requires lvs != [] && EndsLValue(rest) && !HeadIs(rest, Comma)
    ensures LValues(PrintLValues(lvs, true, full, rest), 0) == Found(lvs, rest)
  {
    hide DereferenceLValue, PrintLValue;
    var more := PrintLValues(lvs[1..], false, full, rest);
    LValueReads(lvs[0], full, more);
    LValueTailReads([lvs[0]], lvs[1..], full, rest);
    assert [lvs[0]] + lvs[1..] == lvs;
  }

  lemma LValueTailReads(done: seq<LValue>, lvs: seq<LValue>, full: bool, rest: seq<Token>)
    requires EndsLValue(rest) && !HeadIs(rest, Comma)
    ensures LValueTail(done, PrintLValues(lvs, false, full, rest), 0) == Found(done + lvs, rest)
    decreases |lvs|
  {
    hide DereferenceLValue, PrintLValue;
    if lvs == [] {
      assert done + lvs == done;
    } else {
      var more := PrintLValues(lvs[1..], false, full, rest);
      var item := PrintLValue(lvs[0], full, more);
      Behead(Comma, item);
      LValueReads(lvs[0], full, more);
      LValueTailReads(done + [lvs[0]], lvs[1..], full, rest);
      assert done + [lvs[0]] + lvs[1..] == done + lvs;
    }
  }

  // ---------------------------------------------------------------- an expression is no assignment

  /** Printing depends on `structLiteralOk` by its sign only. */
  lemma PrintBySign(e: Expr, a: int, b: int, full: bool, rest: seq<Token>)
    requires 0 <= a && 0 <= b
    ensures Print(e, a, full, rest) == Print(e, b, full, rest)
    decreases e, 0
  {
    match e
    case StructLiteral(_, pairs) => PairsBySign(pairs, true, a, b, full, [CloseCurly] + rest);
    case Call(f, args) =>
      ListBySign(args, true, a, b, full, [CloseCurved] + rest);
      OperandBySign(f, 0, a, b, full, false, [OpenCurved] + PrintList(args, true, a, full, [CloseCurved] + rest));
    case Index(x, i) =>
      PrintBySign(i, a + 1, b + 1, full, [CloseSquare] + rest);
      OperandBySign(x, 0, a, b, full, false, [OpenSquare] + Print(i, a + 1, full, [CloseSquare] + rest));
    case Access(x, field) => OperandBySign(x, 0, a, b, full, false, [Dot, Identifier(field)] + rest);
    case Unary(_, x) => OperandBySign(x, 0, a, b, full, false, rest);
    case Binary(l, op, r) =>
      OperandBySign(r, Rung(op) - 1, a, b, full, full, rest);
      OperandBySign(l, Rung(op), a, b, full, full,
                    [BinaryToken(op)] + Operand(r, Rung(op) - 1, a, full, full, rest));
    case NewExpr(x) => OperandBySign(x, TOP, a, b, full, false, rest);
    case RangeExpr(x, y, z) =>
      var last := [CloseCurved] + rest;
      PrintBySign(z, a + 1, b + 1, full, last);
      PrintBySign(y, a + 1, b + 1, full, [Comma] + Print(z, a + 1, full, last));
      PrintBySign(x, a + 1, b + 1, full, [Comma] + Print(y, a + 1, full, [Comma] + Print(z, a + 1, full, last)));
    case Dereference(x) => OperandBySign(x, 8, a, b, full, false, rest);
    case ReceiveWorker(x, _) => OperandBySign(x, 8, a, b, full, false, [CloseCurved] + rest);
    case CreateWorker(x, _) => PrintBySign(x, a + 1, b + 1, full, rest);
    case _ =>
  }

  lemma OperandBySign(e: Expr, level: nat, a: int, b: int, full: bool, force: bool, rest: seq<Token>)
    requires 0 <= a && 0 <= b
    ensures Operand(e, level, a, full, force, rest) == Operand(e, level, b, full, force, rest)
    decreases e, 1
  {
    PrintBySign(e, a, b, full, rest);
    PrintBySign(e, a + 1, b + 1, full, [CloseCurved] + rest);
  }

  lemma ListBySign(es: seq<Expr>, first: bool, a: int, b: int, full: bool, rest: seq<Token>)
    requires 0 <= a && 0 <= b
    ensures PrintList(es, first, a, full, rest) == PrintList(es, first, b, full, rest)
    decreases es
  {
    if es != [] {
      ListBySign(es[1..], false, a, b, full, rest);
      PrintBySign(es[0], a + 1, b + 1, full, PrintList(es[1..], false, a, full, rest));
    }
  }

  lemma PairsBySign(pairs: seq<Pair>, first: bool, a: int, b: int, full: bool, rest: seq<Token>)
    requires 0 <= a && 0 <= b
    ensures PrintPairs(pairs, first, a, full, rest) == PrintPairs(pairs, first, b, full, rest)
    decreases pairs
  {
    if pairs != [] {
      PairsBySign(pairs[1..], false, a, b, full, rest);
      PairBySign(pairs[0], a, b, full, PrintPairs(pairs[1..], false, a, full, rest));
    }
  }

  lemma PairBySign(pair: Pair, a: int, b: int, full: bool, rest: seq<Token>)
    requires 0 <= a && 0 <= b
    ensures Print(pair.value, a + 1, full, rest) == Print(pair.value, b + 1, full, rest)
    decreases pair
  {
    PrintBySign(pair.value, a + 1, b + 1, full, rest);
  }

  /** Where reading `[i][j]...` stops. */
  function IndicesEnd(ts: seq<Token>): Option<seq<Token>> {
    match Indices([], ts, 0)
    case Found(_, rest) => Some(rest)
    case NotFound(_) => None
    case Errored => None
  }

  /** Where reading something to assign to stops, after its name or later. */
  function End(afterName: bool, ts: seq<Token>): Option<seq<Token>> {
    if !afterName || !HeadIs(ts, Dot) then IndicesEnd(ts)
    else if HeadIs(ts, Dot) && |ts| > 1 && ts[1].Identifier? then IndicesEnd(ts[2..])
    else None
  }

  lemma {:induction false} IndicesAppend(xs: seq<Expr>, ys: seq<Expr>, ts: seq<Token>)
    ensures var r, q := Indices(xs, ts, 0), Indices(ys, ts, 0);
            (r.Found? <==> q.Found?) && (r.Found? ==> r.rest == q.rest)
    decreases |ts|
  {
    hide ParseExpression;
    var r := if HeadIs(ts, OpenSquare) then ParseExpression(ts[1..], 0) else Errored;
    if r.Found? && HeadIs(r.rest, CloseSquare) {
      IndicesAppend(xs + [r.value], ys + [r.value], r.rest[1..]);
    }
  }

  lemma IndexEnds(i: Expr, full: bool, after: seq<Token>)
    ensures IndicesEnd([OpenSquare] + Print(i, 2, full, [CloseSquare] + after)) == IndicesEnd(after)
  {
    hide ParseExpression, Print;
    var last := [CloseSquare] + after;
    var inner := Print(i, 2, full, last);
    PrintBySign(i, 1, 2, full, last);
    ReadOne(i, full, last);
    Behead(OpenSquare, inner);
    Behead(CloseSquare, after);
    IndicesAppend([] + [i], [], after);
    assert Indices([], [OpenSquare] + inner, 0) == Indices([] + [i], after, 0);
  }

  predicate Harmless(ts: seq<Token>) {
    !HeadIs(ts, Comma) && !HeadIs(ts, Equals) && ModifyOperatorOf(ts) == None
  }

  predicate StopsHarmless(end: Option<seq<Token>>) {
    end.Some? && Harmless(end.value)
  }

  /** Reading an operand as something to assign to either stops inside it or goes on with what follows it. */
  lemma SpineEnds(e: Expr, full: bool, rest: seq<Token>) returns (afterName: bool)
    requires Level(e, 1) == 0
    ensures var ts := Print(e, 1, full, rest);
            && ts != [] && StartsOperand(ts[0])
            && (ts[0].Identifier? ==> End(true, ts[1..]) == End(afterName, rest) || StopsHarmless(End(true, ts[1..])))
    decreases e, 0
  {
    afterName := true;
    PrintStarts(e, 1, full, rest);
    match e
    case IdentifierTerminal(_) => assert Print(e, 1, full, rest)[1..] == rest;
    case StructLiteral(_, pairs) =>
      var body := PrintPairs(pairs, true, 1, full, [CloseCurly] + rest);
      BraceStops(e.structName, body);
    case Access(a, field) =>
      var after := [Dot, Identifier(field)] + rest;
      afterName := BaseEnds(a, full, after);
      DotStops(field, rest);
      afterName := false;
    case Index(a, i) =>
      var inner := Print(i, 2, full, [CloseSquare] + rest);
      afterName := BaseEnds(a, full, [OpenSquare] + inner);
      IndexEnds(i, full, rest);
      afterName := false;
    case Call(f, args) =>
      var list := PrintList(args, true, 1, full, [CloseCurved] + rest);
      afterName := BaseEnds(f, full, [OpenCurved] + list);
      CurvedStops(list);
    case _ =>
  }

  lemma BraceStops(name: string, body: seq<Token>)
    ensures StopsHarmless(End(true, ([Identifier(name), OpenCurly] + body)[1..]))
  {
    hide ParseExpression;
    assert ([Identifier(name), OpenCurly] + body)[1..] == [OpenCurly] + body;
  }

  lemma DotStops(field: string, rest: seq<Token>)
    ensures var after := [Dot, Identifier(field)] + rest;
            StopsHarmless(End(false, after)) && End(true, after) == End(false, rest)
  {
    BeheadTwo(Dot, Identifier(field), rest);
  }

  lemma CurvedStops(list: seq<Token>)
    ensures StopsHarmless(End(true, [OpenCurved] + list)) && StopsHarmless(End(false, [OpenCurved] + list))
  {
  }

  lemma BaseEnds(a: Expr, full: bool, after: seq<Token>) returns (afterName: bool)
    ensures var ts := Operand(a, 0, 1, full, false, after);
            && ts != [] && StartsOperand(ts[0])
            && (ts[0].Identifier? ==> End(true, ts[1..]) == End(afterName, after) || StopsHarmless(End(true, ts[1..])))
    decreases a, 1
  {
    afterName := true;
    if Level(a, 1) == 0 {
      afterName := SpineEnds(a, full, after);
    }
  }

  /** Reading an expression as something to assign to never comes to an assignment operator. */
  lemma {:induction false} FirstOperandEnds(e: Expr, full: bool, rest: seq<Token>)
    requires Level(e, 1) <= TOP
    requires Harmless(rest) && !HeadIs(rest, Dot) && !HeadIs(rest, OpenSquare)
    ensures var ts := Print(e, 1, full, rest);
            ts != [] && ts[0] != Multiply && (ts[0].Identifier? ==> StopsHarmless(End(true, ts[1..])))
    decreases e
  {
    hide End, Harmless, Indices, Operand;
    match e
    case Unary(op, x) => UnaryHead(op, x, full, rest);
    case Binary(l, op, r) =>
      var right := Operand(r, Rung(op) - 1, 1, full, full, rest);
      OperatorHarmless(op, right);
      OperandIs(l, Rung(op), 1, full, full, [BinaryToken(op)] + right);
      if !full && Level(l, 1) <= Rung(op) {
        FirstOperandEnds(l, full, [BinaryToken(op)] + right);
      }
    case _ =>
      var afterName := SpineEnds(e, full, rest);
      EndsHere(afterName, rest);
  }

  lemma UnaryHead(op: UnaryOperator, x: Expr, full: bool, rest: seq<Token>)
    ensures var ts := Print(Unary(op, x), 1, full, rest);
            ts != [] && ts[0] == UnaryToken(op)
  {
    hide Operand;
  }

  lemma OperatorHarmless(op: BinaryOperator, right: seq<Token>)
    ensures var ts := [BinaryToken(op)] + right;
            Harmless(ts) && !HeadIs(ts, Dot) && !HeadIs(ts, OpenSquare)
  {
  }

  lemma EndsHere(afterName: bool, rest: seq<Token>)
    requires Harmless(rest) && !HeadIs(rest, Dot) && !HeadIs(rest, OpenSquare)
    ensures StopsHarmless(End(afterName, rest))
  {
  }

  lemma NoLValue(ts: seq<Token>, deref: bool)
    requires ts != [] && (ts[0].Identifier? ==> StopsHarmless(End(true, ts[1..])))
    ensures var r := IndexingLValue(deref, ts, 0);
            if ts[0].Identifier? then r.Found? && Harmless(r.rest) else r.NotFound?
  {
    hide Indices, Harmless;
    if ts[0].Identifier? && |ts| > 1 {
      assert ts[1..][1..] == ts[2..];
      if HeadIs(ts[1..], Dot) && |ts| > 2 {
        assert ts[1..][2..] == ts[3..];
      }
    }
  }

  /** So an expression is never read as an assignment. */
  lemma NotAssigned(ts: seq<Token>)
    requires var inner := if HeadIs(ts, Multiply) then ts[1..] else ts;
             inner != [] && (inner[0].Identifier? ==> StopsHarmless(End(true, inner[1..])))
    ensures ModifyInPlace(ts, 0) == NotFound(ts) && Assign(ts, 0) == NotFound(ts)
  {
    hide IndexingLValue, End, Tuple, ParseExpression;
    var deref := HeadIs(ts, Multiply);
    NoLValue(if deref then ts[1..] else ts, deref);
  }

  // ---------------------------------------------------------------- statements without blocks

  /** What an expression may start with: no semicolon, keyword of a statement, or closing bracket. */
  predicate StartsExpression(t: Token) {
    StartsOperand(t) || t.Not? || t.Minus? || t.New? || t.Range? || t.Multiply? || t.Drain? || t.Receive? ||
        t.Cpu? || t.Gpu?
  }

  lemma ExpressionStarts(e: Expr, full: bool, rest: seq<Token>)
    ensures var ts := Print(e, 1, full, rest);
            ts != [] && StartsExpression(ts[0])
  {
    if Level(e, 1) <= TOP {
      PrintStarts(e, 1, full, rest);
    }
  }

  lemma {:induction false} ExpressionIsNoAssignment(e: Expr, full: bool, rest: seq<Token>)
    ensures var ts := Print(e, 1, full, [Semicolon] + rest);
            ModifyInPlace(ts, 0) == NotFound(ts) && Assign(ts, 0) == NotFound(ts)
  {
    hide ModifyInPlace, Assign, End, Print, Operand, Harmless;
    var after := [Semicolon] + rest;
    var ts := Print(e, 1, full, after);
    SemicolonHarmless(rest);
    if e.Dereference? {
      var inner := Operand(e.pointer, 8, 1, full, false, after);
      PrintDereference(e.pointer, full, after);
      Behead(Multiply, inner);
      if Level(e.pointer, 1) <= TOP {
        OperandIs(e.pointer, 8, 1, full, false, after);
        FirstOperandEnds(e.pointer, full, after);
      } else {
        NoNameFirst(e.pointer, full, after);
      }
    } else if Level(e, 1) <= TOP {
      FirstOperandEnds(e, full, after);
    } else {
      PrefixFirst(e, full, after);
    }
    NotAssigned(ts);
  }

  lemma SemicolonHarmless(rest: seq<Token>)
    ensures var ts := [Semicolon] + rest;
            Harmless(ts) && !HeadIs(ts, Dot) && !HeadIs(ts, OpenSquare)
  {
  }

  lemma PrintDereference(x: Expr, full: bool, after: seq<Token>)
    ensures Print(Dereference(x), 1, full, after) == [Multiply] + Operand(x, 8, 1, full, false, after)
  {
    hide Operand;
  }

  lemma NoNameFirst(x: Expr, full: bool, after: seq<Token>)
    requires Level(x, 1) > TOP
    ensures var ts := Operand(x, 8, 1, full, false, after);
            ts != [] && !ts[0].Identifier?
  {
    OperandIs(x, 8, 1, full, false, after);
    if x.NewExpr? {
      NewStarts(x.initialiser, 1, full, after);
    }
  }

  lemma PrefixFirst(e: Expr, full: bool, after: seq<Token>)
    requires Level(e, 1) > TOP && !e.Dereference?
    ensures var ts := Print(e, 1, full, after);
            ts != [] && !ts[0].Identifier? && ts[0] != Multiply
  {
    hide Operand;
  }

  /** From a statement to the statement with its semicolons. */
  lemma WithSemicolons(ts: seq<Token>, s: Stmt, rest: seq<Token>, breakOk: nat)
    requires !HeadIs(ts, Semicolon) && !HeadIs(rest, Semicolon)
    requires BareStatement(ts, 0, breakOk) == Found(s, [Semicolon] + rest) ||
             BareStatement(ts, 0, breakOk) == Found(s, rest)
    ensures Statement(ts, 0, breakOk) == Found(s, rest)
  {
    hide BareStatement;
    Behead(Semicolon, rest);
    assert SkipSemicolons([Semicolon] + rest) == SkipSemicolons(rest);
  }

  lemma PlainIsBare(ts: seq<Token>, breakOk: nat)
    requires ts != [] && StartsExpression(ts[0])
    ensures BareStatement(ts, 0, breakOk) == Plain(ts, 0)
  {
    hide Plain;
  }

  lemma {:induction false} ExpressionStatementReads(e: Expr, breakOk: nat, full: bool, rest: seq<Token>)
    ensures BareStatement(PrintStmt(ExpressionStatement(e), full, rest), 0, breakOk)
         == Found(ExpressionStatement(e), [Semicolon] + rest)
  {
    hide BareStatement, ModifyInPlace, Assign, ParseExpression, Print;
    var ts := Print(e, 1, full, [Semicolon] + rest);
    ExpressionStarts(e, full, [Semicolon] + rest);
    ExpressionIsNoAssignment(e, full, rest);
    ReadOne(e, full, [Semicolon] + rest);
    PlainIsBare(ts, breakOk);
  }

  lemma TupleReads(es: seq<Expr>, full: bool, rest: seq<Token>)
    requires es != []
    ensures Tuple(PrintList(es, true, 0, full, [Semicolon] + rest), 0) == Found(es, [Semicolon] + rest)
  {
    hide ParseExpression, Print;
    var last := [Semicolon] + rest;
    var more := PrintList(es[1..], false, 0, full, last);
    ReadOne(es[0], full, more);
    TupleTailReads([es[0]], es[1..], full, rest);
    assert [es[0]] + es[1..] == es;
  }

  lemma TupleTailReads(done: seq<Expr>, es: seq<Expr>, full: bool, rest: seq<Token>)
    ensures ListTail(done, PrintList(es, false, 0, full, [Semicolon] + rest), 0) == Found(done + es, [Semicolon] + rest)
    decreases |es|
  {
    hide ParseExpression, Print;
    var last := [Semicolon] + rest;
    if es == [] {
      assert done + es == done;
    } else {
      var more := PrintList(es[1..], false, 0, full, last);
      var item := Print(es[0], 1, full, more);
      Behead(Comma, item);
      ReadOne(es[0], full, more);
      TupleTailReads(done + [es[0]], es[1..], full, rest);
      assert done + [es[0]] + es[1..] == done + es;
    }
  }

  lemma ReturnReads(values: seq<Expr>, full: bool, rest: seq<Token>)
    ensures ReturnValue(PrintStmt(ReturnStatement(values), full, rest), 0)
         == Found(ReturnStatement(values), [Semicolon] + rest)
  {
    hide Tuple;
    var list := PrintList(values, true, 0, full, [Semicolon] + rest);
    Behead(Return, list);
    if values == [] {
      NoTuple(list);
    } else {
      TupleReads(values, full, rest);
    }
  }

  lemma NoTuple(ts: seq<Token>)
    requires StartsNothing(ts)
    ensures Tuple(ts, 0) == NotFound(ts)
  {
    hide ParseExpression;
    NoExpression(ts, 0);
  }

  lemma SendReads(pipe: Expr, value: Expr, full: bool, rest: seq<Token>)
    ensures SendTo(PrintStmt(SendStatement(pipe, value), full, rest), 0)
         == Found(SendStatement(pipe, value), [Semicolon] + rest)
  {
    hide ParseExpression, Print;
    var last := [CloseCurved] + ([Semicolon] + rest);
    var second := Print(value, 1, full, last);
    var first := Print(pipe, 1, full, [Comma] + second);
    BeheadTwo(Send, OpenCurved, first);
    Behead(Comma, second);
    Behead(CloseCurved, [Semicolon] + rest);
    ReadOne(pipe, full, [Comma] + second);
    ReadOne(value, full, last);
  }

  lemma {:induction false} LetReads(kind: AssignType, lhs: seq<LValue>, e: Expr, full: bool, rest: seq<Token>)
    requires lhs != [] && kind != AssignNormal
    ensures var s := AssignStatement(kind, lhs, [e]);
            LetLike(kind, PrintStmt(s, full, rest), 0) == Found(s, [Semicolon] + rest)
  {
    PrintLet(kind, lhs, e, full, rest);
    hide *;
    var value := Print(e, 1, full, [Semicolon] + rest);
    var after := PrintLValues(lhs, true, full, [Equals] + value);
    Behead(if kind == AssignLet then Let else Const, after);
    Behead(Equals, value);
    EqualsEnds(value);
    LValuesRead(lhs, full, [Equals] + value);
    SemicolonEnds(rest);
    ReadOne(e, full, [Semicolon] + rest);
    LetStep(kind, [if kind == AssignLet then Let else Const] + after, lhs, [Equals] + value, e, [Semicolon] + rest);
  }

  lemma PrintLet(kind: AssignType, lhs: seq<LValue>, e: Expr, full: bool, rest: seq<Token>)
    requires kind != AssignNormal
    ensures PrintStmt(AssignStatement(kind, lhs, [e]), full, rest)
         == [if kind == AssignLet then Let else Const]
            + PrintLValues(lhs, true, full, [Equals] + Print(e, 1, full, [Semicolon] + rest))
  {
    hide Print, PrintLValues;
    assert PrintList([e], true, 0, full, [Semicolon] + rest) == Print(e, 1, full, [Semicolon] + rest);
  }

  lemma EqualsEnds(value: seq<Token>)
    ensures EndsLValue([Equals] + value) && !HeadIs([Equals] + value, Comma)
  {
  }

  lemma SemicolonEnds(rest: seq<Token>)
    ensures Ends([Semicolon] + rest, TOP) && !HeadIs([Semicolon] + rest, OpenCurly)
  {
  }

  lemma LetStep(kind: AssignType, ts: seq<Token>, lhs: seq<LValue>, after: seq<Token>, e: Expr, rest: seq<Token>)
    requires kind != AssignNormal && HeadIs(ts, if kind == AssignLet then Let else Const)
    requires LValues(ts[1..], 0) == Found(lhs, after) && HeadIs(after, Equals)
    requires ParseExpression(after[1..], 0) == Found(e, rest)
    ensures LetLike(kind, ts, 0) == Found(AssignStatement(kind, lhs, [e]), rest)
  {
    hide LValues, ParseExpression;
  }

  lemma AssignReads(lhs: seq<LValue>, rhs: seq<Expr>, full: bool, rest: seq<Token>)
    requires lhs != [] && rhs != []
    ensures var s := AssignStatement(AssignNormal, lhs, rhs);
            Plain(PrintStmt(s, full, rest), 0) == Found(s, [Semicolon] + rest)
  {
    hide LValues, PrintLValues, ParseExpression, Tuple, PrintList, LValueTail;
    var value := PrintList(rhs, true, 0, full, [Semicolon] + rest);
    Behead(Equals, value);
    LValuesRead(lhs, full, [Equals] + value);
    TupleReads(rhs, full, rest);
  }

  lemma {:induction false} ModifyReads(lhs: seq<LValue>, op: ModifyOperator, e: Expr, full: bool, rest: seq<Token>)
    requires lhs != []
    ensures var s := ModifyInPlaceStatement(lhs, op, e);
            Plain(PrintStmt(s, full, rest), 0) == Found(s, [Semicolon] + rest)
  {
    hide LValues, PrintLValues, ParseExpression, Print, Plain, Ends;
    var value := Print(e, 1, full, [Semicolon] + rest);
    var after := [ModifyToken(op)] + value;
    Behead(ModifyToken(op), value);
    ModifyEnds(op, value);
    LValuesRead(lhs, full, after);
    SemicolonEnds(rest);
    ReadOne(e, full, [Semicolon] + rest);
    ModifyStep(PrintLValues(lhs, true, full, after), lhs, op, after, e, [Semicolon] + rest);
  }

  lemma ModifyEnds(op: ModifyOperator, value: seq<Token>)
    ensures var after := [ModifyToken(op)] + value;
            ModifyOperatorOf(after) == Some(op) && EndsLValue(after) && !HeadIs(after, Comma)
  {
  }

  lemma {:induction false} ModifyStep(ts: seq<Token>, lhs: seq<LValue>, op: ModifyOperator, after: seq<Token>,
                                      e: Expr, rest: seq<Token>)
    requires LValues(ts, 0) == Found(lhs, after) && ModifyOperatorOf(after) == Some(op) && after != []
    requires ParseExpression(after[1..], 0) == Found(e, rest)
    ensures Plain(ts, 0) == Found(ModifyInPlaceStatement(lhs, op, e), rest)
  {
    hide LValues, ParseExpression, Assign, ModifyOperatorOf;
  }

  lemma LValuesStart(lvs: seq<LValue>, full: bool, rest: seq<Token>)
    requires lvs != []
    ensures var ts := PrintLValues(lvs, true, full, rest);
            ts != [] && (ts[0].Identifier? || ts[0] == Multiply)
  {
    hide PrintIndices;
  }

  /** A statement that holds no block. */
  lemma SimpleReads(s: Stmt, breakOk: nat, full: bool, rest: seq<Token>)
    requires Shaped(s) && BreaksInLoops(s, breakOk > 0)
    requires !s.WhileStatement? && !s.ForeachStatement? && !s.IfStatement?
    ensures BareStatement(PrintStmt(s, full, rest), 0, breakOk) == Found(s, [Semicolon] + rest)
  {
    hide BareStatement, PrintStmt, Plain, LetLike, SendTo, ReturnValue;
    match s
    case ExpressionStatement(e) => ExpressionStatementReads(e, breakOk, full, rest);
    case ReturnStatement(values) =>
      ReturnReads(values, full, rest);
      Keyworded(s, breakOk, full, rest);
    case BreakStatement => Keyworded(s, breakOk, full, rest);
    case SendStatement(pipe, value) =>
      SendReads(pipe, value, full, rest);
      Keyworded(s, breakOk, full, rest);
    case AssignStatement(kind, lhs, rhs) =>
      if kind == AssignNormal {
        AssignReads(lhs, rhs, full, rest);
        NotKeyworded(s, breakOk, full, rest);
      } else {
        assert rhs == [rhs[0]];
        LetReads(kind, lhs, rhs[0], full, rest);
        Keyworded(s, breakOk, full, rest);
      }
    case ModifyInPlaceStatement(lhs, op, e) =>
      ModifyReads(lhs, op, e, full, rest);
      NotKeyworded(s, breakOk, full, rest);
  }

  /** The production a keyword leads to. */
  lemma {:induction false} Keyworded(s: Stmt, breakOk: nat, full: bool, rest: seq<Token>)
    requires s.BreakStatement? ==> breakOk > 0
    ensures var ts := PrintStmt(s, full, rest);
            match s
            case ReturnStatement(_) => HeadIs(ts, Return) && BareStatement(ts, 0, breakOk) == ReturnValue(ts, 0)
            case SendStatement(_, _) => HeadIs(ts, Send) && BareStatement(ts, 0, breakOk) == SendTo(ts, 0)
            case BreakStatement => BareStatement(ts, 0, breakOk) == Found(s, [Semicolon] + rest)
            case AssignStatement(kind, _, _) =>
              kind != AssignNormal ==>
                HeadIs(ts, if kind == AssignLet then Let else Const) &&
                    BareStatement(ts, 0, breakOk) == LetLike(kind, ts, 0)
            case _ => true
  {
    hide BareStatement, LetLike, SendTo, ReturnValue, PrintLValues, Print, PrintList, PrintBlock, PrintSegments,
         PrintCondition;
    ByKeyword(PrintStmt(s, full, rest), 0, breakOk);
    Behead(Break, [Semicolon] + rest);
  }

  lemma NotKeyworded(s: Stmt, breakOk: nat, full: bool, rest: seq<Token>)
    requires Shaped(s) && (s.ModifyInPlaceStatement? || (s.AssignStatement? && s.kind == AssignNormal))
    ensures var ts := PrintStmt(s, full, rest);
            BareStatement(ts, 0, breakOk) == Plain(ts, 0)
  {
    hide Plain, BareStatement, PrintLValues, Print, PrintList;
    match s
    case AssignStatement(_, lhs, rhs) =>
      LValuesStart(lhs, full, [Equals] + PrintList(rhs, true, 0, full, [Semicolon] + rest));
      PlainIsBare(PrintStmt(s, full, rest), breakOk);
    case ModifyInPlaceStatement(lhs, op, e) =>
      LValuesStart(lhs, full, [ModifyToken(op)] + Print(e, 1, full, [Semicolon] + rest));
      PlainIsBare(PrintStmt(s, full, rest), breakOk);
  }

  /** What a statement may start with. */
  predicate StartsStatement(t: Token) {
    StartsExpression(t) || t.Foreach? || t.While? || t.If? || t.Break? || t.Return? || t.Let? || t.Const? || t.Send?
  }

  // ---------------------------------------------------------------- statements with blocks

  lemma ConditionReads(e: Expr, full: bool, after: seq<Token>)
    requires HeadIs(after, OpenCurly)
    ensures ParseExpression(PrintCondition(e, full, after), -2) == Found(e, after)
  {
    hide ParseExpression, Operand;
    if Level(e, -1) <= 9 {
      NoBraceOutside(e, -1, full);
    }
    ParseUndoesPrint(e, -2, full, after);
  }

  lemma ElseIfConditionReads(e: Expr, full: bool, after: seq<Token>)
    requires HeadIs(after, OpenCurly)
    ensures ParseExpression(Operand(e, 9, 1, full, TakesBrace(e, 1, full), after), 0) == Found(e, after)
  {
    hide Prefixed, Print, TakesBrace;
    InnerLevel(e, 1);
    OperandIs(e, 9, 1, full, TakesBrace(e, 1, full), after);
    if TakesBrace(e, 1, full) {
      BracketedReads(e, 1, full, after);
    } else {
      ExpressionReads(e, 1, full, after);
    }
  }

  lemma BlockStarts(b: Block, full: bool, rest: seq<Token>)
    ensures HeadIs(PrintBlock(b, full, rest), OpenCurly)
  {
    hide PrintStmts;
  }

  lemma StatementStarts(s: Stmt, full: bool, rest: seq<Token>)
    requires Shaped(s)
    ensures var ts := PrintStmt(s, full, rest);
            ts != [] && StartsStatement(ts[0])
  {
    hide Print, PrintLValues, PrintBlock, PrintCondition;
    match s
    case ExpressionStatement(e) => ExpressionStarts(e, full, [Semicolon] + rest);
    case AssignStatement(kind, lhs, rhs) =>
      if kind == AssignNormal {
        LValuesStart(lhs, full, [Equals] + PrintList(rhs, true, 0, full, [Semicolon] + rest));
      }
    case ModifyInPlaceStatement(lhs, op, e) =>
      LValuesStart(lhs, full, [ModifyToken(op)] + Print(e, 1, full, [Semicolon] + rest));
    case IfStatement(segments, otherwise) =>
      var last := if otherwise.Some? then [Else] + PrintBlock(otherwise.value, full, rest) else rest;
      assert PrintSegments(segments, true, full, last)
          == PrintSegment(segments[0], true, full, PrintSegments(segments[1..], false, full, last));
    case _ =>
  }

  /** Nothing that follows a statement in a block is taken as part of it. */
  lemma NextIsCalm(ss: seq<Stmt>, full: bool, rest: seq<Token>)
    requires forall i :: 0 <= i < |ss| ==> Shaped(ss[i])
    ensures Calm(PrintStmts(ss, full, [CloseCurly] + rest))
  {
    hide PrintStmt;
    if ss != [] {
      StatementStarts(ss[0], full, PrintStmts(ss[1..], full, [CloseCurly] + rest));
    }
  }

  /** A closing brace is no statement. */
  lemma NoStatement(rest: seq<Token>, breakOk: nat)
    ensures var ts := [CloseCurly] + rest;
            Statement(ts, 0, breakOk) == NotFound(ts)
  {
    hide ParseExpression;
    var ts := [CloseCurly] + rest;
    NoExpression(ts, 0);
    assert LValues(ts, 0) == NotFound(ts);
    assert Plain(ts, 0) == NotFound(ts);
    assert BareStatement(ts, 0, breakOk) == NotFound(ts);
  }

  lemma SegmentReads(ts: seq<Token>, e: Expr, lowered: int, b: Block, breakOk: nat, full: bool, rest: seq<Token>)
    requires ShapedBlock(b) && BlockBreaksInLoops(b, breakOk > 0)
    requires ParseExpression(ts, lowered) == Found(e, PrintBlock(b, full, rest))
    ensures ConditionAndBlock(ts, lowered, 0, breakOk) == Found(Segment(e, b), rest)
    decreases b, 2
  {
    hide ParseExpression, StatementBlock, PrintBlock, ShapedBlock, BlockBreaksInLoops;
    BlockReads(b, breakOk, full, rest);
  }

  lemma BlockReads(b: Block, breakOk: nat, full: bool, rest: seq<Token>)
    requires ShapedBlock(b) && BlockBreaksInLoops(b, breakOk > 0)
    ensures StatementBlock(PrintBlock(b, full, rest), 0, breakOk) == Found(b, rest)
    decreases b, 1
  {
    hide Statements, PrintStmts, Shaped, BreaksInLoops;
    Behead(OpenCurly, PrintStmts(b.stmts, full, [CloseCurly] + rest));
    StatementsRead([], b.stmts, breakOk, full, rest);
    assert [] + b.stmts == b.stmts;
  }

  lemma StatementsRead(done: seq<Stmt>, ss: seq<Stmt>, breakOk: nat, full: bool, rest: seq<Token>)
    requires forall i :: 0 <= i < |done| ==> BreaksInLoops(done[i], breakOk > 0)
    requires forall i :: 0 <= i < |ss| ==> Shaped(ss[i]) && BreaksInLoops(ss[i], breakOk > 0)
    ensures Statements(done, PrintStmts(ss, full, [CloseCurly] + rest), 0, breakOk) == Found(Block(done + ss), rest)
    decreases ss, 0
  {
    hide Statement, PrintStmt, Shaped, BreaksInLoops, Calm;
    var last := [CloseCurly] + rest;
    if ss == [] {
      NoStatement(rest, breakOk);
      Behead(CloseCurly, rest);
      assert done + ss == done;
    } else {
      var more := PrintStmts(ss[1..], full, last);
      NextIsCalm(ss[1..], full, rest);
      StatementReads(ss[0], breakOk, full, more);
      assert PrintStmts(ss, full, last) == PrintStmt(ss[0], full, more);
      assert Statements(done, PrintStmt(ss[0], full, more), 0, breakOk)
          == Statements(done + [ss[0]], more, 0, breakOk);
      StatementsRead(done + [ss[0]], ss[1..], breakOk, full, rest);
      assert done + [ss[0]] + ss[1..] == done + ss;
    }
  }

  /**
    Parsing undoes printing, for every statement the parser can make, with any bracketing style, where
    each of its breaks is in a loop.
  */
  lemma StatementReads(s: Stmt, breakOk: nat, full: bool, rest: seq<Token>)
    requires Shaped(s) && BreaksInLoops(s, breakOk > 0) && Calm(rest)
    ensures Statement(PrintStmt(s, full, rest), 0, breakOk) == Found(s, rest)
    decreases s, 3
  {
    hide Statement, BareStatement, PrintStmt;
    StatementStarts(s, full, rest);
    match s {
      case WhileStatement(condition, body) => WhileReads(condition, body, breakOk, full, rest);
      case ForeachStatement(name, iterable, body) => ForeachReads(name, iterable, body, breakOk, full, rest);
      case IfStatement(segments, otherwise) => IfReads(segments, otherwise, breakOk, full, rest);
      case _ => SimpleReads(s, breakOk, full, rest);
    }
    WithSemicolons(PrintStmt(s, full, rest), s, rest, breakOk);
  }

  lemma WhileReads(condition: Expr, body: Block, breakOk: nat, full: bool, rest: seq<Token>)
    requires ShapedBlock(body) && BlockBreaksInLoops(body, true)
    ensures var s := WhileStatement(condition, body);
            BareStatement(PrintStmt(s, full, rest), 0, breakOk) == Found(s, rest)
    decreases body, 3
  {
    hide ConditionAndBlock, ParseExpression, PrintBlock, ShapedBlock, BlockBreaksInLoops, PrintCondition;
    var block := PrintBlock(body, full, rest);
    var ts := PrintCondition(condition, full, block);
    Behead(While, ts);
    BlockStarts(body, full, rest);
    ConditionReads(condition, full, block);
    SegmentReads(ts, condition, -2, body, breakOk + 1, full, rest);
  }

  lemma ForeachReads(name: string, iterable: Expr, body: Block, breakOk: nat, full: bool, rest: seq<Token>)
    requires ShapedBlock(body) && BlockBreaksInLoops(body, true)
    ensures var s := ForeachStatement(name, iterable, body);
            BareStatement(PrintStmt(s, full, rest), 0, breakOk) == Found(s, rest)
    decreases body, 3
  {
    hide ConditionAndBlock, ParseExpression, PrintBlock, ShapedBlock, BlockBreaksInLoops, PrintCondition, BareStatement;
    var block := PrintBlock(body, full, rest);
    var ts := PrintCondition(iterable, full, block);
    BlockStarts(body, full, rest);
    ConditionReads(iterable, full, block);
    SegmentReads(ts, iterable, -2, body, breakOk + 1, full, rest);
    ForeachStep(name, ts, iterable, body, rest, breakOk);
  }

  lemma ForeachStep(name: string, ts: seq<Token>, iterable: Expr, body: Block, rest: seq<Token>, breakOk: nat)
    requires ConditionAndBlock(ts, -2, 0, breakOk + 1) == Found(Segment(iterable, body), rest)
    ensures BareStatement([Foreach] + ([Identifier(name)] + ([Colon] + ts)), 0, breakOk)
         == Found(ForeachStatement(name, iterable, body), rest)
  {
    hide ConditionAndBlock, Plain;
    var all := [Foreach] + ([Identifier(name)] + ([Colon] + ts));
    assert all[1] == Identifier(name) && all[2] == Colon && all[3..] == ts;
  }

  function PrintElse(otherwise: Option<Block>, full: bool, rest: seq<Token>): seq<Token> {
    if otherwise.Some? then [Else] + PrintBlock(otherwise.value, full, rest) else rest
  }

  lemma IfReads(segments: seq<Segment>, otherwise: Option<Block>, breakOk: nat, full: bool, rest: seq<Token>)
    requires var s := IfStatement(segments, otherwise); Shaped(s) && BreaksInLoops(s, breakOk > 0)
    requires Calm(rest)
    ensures var s := IfStatement(segments, otherwise);
            BareStatement(PrintStmt(s, full, rest), 0, breakOk) == Found(s, rest)
    decreases IfStatement(segments, otherwise), 2
  {
    hide *;
    IfParts(segments, otherwise, breakOk > 0);
    var more := PrintSegments(segments[1..], false, full, PrintElse(otherwise, full, rest));
    PrintIf(segments, otherwise, full, rest);
    FirstSegmentReads(segments[0], breakOk, full, more);
    if otherwise.Some? {
      BlockReads(otherwise.value, breakOk, full, rest);
    }
    ElseIfsRead([segments[0]], segments[1..], otherwise, breakOk, full, rest);
    assert [segments[0]] + segments[1..] == segments;
  }

  lemma IfParts(segments: seq<Segment>, otherwise: Option<Block>, inLoop: bool)
    requires var s := IfStatement(segments, otherwise); Shaped(s) && BreaksInLoops(s, inLoop)
    ensures segments != []
    ensures forall i :: 0 <= i < |segments| ==> ShapedSegment(segments[i]) && SegmentBreaksInLoops(segments[i], inLoop)
    ensures otherwise.Some? ==> ShapedBlock(otherwise.value) && BlockBreaksInLoops(otherwise.value, inLoop)
  {
    hide ShapedSegment, SegmentBreaksInLoops, ShapedBlock, BlockBreaksInLoops;
  }

  lemma FirstSegmentReads(s: Segment, breakOk: nat, full: bool, more: seq<Token>)
    requires ShapedSegment(s) && SegmentBreaksInLoops(s, breakOk > 0)
    ensures BareStatement([If] + PrintCondition(s.condition, full, PrintBlock(s.block, full, more)), 0, breakOk)
         == ElseIfs([s], more, 0, breakOk)
    decreases s, 2
  {
    hide ElseIfs, ConditionAndBlock, ParseExpression, PrintBlock, PrintCondition;
    var block := PrintBlock(s.block, full, more);
    var ts := PrintCondition(s.condition, full, block);
    Behead(If, ts);
    BlockStarts(s.block, full, more);
    ConditionReads(s.condition, full, block);
    SegmentReads(ts, s.condition, -2, s.block, breakOk, full, more);
  }

  lemma PrintIf(segments: seq<Segment>, otherwise: Option<Block>, full: bool, rest: seq<Token>)
    requires segments != []
    ensures var more := PrintSegments(segments[1..], false, full, PrintElse(otherwise, full, rest));
            PrintStmt(IfStatement(segments, otherwise), full, rest)
            == [If] + PrintCondition(segments[0].condition, full, PrintBlock(segments[0].block, full, more))
  {
    hide PrintBlock, PrintCondition;
    var last := PrintElse(otherwise, full, rest);
    assert PrintSegments(segments, true, full, last)
        == PrintSegment(segments[0], true, full, PrintSegments(segments[1..], false, full, last));
  }

  lemma ElseIfsRead(done: seq<Segment>, segments: seq<Segment>, otherwise: Option<Block>, breakOk: nat, full: bool,
                    rest: seq<Token>)
    requires forall i :: 0 <= i < |done| ==> SegmentBreaksInLoops(done[i], breakOk > 0)
    requires forall i :: 0 <= i < |segments| ==> ShapedSegment(segments[i])
    requires forall i :: 0 <= i < |segments| ==> SegmentBreaksInLoops(segments[i], breakOk > 0)
    requires otherwise.Some? ==>
      StatementBlock(PrintBlock(otherwise.value, full, rest), 0, breakOk) == Found(otherwise.value, rest)
    requires Calm(rest)
    ensures ElseIfs(done, PrintSegments(segments, false, full, PrintElse(otherwise, full, rest)), 0, breakOk)
         == Found(IfStatement(done + segments, otherwise), rest)
    decreases segments, 2
  {
    hide ConditionAndBlock, StatementBlock, ParseExpression, PrintBlock, PrintSegment, SegmentBreaksInLoops,
         ShapedSegment;
    var last := PrintElse(otherwise, full, rest);
    if segments == [] {
      assert done + segments == done;
      if otherwise.Some? {
        Behead(Else, PrintBlock(otherwise.value, full, rest));
      }
    } else {
      var more := PrintSegments(segments[1..], false, full, last);
      ElseIfReads(segments[0], breakOk, full, more);
      ElseIfsRead(done + [segments[0]], segments[1..], otherwise, breakOk, full, rest);
      assert done + [segments[0]] + segments[1..] == done + segments;
    }
  }

  lemma ElseIfReads(s: Segment, breakOk: nat, full: bool, rest: seq<Token>)
    requires ShapedSegment(s) && SegmentBreaksInLoops(s, breakOk > 0)
    ensures var ts := PrintSegment(s, false, full, rest);
            HeadIs(ts, ElseIf) && ConditionAndBlock(ts[1..], 0, 0, breakOk) == Found(s, rest)
    decreases s, 2
  {
    hide ConditionAndBlock, ParseExpression, PrintBlock, Print, Operand;
    var block := PrintBlock(s.block, full, rest);
    var ts := Operand(s.condition, 9, 1, full, TakesBrace(s.condition, 1, full), block);
    Behead(ElseIf, ts);
    BlockStarts(s.block, full, rest);
    ElseIfConditionReads(s.condition, full, block);
    SegmentReads(ts, s.condition, 0, s.block, breakOk, full, rest);
  }

  /** A printed statement is read back exactly when each of its breaks is in a loop. */
  lemma {:induction false} ReadsBackExactlyWhenBreaksAreInLoops(s: Stmt, breakOk: nat, full: bool, rest: seq<Token>)
    requires Shaped(s) && Calm(rest)
    ensures Statement(PrintStmt(s, full, rest), 0, breakOk) == Found(s, rest) <==> BreaksInLoops(s, breakOk > 0)
  {
    hide Statement, PrintStmt;
    if BreaksInLoops(s, breakOk > 0) {
      StatementReads(s, breakOk, full, rest);
    }
  }
}
