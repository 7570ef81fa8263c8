/** Which keyword and which token makes which statement, spelled out. */
module StatementSpelling {
  import opened Wrappers
  import opened Grammar
  import opened StatementGrammar
  import opened RoundTrip
  import opened StatementRoundTrip
  import opened Spelling

  function Named(name: string): LValue {
    LValue(false, name, None, [])
  }

  /** `breakOk` is 1: as in the body of a loop. */
  lemma PrintedStatementReads(s: Stmt, ts: seq<Token>)
    requires Shaped(s) && BreaksInLoops(s, true) && PrintStmt(s, false, []) == ts
    ensures Statement(ts, 0, 1) == Found(s, [])
  {
    hide Statement, PrintStmt;
    ReadsBackExactlyWhenBreaksAreInLoops(s, 1, false, []);
  }

  lemma NamesAssigned(x: string, rest: seq<Token>)
    ensures PrintLValues([Named(x)], true, false, rest) == [Identifier(x)] + rest
  {
    assert [Named(x)][1..] == [];
  }

  lemma OneValue(a: string, rest: seq<Token>)
    ensures PrintList([Var(a)], true, 0, false, rest) == [Identifier(a)] + rest
  {
    assert [Var(a)][1..] == [];
  }

  lemma Assignments(x: string, a: string)
    ensures Statement([Identifier(x), Equals, Identifier(a), Semicolon], 0, 1)
         == Found(AssignStatement(AssignNormal, [Named(x)], [Var(a)]), [])
    ensures Statement([Let, Identifier(x), Equals, Identifier(a), Semicolon], 0, 1)
         == Found(AssignStatement(AssignLet, [Named(x)], [Var(a)]), [])
    ensures Statement([Const, Identifier(x), Equals, Identifier(a), Semicolon], 0, 1)
         == Found(AssignStatement(AssignConst, [Named(x)], [Var(a)]), [])
  {
    hide Statement, PrintLValues, PrintList;
    Joined();
    OneValue(a, [Semicolon]);
    NamesAssigned(x, [Equals, Identifier(a), Semicolon]);
    PrintedStatementReads(AssignStatement(AssignNormal, [Named(x)], [Var(a)]),
                          [Identifier(x), Equals, Identifier(a), Semicolon]);
    PrintedStatementReads(AssignStatement(AssignLet, [Named(x)], [Var(a)]),
                          [Let, Identifier(x), Equals, Identifier(a), Semicolon]);
    PrintedStatementReads(AssignStatement(AssignConst, [Named(x)], [Var(a)]),
                          [Const, Identifier(x), Equals, Identifier(a), Semicolon]);
  }

  lemma Modifications(x: string, a: string)
    ensures Statement([Identifier(x), PlusEquals, Identifier(a), Semicolon], 0, 1)
         == Found(ModifyInPlaceStatement([Named(x)], ModifyPlus, Var(a)), [])
    ensures Statement([Identifier(x), MinusEquals, Identifier(a), Semicolon], 0, 1)
         == Found(ModifyInPlaceStatement([Named(x)], ModifyMinus, Var(a)), [])
    ensures Statement([Identifier(x), TimesEquals, Identifier(a), Semicolon], 0, 1)
         == Found(ModifyInPlaceStatement([Named(x)], ModifyTimes, Var(a)), [])
    ensures Statement([Identifier(x), DivideEquals, Identifier(a), Semicolon], 0, 1)
         == Found(ModifyInPlaceStatement([Named(x)], ModifyDivide, Var(a)), [])
  {
    hide Statement, PrintLValues;
    Joined();
    forall op: ModifyOperator
      ensures PrintStmt(ModifyInPlaceStatement([Named(x)], op, Var(a)), false, [])
           == [Identifier(x), ModifyToken(op), Identifier(a), Semicolon]
    {
      NamesAssigned(x, [ModifyToken(op), Identifier(a), Semicolon]);
    }
    PrintedStatementReads(ModifyInPlaceStatement([Named(x)], ModifyPlus, Var(a)),
                          [Identifier(x), PlusEquals, Identifier(a), Semicolon]);
    PrintedStatementReads(ModifyInPlaceStatement([Named(x)], ModifyMinus, Var(a)),
                          [Identifier(x), MinusEquals, Identifier(a), Semicolon]);
    PrintedStatementReads(ModifyInPlaceStatement([Named(x)], ModifyTimes, Var(a)),
                          [Identifier(x), TimesEquals, Identifier(a), Semicolon]);
    PrintedStatementReads(ModifyInPlaceStatement([Named(x)], ModifyDivide, Var(a)),
                          [Identifier(x), DivideEquals, Identifier(a), Semicolon]);
  }

  /** A part of a variable is assigned: behind a pointer, in a field, at an index. */
  lemma Parts(x: string, f: string, i: string, a: string)
    ensures Statement([Multiply, Identifier(x), Dot, Identifier(f), OpenSquare, Identifier(i), CloseSquare,
                       Equals, Identifier(a), Semicolon], 0, 1)
         == Found(AssignStatement(AssignNormal, [LValue(true, x, Some(f), [Var(i)])], [Var(a)]), [])
  {
    hide Statement, PrintList;
    Joined();
    var lv := LValue(true, x, Some(f), [Var(i)]);
    var after := [Equals, Identifier(a), Semicolon];
    OneValue(a, [Semicolon]);
    assert [lv][1..] == [] && lv.indices[1..] == [];
    assert PrintIndices(lv.indices, false, after)
        == [OpenSquare, Identifier(i), CloseSquare, Equals, Identifier(a), Semicolon];
    assert PrintLValue(lv, false, after)
        == [Multiply] + ([Identifier(x)] + ([Dot] + ([Identifier(f)] + PrintIndices(lv.indices, false, after))));
    var ts := [Multiply, Identifier(x), Dot, Identifier(f), OpenSquare, Identifier(i), CloseSquare,
               Equals, Identifier(a), Semicolon];
    assert PrintLValues([lv], true, false, after) == ts;
    PrintedStatementReads(AssignStatement(AssignNormal, [lv], [Var(a)]), ts);
  }

  lemma Simple(a: string)
    ensures Statement([Break, Semicolon], 0, 1) == Found(BreakStatement, [])
    ensures Statement([Identifier(a), Semicolon], 0, 1) == Found(ExpressionStatement(Var(a)), [])
  {
    hide Statement;
    Joined();
    PrintedStatementReads(BreakStatement, [Break, Semicolon]);
    PrintedStatementReads(ExpressionStatement(Var(a)), [Identifier(a), Semicolon]);
  }

  lemma Returns(a: string, b: string)
    ensures Statement([Return, Identifier(a), Comma, Identifier(b), Semicolon], 0, 1)
         == Found(ReturnStatement([Var(a), Var(b)]), [])
  {
    hide Statement, Print;
    Joined();
    NamesPrinted();
    var values := [Var(a), Var(b)];
    assert values[1..] == [Var(b)] && [Var(b)][1..] == [];
    assert PrintList([Var(b)], false, 0, false, [Semicolon]) == [Comma, Identifier(b), Semicolon];
    assert PrintList(values, true, 0, false, [Semicolon]) == [Identifier(a), Comma, Identifier(b), Semicolon];
    PrintedStatementReads(ReturnStatement(values), [Return, Identifier(a), Comma, Identifier(b), Semicolon]);
  }

  lemma Sends(a: string, b: string)
    ensures Statement([Send, OpenCurved, Identifier(a), Comma, Identifier(b), CloseCurved, Semicolon], 0, 1)
         == Found(SendStatement(Var(a), Var(b)), [])
  {
    hide Statement, Print;
    Joined();
    NamesPrinted();
    PrintedStatementReads(SendStatement(Var(a), Var(b)),
                          [Send, OpenCurved, Identifier(a), Comma, Identifier(b), CloseCurved, Semicolon]);
  }

  lemma BlockPrinted(s: Stmt, ts: seq<Token>, rest: seq<Token>)
    requires PrintStmt(s, false, [CloseCurly] + rest) == ts + ([CloseCurly] + rest)
    ensures PrintBlock(Block([s]), false, rest) == [OpenCurly] + (ts + ([CloseCurly] + rest))
  {
    hide PrintStmt;
    assert [s][1..] == [];
    assert PrintStmts([], false, [CloseCurly] + rest) == [CloseCurly] + rest;
  }

  lemma BreakBlock(rest: seq<Token>)
    ensures PrintBlock(Block([BreakStatement]), false, rest) == [OpenCurly, Break, Semicolon, CloseCurly] + rest
  {
    BlockPrinted(BreakStatement, [Break, Semicolon], rest);
  }

  lemma NameBlock(a: string, rest: seq<Token>)
    ensures PrintBlock(Block([ExpressionStatement(Var(a))]), false, rest)
         == [OpenCurly, Identifier(a), Semicolon, CloseCurly] + rest
  {
    BlockPrinted(ExpressionStatement(Var(a)), [Identifier(a), Semicolon], rest);
  }

  lemma NameBlockShaped(a: string)
    ensures var b := Block([ExpressionStatement(Var(a))]);
            ShapedBlock(b) && BlockBreaksInLoops(b, true)
  {
    var s := ExpressionStatement(Var(a));
    assert Shaped(s) && BreaksInLoops(s, true);
  }

  lemma ConditionPrinted(a: string, rest: seq<Token>)
    ensures PrintCondition(Var(a), false, rest) == [Identifier(a)] + rest
  {
    PrintName(a, 9, -1, rest);
  }

  lemma Loops(x: string, a: string)
    ensures Statement([While, Identifier(a), OpenCurly, Break, Semicolon, CloseCurly], 0, 0)
         == Found(WhileStatement(Var(a), Block([BreakStatement])), [])
    ensures Statement([Foreach, Identifier(x), Colon, Identifier(a), OpenCurly, Break, Semicolon, CloseCurly], 0, 0)
         == Found(ForeachStatement(x, Var(a), Block([BreakStatement])), [])
  {
    hide Statement, PrintBlock, PrintCondition;
    Joined();
    BreakBlock([]);
    var block := [OpenCurly, Break, Semicolon, CloseCurly];
    assert block + [] == block;
    ConditionPrinted(a, block);
    var w, f := WhileStatement(Var(a), Block([BreakStatement])), ForeachStatement(x, Var(a), Block([BreakStatement]));
    ReadsBackExactlyWhenBreaksAreInLoops(w, 0, false, []);
    ReadsBackExactlyWhenBreaksAreInLoops(f, 0, false, []);
    assert PrintStmt(w, false, []) == [While, Identifier(a), OpenCurly, Break, Semicolon, CloseCurly];
    assert PrintStmt(f, false, [])
        == [Foreach, Identifier(x), Colon, Identifier(a), OpenCurly, Break, Semicolon, CloseCurly];
  }

  /** Each block goes with the condition before it. */
  lemma Branches(a: string, p: string, b: string, q: string, r: string)
    ensures Statement([If, Identifier(a), OpenCurly, Identifier(p), Semicolon, CloseCurly]
                      + ([ElseIf, OpenCurved, Identifier(b), CloseCurved, OpenCurly, Identifier(q), Semicolon,
                          CloseCurly]
                      + [Else, OpenCurly, Identifier(r), Semicolon, CloseCurly]), 0, 1)
         == Found(IfStatement([Segment(Var(a), Block([ExpressionStatement(Var(p))])),
                               Segment(Var(b), Block([ExpressionStatement(Var(q))]))],
                              Some(Block([ExpressionStatement(Var(r))]))), [])
  {
    hide Statement, PrintBlock, PrintSegment, PrintStmt;
    var first := Segment(Var(a), Block([ExpressionStatement(Var(p))]));
    var second := Segment(Var(b), Block([ExpressionStatement(Var(q))]));
    var otherwise := Block([ExpressionStatement(Var(r))]);
    var last := [OpenCurly, Identifier(r), Semicolon, CloseCurly];
    NameBlock(r, []);
    assert last + [] == last;
    assert [Else] + last == [Else, OpenCurly, Identifier(r), Semicolon, CloseCurly];
    SecondSegment(b, q, [Else] + last);
    FirstSegment(a, p, PrintSegment(second, false, false, [Else] + last));
    BranchesPrinted(first, second, otherwise);
    NameBlockShaped(p);
    NameBlockShaped(q);
    NameBlockShaped(r);
    PrintedStatementReads(IfStatement([first, second], Some(otherwise)),
                          PrintStmt(IfStatement([first, second], Some(otherwise)), false, []));
  }

  lemma BranchesPrinted(first: Segment, second: Segment, otherwise: Block)
    ensures PrintStmt(IfStatement([first, second], Some(otherwise)), false, [])
         == PrintSegment(first, true, false,
                         PrintSegment(second, false, false, [Else] + PrintBlock(otherwise, false, [])))
  {
    hide PrintSegment, PrintBlock;
    assert [first, second][1..] == [second] && [second][1..] == [];
    var last := [Else] + PrintBlock(otherwise, false, []);
    assert PrintSegments([], false, false, last) == last;
    assert PrintSegments([second], false, false, last) == PrintSegment(second, false, false, last);
  }

  lemma FirstSegment(a: string, p: string, rest: seq<Token>)
    ensures PrintSegment(Segment(Var(a), Block([ExpressionStatement(Var(p))])), true, false, rest)
         == [If, Identifier(a), OpenCurly, Identifier(p), Semicolon, CloseCurly] + rest
  {
    hide PrintBlock, PrintCondition;
    NameBlock(p, rest);
    ConditionPrinted(a, [OpenCurly, Identifier(p), Semicolon, CloseCurly] + rest);
  }

  lemma SecondSegment(b: string, q: string, rest: seq<Token>)
    ensures PrintSegment(Segment(Var(b), Block([ExpressionStatement(Var(q))])), false, false, rest)
         == [ElseIf, OpenCurved, Identifier(b), CloseCurved, OpenCurly, Identifier(q), Semicolon, CloseCurly] + rest
  {
    hide PrintBlock, Operand, Print;
    var block := [OpenCurly, Identifier(q), Semicolon, CloseCurly];
    NameBlock(q, rest);
    NamesPrinted();
    OperandIs(Var(b), 9, 1, false, true, block + rest);
    InBrackets(b, block, rest);
    assert [ElseIf, OpenCurved, Identifier(b), CloseCurved] + block
        == [ElseIf, OpenCurved, Identifier(b), CloseCurved, OpenCurly, Identifier(q), Semicolon, CloseCurly];
  }

  lemma InBrackets(b: string, block: seq<Token>, rest: seq<Token>)
    ensures [ElseIf] + ([OpenCurved] + ([Identifier(b)] + ([CloseCurved] + (block + rest))))
         == [ElseIf, OpenCurved, Identifier(b), CloseCurved] + block + rest
  {
  }
}
