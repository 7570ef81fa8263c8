/**
  The statement grammar.  `ok` is the parser's `structLiteralOk` and `breakOk` its count of enclosing
  loops; conditions of `if` and of loops are read with `ok` lowered by two, those of `elseif` are not.
*/
module StatementGrammar {
  import opened Wrappers
  import opened Grammar

  /** `*name.field[i][j]`: the star and the field are optional, the indices any number. */
  datatype LValue = LValue(deref: bool, name: string, field: Option<string>, indices: seq<Expr>)

  datatype ModifyOperator = ModifyPlus | ModifyMinus | ModifyTimes | ModifyDivide

  datatype AssignType = AssignNormal | AssignLet | AssignConst

  datatype Stmt =
    | ForeachStatement(loopVar: string, iterable: Expr, body: Block)
    | WhileStatement(condition: Expr, body: Block)
    | IfStatement(segments: seq<Segment>, otherwise: Option<Block>)
    | BreakStatement
    | ReturnStatement(values: seq<Expr>)
    | SendStatement(pipe: Expr, sent: Expr)
    | AssignStatement(kind: AssignType, lhs: seq<LValue>, rhs: seq<Expr>)
    | ModifyInPlaceStatement(modified: seq<LValue>, operator: ModifyOperator, amount: Expr)
    | ExpressionStatement(expression: Expr)

  datatype Segment = Segment(condition: Expr, block: Block)

  datatype Block = Block(stmts: seq<Stmt>)

  /** Every break is inside a loop of the statement, unless it is inside one already. */
  predicate BreaksInLoops(s: Stmt, inLoop: bool)
    decreases s
  {
    match s
    case BreakStatement => inLoop
    case ForeachStatement(_, _, body) => BlockBreaksInLoops(body, true)
    case WhileStatement(_, body) => BlockBreaksInLoops(body, true)
    case IfStatement(segments, otherwise) =>
      && (forall i :: 0 <= i < |segments| ==> SegmentBreaksInLoops(segments[i], inLoop))
      && (otherwise.Some? ==> BlockBreaksInLoops(otherwise.value, inLoop))
    case _ => true
  }

  predicate SegmentBreaksInLoops(s: Segment, inLoop: bool)
    decreases s
  {
    BlockBreaksInLoops(s.block, inLoop)
  }

  predicate BlockBreaksInLoops(b: Block, inLoop: bool)
    decreases b
  {
    forall i :: 0 <= i < |b.stmts| ==> BreaksInLoops(b.stmts[i], inLoop)
  }

  // ---------------------------------------------------------------- what can be assigned

  /** `[i][j]...` after those read already. */
  function Indices(read: seq<Expr>, ts: seq<Token>, ok: int): (r: Parsed<seq<Expr>>)
    ensures Shrinks(r, ts, 0) && !r.NotFound?
    decreases |ts|
  {
    if !HeadIs(ts, OpenSquare) then Found(read, ts)
    else match ParseExpression(ts[1..], ok)
      case Found(i, rest) => if HeadIs(rest, CloseSquare) then Indices(read + [i], rest[1..], ok) else Errored
      case NotFound(_) => Errored
      case Errored => Errored
  }

  function IndexingLValue(deref: bool, ts: seq<Token>, ok: int): (r: Parsed<LValue>)
    ensures Shrinks(r, ts, 1) && Clean(r, ts)
  {
    if ts == [] || !ts[0].Identifier? then NotFound(ts)
    else if HeadIs(ts[1..], Dot) && (|ts| < 3 || !ts[2].Identifier?) then Errored
    else
      var field := if HeadIs(ts[1..], Dot) then Some(ts[2].name) else None;
      match Indices([], if field.Some? then ts[3..] else ts[1..], ok)
      case Found(indices, rest) => Found(LValue(deref, ts[0].name, field, indices), rest)
      case NotFound(_) => Errored
      case Errored => Errored
  }

  function DereferenceLValue(ts: seq<Token>, ok: int): (r: Parsed<LValue>)
    ensures Shrinks(r, ts, 1) && Clean(r, ts)
  {
    var deref := HeadIs(ts, Multiply);
    match IndexingLValue(deref, if deref then ts[1..] else ts, ok)
    case Found(lv, rest) => Found(lv, rest)
    case NotFound(_) => NotFound(ts)
    case Errored => Errored
  }

  function LValues(ts: seq<Token>, ok: int): (r: Parsed<seq<LValue>>)
    ensures Shrinks(r, ts, 1) && Clean(r, ts)
  {
    match DereferenceLValue(ts, ok)
    case Found(lv, rest) => LValueTail([lv], rest, ok)
    case NotFound(_) => NotFound(ts)
    case Errored => Errored
  }

  function LValueTail(read: seq<LValue>, ts: seq<Token>, ok: int): (r: Parsed<seq<LValue>>)
    ensures Shrinks(r, ts, 0) && !r.NotFound?
    decreases |ts|
  {
    if !HeadIs(ts, Comma) then Found(read, ts)
    else match DereferenceLValue(ts[1..], ok)
      case Found(lv, rest) => LValueTail(read + [lv], rest, ok)
      case NotFound(_) => Errored
      case Errored => Errored
  }

  // ---------------------------------------------------------------- statements

  /** One or more expressions. */
  function Tuple(ts: seq<Token>, ok: int): (r: Parsed<seq<Expr>>)
    ensures Shrinks(r, ts, 1) && Clean(r, ts)
  {
    match ParseExpression(ts, ok)
    case Found(e, rest) => ListTail([e], rest, ok)
    case NotFound(_) => NotFound(ts)
    case Errored => Errored
  }

  function ModifyToken(op: ModifyOperator): Token {
    match op
    case ModifyPlus => PlusEquals
    case ModifyMinus => MinusEquals
    case ModifyTimes => TimesEquals
    case ModifyDivide => DivideEquals
  }

  function ModifyOperatorOf(ts: seq<Token>): (op: Option<ModifyOperator>)
    ensures op.Some? ==> HeadIs(ts, ModifyToken(op.value))
    ensures op.None? ==> forall o :: !HeadIs(ts, ModifyToken(o))
  {
    if HeadIs(ts, PlusEquals) then Some(ModifyPlus)
    else if HeadIs(ts, MinusEquals) then Some(ModifyMinus)
    else if HeadIs(ts, TimesEquals) then Some(ModifyTimes)
    else if HeadIs(ts, DivideEquals) then Some(ModifyDivide)
    else None
  }

  function ModifyInPlace(ts: seq<Token>, ok: int): (r: Parsed<Stmt>)
    ensures Shrinks(r, ts, 1) && Clean(r, ts)
    ensures r.Found? ==> r.value.ModifyInPlaceStatement?
  {
    match LValues(ts, ok)
    case NotFound(_) => NotFound(ts)
    case Errored => Errored
    case Found(lvs, rest) =>
      var op := ModifyOperatorOf(rest);
      if op.None? then NotFound(ts)
      else match ParseExpression(rest[1..], ok)
        case Found(e, after) => Found(ModifyInPlaceStatement(lvs, op.value, e), after)
        case NotFound(_) => Errored
        case Errored => Errored
  }

  function Assign(ts: seq<Token>, ok: int): (r: Parsed<Stmt>)
    ensures Shrinks(r, ts, 1) && Clean(r, ts)
    ensures r.Found? ==> r.value.AssignStatement?
  {
    match LValues(ts, ok)
    case NotFound(_) => NotFound(ts)
    case Errored => Errored
    case Found(lvs, rest) =>
      if !HeadIs(rest, Equals) then NotFound(ts)
      else match Tuple(rest[1..], ok)
        case Found(es, after) => Found(AssignStatement(AssignNormal, lvs, es), after)
        case NotFound(_) => Errored
        case Errored => Errored
  }

  function LetLike(kind: AssignType, ts: seq<Token>, ok: int): (r: Parsed<Stmt>)
    requires HeadIs(ts, if kind == AssignLet then Let else Const)
    ensures Shrinks(r, ts, 1) && !r.NotFound?
    ensures r.Found? ==> r.value.AssignStatement?
  {
    match LValues(ts[1..], ok)
    case NotFound(_) => Errored
    case Errored => Errored
    case Found(lvs, rest) =>
      if !HeadIs(rest, Equals) then Errored
      else match ParseExpression(rest[1..], ok)
        case Found(e, after) => Found(AssignStatement(kind, lvs, [e]), after)
        case NotFound(_) => Errored
        case Errored => Errored
  }

  function SendTo(ts: seq<Token>, ok: int): (r: Parsed<Stmt>)
    requires HeadIs(ts, Send)
    ensures Shrinks(r, ts, 1) && !r.NotFound?
    ensures r.Found? ==> r.value.SendStatement?
  {
    if !HeadIs(ts[1..], OpenCurved) then Errored
    else match ParseExpression(ts[1..][1..], ok)
      case NotFound(_) => Errored
      case Errored => Errored
      case Found(pipe, rest) =>
        if !HeadIs(rest, Comma) then Errored
        else match ParseExpression(rest[1..], ok)
          case Found(value, after) =>
            if HeadIs(after, CloseCurved) then Found(SendStatement(pipe, value), after[1..]) else Errored
          case NotFound(_) => Errored
          case Errored => Errored
  }

  function ReturnValue(ts: seq<Token>, ok: int): (r: Parsed<Stmt>)
    requires HeadIs(ts, Return)
    ensures Shrinks(r, ts, 1) && !r.NotFound?
    ensures r.Found? ==> r.value.ReturnStatement?
  {
    match Tuple(ts[1..], ok)
    case Found(es, rest) => Found(ReturnStatement(es), rest)
    case NotFound(_) => Found(ReturnStatement([]), ts[1..])
    case Errored => Errored
  }

  /** What no keyword starts. */
  function Plain(ts: seq<Token>, ok: int): (r: Parsed<Stmt>)
    ensures Shrinks(r, ts, 1) && Clean(r, ts)
    ensures r.Found? ==> !r.value.BreakStatement? && BreaksInLoops(r.value, false)
  {
    var inPlace := ModifyInPlace(ts, ok);
    if !inPlace.NotFound? then inPlace
    else
      var assign := Assign(ts, ok);
      if !assign.NotFound? then assign
      else match ParseExpression(ts, ok)
        case Found(e, rest) => Found(ExpressionStatement(e), rest)
        case NotFound(_) => NotFound(ts)
        case Errored => Errored
  }

  /** A condition or the like, then a block. */
  function ConditionAndBlock(ts: seq<Token>, ok: int, outer: int, breakOk: nat): (r: Parsed<Segment>)
    ensures Shrinks(r, ts, 1) && !r.NotFound?
    ensures r.Found? ==> SegmentBreaksInLoops(r.value, breakOk > 0)
    decreases |ts|, 2
  {
    match ParseExpression(ts, ok)
    case NotFound(_) => Errored
    case Errored => Errored
    case Found(e, rest) =>
      match StatementBlock(rest, outer, breakOk)
      case Found(b, after) => Found(Segment(e, b), after)
      case NotFound(_) => Errored
      case Errored => Errored
  }

  function StatementBlock(ts: seq<Token>, ok: int, breakOk: nat): (r: Parsed<Block>)
    ensures Shrinks(r, ts, 1) && Clean(r, ts)
    ensures r.Found? ==> BlockBreaksInLoops(r.value, breakOk > 0)
    decreases |ts|, 1
  {
    if HeadIs(ts, OpenCurly) then
      var r := Statements([], ts[1..], ok, breakOk);
      if r.NotFound? then Errored else r
    else NotFound(ts)
  }

  function Statements(read: seq<Stmt>, ts: seq<Token>, ok: int, breakOk: nat): (r: Parsed<Block>)
    requires forall i :: 0 <= i < |read| ==> BreaksInLoops(read[i], breakOk > 0)
    ensures Shrinks(r, ts, 1) && !r.NotFound?
    ensures r.Found? ==> BlockBreaksInLoops(r.value, breakOk > 0)
    decreases |ts|, 4
  {
    match Statement(ts, ok, breakOk)
    case Found(s, rest) => Statements(read + [s], rest, ok, breakOk)
    case NotFound(rest) => if HeadIs(rest, CloseCurly) then Found(Block(read), rest[1..]) else Errored
    case Errored => Errored
  }

  /** One statement, with the semicolons around it. */
  function Statement(ts: seq<Token>, ok: int, breakOk: nat): (r: Parsed<Stmt>)
    ensures Shrinks(r, ts, 1)
    ensures r.Found? ==> BreaksInLoops(r.value, breakOk > 0)
    decreases |ts|, 3
  {
    match BareStatement(SkipSemicolons(ts), ok, breakOk)
    case Found(s, rest) => Found(s, SkipSemicolons(rest))
    case NotFound(rest) => NotFound(rest)
    case Errored => Errored
  }

  function BareStatement(ts: seq<Token>, ok: int, breakOk: nat): (r: Parsed<Stmt>)
    ensures Shrinks(r, ts, 1) && Clean(r, ts)
    ensures r.Found? ==> BreaksInLoops(r.value, breakOk > 0)
    decreases |ts|, 2
  {
    if ts == [] then Plain(ts, ok)
    else match ts[0]
      case Foreach => Control(ts, ok, breakOk)
      case While => Control(ts, ok, breakOk)
      case If => Control(ts, ok, breakOk)
      case Let => LetLike(AssignLet, ts, ok)
      case Const => LetLike(AssignConst, ts, ok)
      case Send => SendTo(ts, ok)
      case Return => ReturnValue(ts, ok)
      case Break => if breakOk == 0 then Errored else Found(BreakStatement, ts[1..])
      case _ => Plain(ts, ok)
  }

  function Control(ts: seq<Token>, ok: int, breakOk: nat): (r: Parsed<Stmt>)
    requires HeadIs(ts, Foreach) || HeadIs(ts, While) || HeadIs(ts, If)
    ensures Shrinks(r, ts, 1) && !r.NotFound?
    ensures r.Found? ==> BreaksInLoops(r.value, breakOk > 0)
    decreases |ts|, 1
  {
    if HeadIs(ts, Foreach) then
      if |ts| < 3 || !ts[1].Identifier? || ts[2] != Colon then Errored
      else match ConditionAndBlock(ts[3..], ok - 2, ok, breakOk + 1)
        case Found(s, rest) => Found(ForeachStatement(ts[1].name, s.condition, s.block), rest)
        case NotFound(_) => Errored
        case Errored => Errored
    else match ConditionAndBlock(ts[1..], ok - 2, ok, if HeadIs(ts, While) then breakOk + 1 else breakOk)
      case Found(s, rest) =>
        if HeadIs(ts, While) then Found(WhileStatement(s.condition, s.block), rest)
        else ElseIfs([s], rest, ok, breakOk)
      case NotFound(_) => Errored
      case Errored => Errored
  }

  /** `elseif`s and `else` after the segments read already. */
  function ElseIfs(read: seq<Segment>, ts: seq<Token>, ok: int, breakOk: nat): (r: Parsed<Stmt>)
    requires forall i :: 0 <= i < |read| ==> SegmentBreaksInLoops(read[i], breakOk > 0)
    ensures Shrinks(r, ts, 0) && !r.NotFound?
    ensures r.Found? ==> BreaksInLoops(r.value, breakOk > 0)
    decreases |ts|, 0
  {
    if HeadIs(ts, ElseIf) then
      match ConditionAndBlock(ts[1..], ok, ok, breakOk)
      case Found(s, rest) => ElseIfs(read + [s], rest, ok, breakOk)
      case NotFound(_) => Errored
      case Errored => Errored
    else if HeadIs(ts, Else) then
      match StatementBlock(ts[1..], ok, breakOk)
      case Found(b, rest) => Found(IfStatement(read, Some(b)), rest)
      case NotFound(_) => Errored
      case Errored => Errored
    else Found(IfStatement(read, None), ts)
  }

  // The production each keyword leads to.

  lemma {:induction false} ByKeyword(ts: seq<Token>, ok: int, breakOk: nat)
    ensures HeadIs(ts, Let) ==> BareStatement(ts, ok, breakOk) == LetLike(AssignLet, ts, ok)
    ensures HeadIs(ts, Const) ==> BareStatement(ts, ok, breakOk) == LetLike(AssignConst, ts, ok)
    ensures HeadIs(ts, Send) ==> BareStatement(ts, ok, breakOk) == SendTo(ts, ok)
    ensures HeadIs(ts, Return) ==> BareStatement(ts, ok, breakOk) == ReturnValue(ts, ok)
    ensures HeadIs(ts, Break) ==>
      BareStatement(ts, ok, breakOk) == if breakOk == 0 then Errored else Found(BreakStatement, ts[1..])
    ensures HeadIs(ts, Foreach) || HeadIs(ts, While) || HeadIs(ts, If) ==>
      BareStatement(ts, ok, breakOk) == Control(ts, ok, breakOk)
  {
    hide BareStatement, LetLike, SendTo, ReturnValue, Control;
    if ts != [] {
      match ts[0]
      case Let => KeywordStep(ts, ok, breakOk);
      case Const => KeywordStep(ts, ok, breakOk);
      case Send => KeywordStep(ts, ok, breakOk);
      case Return => KeywordStep(ts, ok, breakOk);
      case Break => KeywordStep(ts, ok, breakOk);
      case Foreach => ControlStep(ts, ok, breakOk);
      case While => ControlStep(ts, ok, breakOk);
      case If => ControlStep(ts, ok, breakOk);
      case _ =>
    }
  }

  lemma KeywordStep(ts: seq<Token>, ok: int, breakOk: nat)
    requires ts != []
    ensures match ts[0]
            case Let => BareStatement(ts, ok, breakOk) == LetLike(AssignLet, ts, ok)
            case Const => BareStatement(ts, ok, breakOk) == LetLike(AssignConst, ts, ok)
            case Send => BareStatement(ts, ok, breakOk) == SendTo(ts, ok)
            case Return => BareStatement(ts, ok, breakOk) == ReturnValue(ts, ok)
            case Break => BareStatement(ts, ok, breakOk)
                       == if breakOk == 0 then Errored else Found(BreakStatement, ts[1..])
            case _ => true
  {
    hide LetLike, SendTo, ReturnValue, Control, Plain;
  }

  lemma ControlStep(ts: seq<Token>, ok: int, breakOk: nat)
    requires HeadIs(ts, Foreach) || HeadIs(ts, While) || HeadIs(ts, If)
    ensures BareStatement(ts, ok, breakOk) == Control(ts, ok, breakOk)
  {
    hide LetLike, SendTo, ReturnValue, Control, Plain;
  }
}
