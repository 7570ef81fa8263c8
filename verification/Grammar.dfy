/**
  The expression grammar as functions from token sequences to results.  `ok` is the parser's
  `structLiteralOk`: below zero, an identifier is never the start of a struct literal.
*/
module Grammar {
  import opened Wrappers

  datatype Token =
    | Integer(value: int) | True | False | Identifier(name: string)
    | OpenCurved | CloseCurved | OpenSquare | CloseSquare | OpenCurly | CloseCurly
    | Comma | Colon | Semicolon | Dot | Not
    | Multiply | Divide | Percent | Plus | Minus
    | LessThan | LessThanOrEqual | GreaterThan | GreaterThanOrEqual
    | Equality | Inequality | And | Or
    | New | Range | Drain | Receive | Cpu | Gpu
    | Foreach | While | If | ElseIf | Else | Break | Return | Let | Const | Send
    | Equals | PlusEquals | MinusEquals | TimesEquals | DivideEquals
    | OtherToken(text: string)

  datatype BinaryOperator =
    | OpMultiply | OpDivide | OpMod
    | OpAdd | OpSubtract
    | OpLT | OpLTE | OpGT | OpGTE
    | OpEquality | OpInequality
    | OpAnd
    | OpOr

  datatype UnaryOperator = OpNot | OpNegate

  datatype Expr =
    | IntegerTerminal(value: int)
    | BooleanTerminal(flag: bool)
    | IdentifierTerminal(name: string)
    | StructLiteral(structName: string, pairs: seq<Pair>)
    | Call(called: Expr, arguments: seq<Expr>)
    | Index(indexed: Expr, index: Expr)
    | Access(accessed: Expr, field: string)
    | Unary(unary: UnaryOperator, rhs: Expr)
    | Binary(lhs: Expr, binary: BinaryOperator, right: Expr)
    | NewExpr(initialiser: Expr)
    | RangeExpr(start: Expr, count: Expr, step: Expr)
    | Dereference(pointer: Expr)
    | ReceiveWorker(worker: Expr, all: bool)
    | CreateWorker(task: Expr, gpu: bool)

  datatype Pair = Pair(field: string, value: Expr)

  /** What a production makes of a token sequence; an error, once logged, is final. */
  datatype Parsed<T> =
    | Found(value: T, rest: seq<Token>)
    | NotFound(rest: seq<Token>)
    | Errored

  // ---------------------------------------------------------------- tokens of the ladder

  /** The ladder's rungs: 0 postfix, 1 unary, 2 multiplicative, 3 additive, 4 relational, 5 equality, 6 and, 7 or. */
  const TOP := 7

  function BinaryToken(op: BinaryOperator): Token {
    match op
    case OpMultiply => Multiply
    case OpDivide => Divide
    case OpMod => Percent
    case OpAdd => Plus
    case OpSubtract => Minus
    case OpLT => LessThan
    case OpLTE => LessThanOrEqual
    case OpGT => GreaterThan
    case OpGTE => GreaterThanOrEqual
    case OpEquality => Equality
    case OpInequality => Inequality
    case OpAnd => And
    case OpOr => Or
  }

  function Rung(op: BinaryOperator): (level: nat)
    ensures 2 <= level <= TOP
  {
    match op
    case OpMultiply => 2
    case OpDivide => 2
    case OpMod => 2
    case OpAdd => 3
    case OpSubtract => 3
    case OpLT => 4
    case OpLTE => 4
    case OpGT => 4
    case OpGTE => 4
    case OpEquality => 5
    case OpInequality => 5
    case OpAnd => 6
    case OpOr => 7
  }

  /** The operator a token stands for between operands. */
  function OperatorOf(t: Token): (op: Option<BinaryOperator>)
    ensures op.Some? ==> BinaryToken(op.value) == t
    ensures op.None? ==> forall o :: BinaryToken(o) != t
  {
    match t
    case Multiply => Some(OpMultiply)
    case Divide => Some(OpDivide)
    case Percent => Some(OpMod)
    case Plus => Some(OpAdd)
    case Minus => Some(OpSubtract)
    case LessThan => Some(OpLT)
    case LessThanOrEqual => Some(OpLTE)
    case GreaterThan => Some(OpGT)
    case GreaterThanOrEqual => Some(OpGTE)
    case Equality => Some(OpEquality)
    case Inequality => Some(OpInequality)
    case And => Some(OpAnd)
    case Or => Some(OpOr)
    case _ => None
  }

  /** The operator at the head of `ts`, if it belongs to the rung. */
  function HeadOperator(ts: seq<Token>, level: nat): Option<BinaryOperator> {
    if ts == [] then None
    else match OperatorOf(ts[0])
      case Some(op) => if Rung(op) == level then Some(op) else None
      case None => None
  }

  function UnaryToken(op: UnaryOperator): Token {
    match op
    case OpNot => Not
    case OpNegate => Minus
  }

  predicate HeadIs(ts: seq<Token>, t: Token) {
    ts != [] && ts[0] == t
  }

  function SkipSemicolons(ts: seq<Token>): (rest: seq<Token>)
    ensures |rest| <= |ts|
    ensures !HeadIs(rest, Semicolon)
  {
    if HeadIs(ts, Semicolon) then SkipSemicolons(ts[1..]) else ts
  }

  // ---------------------------------------------------------------- productions

  /** A success consumes at least `least` tokens; a failure may have consumed some. */
  ghost predicate Shrinks<T>(r: Parsed<T>, ts: seq<Token>, least: nat) {
    match r
    case Found(_, rest) => |rest| + least <= |ts|
    case NotFound(rest) => |rest| <= |ts|
    case Errored => true
  }

  /** A failure that logs nothing consumes nothing. */
  ghost predicate Clean<T>(r: Parsed<T>, ts: seq<Token>) {
    r.NotFound? ==> r.rest == ts
  }

  function Literal(ts: seq<Token>, ok: int): (r: Parsed<Expr>)
    ensures Shrinks(r, ts, 1) && Clean(r, ts)
    decreases |ts|, 0, 0
  {
    if ts == [] then NotFound(ts)
    else match ts[0]
      case Integer(v) => Found(IntegerTerminal(v), ts[1..])
      case True => Found(BooleanTerminal(true), ts[1..])
      case False => Found(BooleanTerminal(false), ts[1..])
      case Identifier(name) =>
        if ok < 0 then Found(IdentifierTerminal(name), ts[1..])
        else (match StructLiteralBody(ts[1..], ok)
              case Found(pairs, rest) => Found(StructLiteral(name, pairs), rest)
              case NotFound(_) => Found(IdentifierTerminal(name), ts[1..])
              case Errored => Errored)
      case _ => NotFound(ts)
  }

  function StructLiteralBody(ts: seq<Token>, ok: int): (r: Parsed<seq<Pair>>)
    ensures Shrinks(r, ts, 0) && Clean(r, ts)
    decreases |ts|, 0, 0
  {
    if HeadIs(ts, OpenCurly) then
      var r := StructPairs(ts[1..], [], true, ok);
      if r.NotFound? then Errored else r
    else NotFound(ts)
  }

  /** The loop over a struct literal's pairs. */
  function StructPairs(ts: seq<Token>, pairs: seq<Pair>, first: bool, ok: int): (r: Parsed<seq<Pair>>)
    ensures Shrinks(r, ts, 1) && !r.NotFound?
    decreases |ts|, 2, if first then 1 else 0
  {
    var here := SkipSemicolons(ts);
    if HeadIs(here, CloseCurly) then Found(pairs, here[1..])
    else if pairs == [] && !first then Errored
    else if pairs != [] && !HeadIs(here, Comma) then Errored
    else
      var next := if pairs != [] then SkipSemicolons(here[1..]) else here;
      match LiteralPair(next, ok)
      case Found(pair, rest) => StructPairs(rest, pairs + [pair], false, ok)
      case NotFound(_) => StructPairs(next, pairs, false, ok)
      case Errored => Errored
  }

  function LiteralPair(ts: seq<Token>, ok: int): (r: Parsed<Pair>)
    ensures Shrinks(r, ts, 1) && Clean(r, ts)
    decreases |ts|, 1, 0
  {
    if ts == [] || !ts[0].Identifier? then NotFound(ts)
    else if !HeadIs(ts[1..], Colon) then Errored
    else match ParseExpression(ts[2..], ok)
      case Found(e, rest) => Found(Pair(ts[0].name, e), rest)
      case NotFound(_) => Errored
      case Errored => Errored
  }

  function Primary(ts: seq<Token>, ok: int): (r: Parsed<Expr>)
    ensures Shrinks(r, ts, 1) && Clean(r, ts)
    decreases |ts|, 1, 0
  {
    if HeadIs(ts, OpenCurved) then
      match ParseExpression(ts[1..], ok)
      case Found(e, rest) => if HeadIs(rest, CloseCurved) then Found(e, rest[1..]) else Errored
      case NotFound(_) => Errored
      case Errored => Errored
    else Literal(ts, ok)
  }

  /** Expressions separated by commas, possibly none. */
  function ExpressionList(ts: seq<Token>, ok: int): (r: Parsed<seq<Expr>>)
    ensures Shrinks(r, ts, 0) && !r.NotFound?
    decreases |ts|, 21, 0
  {
    match ParseExpression(ts, ok)
    case Found(e, rest) => ListTail([e], rest, ok)
    case NotFound(rest) => Found([], rest)
    case Errored => Errored
  }

  function ListTail(es: seq<Expr>, ts: seq<Token>, ok: int): (r: Parsed<seq<Expr>>)
    ensures Shrinks(r, ts, 0) && !r.NotFound?
    decreases |ts|, 0, 0
  {
    if !HeadIs(ts, Comma) then Found(es, ts)
    else match ParseExpression(ts[1..], ok)
      case Found(e, rest) => ListTail(es + [e], rest, ok)
      case NotFound(_) => Errored
      case Errored => Errored
  }

  /** Calls, indexing and accesses after a primary expression. */
  function PostfixTail(e: Expr, ts: seq<Token>, ok: int): (r: Parsed<Expr>)
    ensures Shrinks(r, ts, 0)
    decreases |ts|, 0, 0
  {
    if HeadIs(ts, OpenCurved) then
      match ExpressionList(ts[1..], ok)
      case Found(es, rest) =>
        if HeadIs(rest, CloseCurved) then PostfixTail(Call(e, es), rest[1..], ok) else Errored
      case NotFound(_) => Errored
      case Errored => Errored
    else if HeadIs(ts, OpenSquare) then
      match ParseExpression(ts[1..], ok)
      case Found(i, rest) =>
        if HeadIs(rest, CloseSquare) then PostfixTail(Index(e, i), rest[1..], ok) else Errored
      case NotFound(rest) => NotFound(rest)
      case Errored => Errored
    else if HeadIs(ts, Dot) then
      if |ts| > 1 && ts[1].Identifier? then PostfixTail(Access(e, ts[1].name), ts[2..], ok) else Errored
    else Found(e, ts)
  }

  function Postfix(ts: seq<Token>, ok: int): (r: Parsed<Expr>)
    ensures Shrinks(r, ts, 1)
    decreases |ts|, 2, 0
  {
    match Primary(ts, ok)
    case Found(e, rest) => PostfixTail(e, rest, ok)
    case NotFound(rest) => NotFound(rest)
    case Errored => Errored
  }

  function UnaryExpression(ts: seq<Token>, ok: int): (r: Parsed<Expr>)
    ensures Shrinks(r, ts, 1)
    decreases |ts|, 3, 0
  {
    if HeadIs(ts, Not) || HeadIs(ts, Minus) then
      match Postfix(ts[1..], ok)
      case Found(e, rest) => Found(Unary(if ts[0] == Not then OpNot else OpNegate, e), rest)
      case NotFound(_) => Errored
      case Errored => Errored
    else Postfix(ts, ok)
  }

  /** One rung of the ladder. */
  function Ladder(level: nat, ts: seq<Token>, ok: int): (r: Parsed<Expr>)
    ensures Shrinks(r, ts, 1)
    decreases |ts|, 3 + level, 1
  {
    if level == 0 then Postfix(ts, ok)
    else if level == 1 then UnaryExpression(ts, ok)
    else match Ladder(level - 1, ts, ok)
      case Found(e, rest) => InfixTail(level, e, rest, ok)
      case NotFound(rest) => NotFound(rest)
      case Errored => Errored
  }

  /** The operators of one rung after a first operand, taken from the left. */
  function InfixTail(level: nat, lhs: Expr, ts: seq<Token>, ok: int): (r: Parsed<Expr>)
    requires level >= 2
    ensures Shrinks(r, ts, 0) && !r.NotFound?
    decreases |ts|, 0, 0
  {
    match HeadOperator(ts, level)
    case None => Found(lhs, ts)
    case Some(op) =>
      match Ladder(level - 1, ts[1..], ok)
      case Found(e, rest) => InfixTail(level, Binary(lhs, op, e), rest, ok)
      case NotFound(_) => Errored
      case Errored => Errored
  }

  function Allocation(ts: seq<Token>, ok: int): (r: Parsed<Expr>)
    ensures Shrinks(r, ts, 1) && Clean(r, ts)
    decreases |ts|, 17, 0
  {
    var isNew := HeadIs(ts, New);
    match Ladder(TOP, if isNew then ts[1..] else ts, ok)
    case Found(e, rest) => Found(if isNew then NewExpr(e) else e, rest)
    case NotFound(_) => NotFound(ts)
    case Errored => Errored
  }

  /** The values between a range's brackets after the first: at most `left` more. */
  function RangeTail(vals: seq<Expr>, left: nat, ts: seq<Token>, ok: int): (r: Parsed<seq<Expr>>)
    ensures Shrinks(r, ts, 0) && !r.NotFound?
    ensures r.Found? ==> |vals| <= |r.value| <= |vals| + left
    decreases |ts|, 0, left
  {
    if left == 0 then Found(vals, ts)
    else if !HeadIs(ts, Comma) then RangeTail(vals, left - 1, ts, ok)
    else match ParseExpression(ts[1..], ok)
      case Found(e, rest) => RangeTail(vals + [e], left - 1, rest, ok)
      case NotFound(_) => Errored
      case Errored => Errored
  }

  function RangeOf(vals: seq<Expr>): Expr
    requires 1 <= |vals| <= 3
  {
    if |vals| == 1 then RangeExpr(IntegerTerminal(0), vals[0], IntegerTerminal(1))
    else if |vals| == 2 then RangeExpr(vals[0], vals[1], IntegerTerminal(1))
    else RangeExpr(vals[0], vals[1], vals[2])
  }

  function RangeExpression(ts: seq<Token>, ok: int): (r: Parsed<Expr>)
    requires HeadIs(ts, Range)
    ensures Shrinks(r, ts, 1) && !r.NotFound?
    decreases |ts|, 17, 0
  {
    if !HeadIs(ts[1..], OpenCurved) then Errored
    else match ParseExpression(ts[2..], ok)
      case NotFound(_) => Errored
      case Errored => Errored
      case Found(e, rest) =>
        match RangeTail([e], 2, rest, ok)
        case Found(vals, after) => if HeadIs(after, CloseCurved) then Found(RangeOf(vals), after[1..]) else Errored
        case NotFound(_) => Errored
        case Errored => Errored
  }

  /** `drain(...)` and `receive(...)`. */
  function ReceiveExpression(ts: seq<Token>, ok: int): (r: Parsed<Expr>)
    requires HeadIs(ts, Drain) || HeadIs(ts, Receive)
    ensures Shrinks(r, ts, 1) && Clean(r, ts)
    decreases |ts|, 17, 0
  {
    if !HeadIs(ts[1..], OpenCurved) then Errored
    else match Allocation(ts[2..], ok)
      case Found(e, rest) =>
        if HeadIs(rest, CloseCurved) then Found(ReceiveWorker(e, ts[0] == Drain), rest[1..]) else Errored
      case NotFound(_) => NotFound(ts)
      case Errored => Errored
  }

  function Prefixed(ts: seq<Token>, ok: int): (r: Parsed<Expr>)
    ensures Shrinks(r, ts, 1) && Clean(r, ts)
    decreases |ts|, 18, 0
  {
    if HeadIs(ts, Range) then RangeExpression(ts, ok)
    else if HeadIs(ts, Multiply) then
      match Allocation(ts[1..], ok)
      case Found(e, rest) => Found(Dereference(e), rest)
      case NotFound(_) => NotFound(ts)
      case Errored => Errored
    else if HeadIs(ts, Drain) || HeadIs(ts, Receive) then ReceiveExpression(ts, ok)
    else if HeadIs(ts, Cpu) || HeadIs(ts, Gpu) then
      match ParseExpression(ts[1..], ok)
      case Found(e, rest) => Found(CreateWorker(e, ts[0] == Gpu), rest)
      case NotFound(_) => NotFound(ts)
      case Errored => Errored
    else Allocation(ts, ok)
  }

  /** An expression; inside one, struct literals are one step less restricted. */
  function ParseExpression(ts: seq<Token>, ok: int): (r: Parsed<Expr>)
    ensures Shrinks(r, ts, 1) && Clean(r, ts)
    decreases |ts|, 19, 0
  {
    Prefixed(ts, ok + 1)
  }
}
