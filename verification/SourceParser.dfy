/**
  The recursive-descent parser: saved frames over a token list.  Each production does what the
  grammar function of the same name says, leaves the frames below its own and the struct
  literal and break counters as they were, and stops at the first error logged.
*/
module SourceParser {
  import opened Wrappers
  import opened Grammar
  import opened StatementGrammar

  /** Same token type, whatever the value. */
  predicate SameType(t: Token, u: Token) {
    match t
    case Integer(_) => u.Integer?
    case Identifier(_) => u.Identifier?
    case OtherToken(text) => u == t
    case _ => u == t
  }

  /** What follows the head when it has the wanted type. */
  predicate HeadLike(ts: seq<Token>, like: Token) {
    ts != [] && SameType(like, ts[0])
  }

  class Parser {
    const tokens: seq<Token>
    var frames: seq<nat>
    var structLiteralOk: int
    var breakOk: nat
    var failed: bool

    constructor (tokens: seq<Token>)
      ensures this.tokens == tokens && Ready() && Rest() == tokens
      ensures frames == [0] && structLiteralOk == 0 && breakOk == 0
    {
      this.tokens := tokens;
      frames := [0];
      structLiteralOk := 0;
      breakOk := 0;
      failed := false;
    }

    ghost predicate Valid()
      reads this`frames
    {
      frames != [] && forall i :: 0 <= i < |frames| ==> frames[i] <= |tokens|
    }

    /** No error has been logged. */
    ghost predicate Ready()
      reads this
    {
      Valid() && !failed
    }

    /** The tokens from the current position on. */
    ghost function Rest(): seq<Token>
      requires Valid()
      reads this`frames
    {
      TokensAt(frames)
    }

    /** The saved frames. */
    ghost function Below(): seq<nat>
      requires Valid()
      reads this`frames
    {
      Popped(frames)
    }

    /** The tokens from the last of the positions on. */
    ghost function TokensAt(positions: seq<nat>): seq<Token> {
      if positions != [] && positions[|positions| - 1] <= |tokens| then tokens[positions[|positions| - 1]..] else []
    }

    static ghost function Popped(positions: seq<nat>): seq<nat> {
      if positions != [] then positions[..|positions| - 1] else []
    }

    /** At most the position changed. */
    twostate predicate Kept()
      requires old(Valid())
      reads this
    {
      Ready() && Below() == old(Below()) && structLiteralOk == old(structLiteralOk) && breakOk == old(breakOk)
    }

    /** The position moved to `rest`; nothing else changed. */
    twostate predicate MovedTo(rest: seq<Token>)
      requires old(Valid())
      reads this
    {
      Kept() && Rest() == rest
    }

    /** The production did what `r` says. */
    twostate predicate Did<T>(new r: Parsed<T>, new value: Option<T>)
      requires old(Valid())
      reads this
    {
      match r
      case Found(v, rest) => MovedTo(rest) && value == Some(v)
      case NotFound(rest) => MovedTo(rest) && value == None
      case Errored => failed
    }

    /** As `Did`, for a production inside a saved frame that it commits to or forgets. */
    twostate predicate DidAndClosed<T>(new r: Parsed<T>, new value: Option<T>)
      requires old(Valid())
      reads this
    {
      match r
      case Found(v, rest) => ClosedAt(rest) && value == Some(v)
      case NotFound(rest) => ClosedAt(rest) && value == None
      case Errored => failed
    }

    twostate predicate ClosedAt(rest: seq<Token>)
      requires old(Valid())
      reads this
    {
      Ready() && Below() == Popped(old(Below())) && structLiteralOk == old(structLiteralOk) &&
          breakOk == old(breakOk) && Rest() == rest
    }

    // -------------------------------------------------------------- frames

    method LogError()
      modifies this`failed
      ensures failed
    {
      failed := true;
    }

    method Save()
      requires Ready()
      modifies this`frames
      ensures Ready() && Rest() == old(Rest())
      ensures Below() == old(frames) && Below() != []
      ensures TokensAt(Below()) == old(Rest()) && Popped(Below()) == old(Below())
    {
      frames := frames + [frames[|frames| - 1]];
    }

    /** Commits to what was read since the last save. */
    method Accept()
      requires Ready() && Below() != []
      modifies this`frames
      ensures Ready() && Rest() == old(Rest()) && Below() == Popped(old(Below()))
    {
      frames := frames[|frames| - 2 := frames[|frames| - 1]];
      frames := frames[..|frames| - 1];
    }

    /** Forgets what was read since the last save. */
    method Reject()
      requires Ready() && Below() != []
      modifies this`frames
      ensures Ready() && Rest() == TokensAt(old(Below())) && Below() == Popped(old(Below()))
      ensures frames == old(Below())
    {
      frames := frames[..|frames| - 1];
    }

    method GetToken() returns (t: Option<Token>)
      requires Ready()
      modifies this`frames
      ensures if old(Rest()) == [] then t == None && MovedTo([])
              else t == Some(old(Rest())[0]) && MovedTo(old(Rest())[1..])
    {
      var top := |frames| - 1;
      if frames[top] >= |tokens| {
        return None;
      }
      t := Some(tokens[frames[top]]);
      frames := frames[top := frames[top] + 1];
    }

    /** Reads one token of the wanted type, or nothing. */
    method TryToken(like: Token) returns (t: Option<Token>)
      requires Ready()
      modifies this`frames
      ensures if HeadLike(old(Rest()), like) then t == Some(old(Rest())[0]) && MovedTo(old(Rest())[1..])
              else t == None && MovedTo(old(Rest()))
    {
      Save();
      t := GetToken();
      if t == None {
        Reject();
        return None;
      }
      if SameType(like, t.value) {
        Accept();
        return t;
      }
      Reject();
      t := None;
    }

    method EatSemicolons()
      requires Ready()
      modifies this`frames
      ensures MovedTo(SkipSemicolons(old(Rest())))
    {
      hide TokensAt, Popped;
      while true
        invariant Ready() && Below() == old(Below())
        invariant SkipSemicolons(Rest()) == SkipSemicolons(old(Rest()))
        decreases |Rest()|
      {
        Save();
        var t := TryToken(Semicolon);
        if t == None {
          Reject();
          return;
        }
        Accept();
      }
    }

    /** Reads a token that has to be there. */
    method Require(like: Token)
      requires Ready()
      modifies this
      ensures if HeadLike(old(Rest()), like) then MovedTo(old(Rest())[1..]) else failed
    {
      hide Rest, Below, TokensAt, Popped, Valid;
      var t := TryToken(like);
      if t == None {
        LogError();
      }
    }

    /** Tries each of the tokens in turn. */
    method TryAny(likes: seq<Token>) returns (t: Option<Token>)
      requires Ready()
      requires forall like :: like in likes ==> !like.Integer? && !like.Identifier?
      modifies this`frames
      ensures if old(Rest()) != [] && old(Rest())[0] in likes
              then t == Some(old(Rest())[0]) && MovedTo(old(Rest())[1..])
              else t == None && MovedTo(old(Rest()))
    {
      hide Rest, Below, TokensAt, Popped, Valid;
      for i := 0 to |likes|
        invariant MovedTo(old(Rest()))
        invariant old(Rest()) == [] || old(Rest())[0] !in likes[..i]
      {
        t := TryToken(likes[i]);
        if t.Some? {
          return;
        }
      }
      t := None;
    }

    // -------------------------------------------------------------- productions

    method LiteralValueExpression() returns (e: Option<Expr>)
      requires Ready()
      modifies this
      ensures Did(Literal(old(Rest()), old(structLiteralOk)), e)
      decreases |Rest()|, 0
    {
      hide Rest, Below, TokensAt, Popped, Valid;
      var t := TryToken(Integer(0));
      if t.Some? {
        return Some(IntegerTerminal(t.value.value));
      }
      t := TryToken(True);
      if t.Some? {
        return Some(BooleanTerminal(true));
      }
      t := TryToken(False);
      if t.Some? {
        return Some(BooleanTerminal(false));
      }
      t := TryToken(Identifier(""));
      if t.Some? {
        var name := t.value.name;
        if structLiteralOk < 0 {
          return Some(IdentifierTerminal(name));
        }
        var pairs := StructLiteralBody();
        if failed {
          return None;
        }
        return Some(if pairs.Some? then StructLiteral(name, pairs.value) else IdentifierTerminal(name));
      }
      e := None;
    }

    method StructLiteralBody() returns (r: Option<seq<Pair>>)
      requires Ready()
      modifies this
      ensures Did(Grammar.StructLiteralBody(old(Rest()), old(structLiteralOk)), r)
      decreases |Rest()|, 0
    {
      hide Rest, Below, TokensAt, Popped, Valid;
      hide StructPairs;
      var t := TryToken(OpenCurly);
      if t == None {
        return None;
      }
      r := Some([]);
      var firstPass, more := true, true;
      ghost var ts, ok := Rest(), structLiteralOk;
      while more
        invariant Kept() && structLiteralOk == ok && |Rest()| < old(|Rest()|) && r.Some?
        invariant if more then StructPairs(Rest(), r.value, firstPass, ok) == StructPairs(ts, [], true, ok)
                  else Came(StructPairs(ts, [], true, ok), r)
        decreases more, |Rest()|, firstPass
      {
        r, more := StructLiteralTurn(r.value, firstPass);
        if failed {
          return None;
        }
        firstPass := false;
      }
    }

    /** One turn of the loop over a struct literal's pairs; `more` until its closing brace. */
    method StructLiteralTurn(pairs: seq<Pair>, firstPass: bool) returns (r: Option<seq<Pair>>, more: bool)
      requires Ready()
      modifies this
      ensures failed ==> StructPairs(old(Rest()), pairs, firstPass, old(structLiteralOk)) == Errored
      ensures !failed ==> Kept() && r.Some? && |Rest()| <= old(|Rest()|)
      ensures !failed && !more ==> Came(StructPairs(old(Rest()), pairs, firstPass, old(structLiteralOk)), r)
      ensures !failed && more ==> firstPass || |Rest()| < old(|Rest()|)
      ensures !failed && more ==>
        StructPairs(Rest(), r.value, false, structLiteralOk)
        == StructPairs(old(Rest()), pairs, firstPass, old(structLiteralOk))
      decreases |Rest()|, 2
    {
      hide Rest, Below, TokensAt, Popped, Valid;
      hide StructPairs, Grammar.LiteralPair, SkipSemicolons;
      PairsTurn(Rest(), pairs, firstPass, structLiteralOk);
      EatSemicolons();
      var t := TryToken(CloseCurly);
      if t.Some? {
        return Some(pairs), false;
      }
      BeforePair(pairs != [], firstPass);
      if failed {
        return None, false;
      }
      var pair := LiteralPair();
      if failed {
        return None, false;
      }
      r, more := Some(if pair.Some? then pairs + [pair.value] else pairs), true;
    }

    /** The comma before a pair, except before the first one. */
    method BeforePair(hasPairs: bool, firstPass: bool)
      requires Ready() && SkipSemicolons(Rest()) == Rest()
      modifies this
      ensures if hasPairs && HeadIs(old(Rest()), Comma) then MovedTo(SkipSemicolons(old(Rest())[1..]))
              else if !hasPairs && firstPass then MovedTo(old(Rest()))
              else failed
      decreases |Rest()|, 0
    {
      hide Rest, Below, TokensAt, Popped, Valid;
      if hasPairs {
        EatSemicolons();
        var t := TryToken(Comma);
        if t == None {
          LogError();
          return;
        }
      } else if !firstPass {
        LogError();
        return;
      }
      EatSemicolons();
    }

    method LiteralPair() returns (r: Option<Pair>)
      requires Ready()
      modifies this
      ensures Did(Grammar.LiteralPair(old(Rest()), old(structLiteralOk)), r)
      decreases |Rest()|, 1
    {
      hide Rest, Below, TokensAt, Popped, Valid;
      hide ParseExpression;
      var ident := TryToken(Identifier(""));
      if ident == None {
        return None;
      }
      var t := TryToken(Colon);
      if t == None {
        LogError();
        return None;
      }
      var e := Expression();
      if e == None {
        LogError();
      }
      if failed {
        return None;
      }
      r := Some(Pair(ident.value.name, e.value));
    }

    method PrimaryExpression() returns (e: Option<Expr>)
      requires Ready()
      modifies this
      ensures Did(Primary(old(Rest()), old(structLiteralOk)), e)
      decreases |Rest()|, 1
    {
      hide Rest, Below, TokensAt, Popped, Valid;
      hide ParseExpression;
      var t := TryToken(OpenCurved);
      if t.Some? {
        e := Expression();
        if e == None {
          LogError();
        }
        if failed {
          return None;
        }
        t := TryToken(CloseCurved);
        if t == None {
          LogError();
          return None;
        }
        return e;
      }
      e := LiteralValueExpression();
    }

    /** Expressions separated by commas; an empty list is a list. */
    method ExpressionList() returns (r: Option<seq<Expr>>)
      requires Ready()
      modifies this
      ensures Did(Grammar.ExpressionList(old(Rest()), old(structLiteralOk)), r)
      decreases |Rest()|, 21
    {
      hide Rest, Below, TokensAt, Popped, Valid;
      hide ParseExpression;
      var e := Expression();
      if failed {
        return None;
      }
      if e == None {
        return Some([]);
      }
      var el := [e.value];
      ghost var ts := Rest();
      ghost var ok := structLiteralOk;
      while true
        invariant Kept() && structLiteralOk == ok
        invariant |Rest()| < old(|Rest()|)
        invariant ListTail(el, Rest(), ok) == ListTail([e.value], ts, ok)
        decreases |Rest()|
      {
        var t := TryToken(Comma);
        if t == None {
          return Some(el);
        }
        var next := Expression();
        if next == None {
          LogError();
        }
        if failed {
          return None;
        }
        el := el + [next.value];
      }
    }

    method PostfixExpression() returns (e: Option<Expr>)
      requires Ready()
      modifies this
      ensures Did(Postfix(old(Rest()), old(structLiteralOk)), e)
      decreases |Rest()|, 2
    {
      hide Rest, Below, TokensAt, Popped, Valid;
      e := PrimaryExpression();
      if failed || e == None {
        return None;
      }
      hide PostfixTail;
      ghost var pe, ts, ok := e.value, Rest(), structLiteralOk;
      var more := true;
      while more
        invariant Kept() && structLiteralOk == ok && |Rest()| < old(|Rest()|)
        invariant if more then e.Some? && PostfixTail(e.value, Rest(), ok) == PostfixTail(pe, ts, ok)
                  else Came(PostfixTail(pe, ts, ok), e)
        decreases |Rest()|, more
      {
        e, more := Suffix(e.value);
        if failed {
          return None;
        }
      }
    }

    /** The production ended here with what `r` says. */
    ghost predicate Came<T>(r: Parsed<T>, value: Option<T>)
      requires Ready()
      reads this
    {
      match r
      case Found(v, rest) => Rest() == rest && value == Some(v)
      case NotFound(rest) => Rest() == rest && value == None
      case Errored => false
    }

    /** One turn of the loop over suffixes; `more` when there was one. */
    method Suffix(pe: Expr) returns (e: Option<Expr>, more: bool)
      requires Ready()
      modifies this
      ensures failed ==> PostfixTail(pe, old(Rest()), old(structLiteralOk)) == Errored
      ensures !failed ==> Kept()
      ensures !failed && !more ==> |Rest()| <= old(|Rest()|)
      ensures !failed && !more ==> Came(PostfixTail(pe, old(Rest()), old(structLiteralOk)), e)
      ensures !failed && more ==> |Rest()| < old(|Rest()|) && e.Some?
      ensures !failed && more ==>
        PostfixTail(e.value, Rest(), structLiteralOk) == PostfixTail(pe, old(Rest()), old(structLiteralOk))
      decreases |Rest()|, 1
    {
      hide Rest, Below, TokensAt, Popped, Valid;
      hide PostfixTail, ParseExpression, Grammar.ExpressionList;
      PostfixTurn(pe, Rest(), structLiteralOk);
      var t := TryAny([OpenCurved, OpenSquare, Dot]);
      match t {
        case Some(OpenCurved) =>
          var el := CallArguments();
          if failed {
            return None, false;
          }
          return Some(Call(pe, el.value)), true;
        case Some(OpenSquare) =>
          var i := IndexArgument();
          if failed || i == None {
            return None, false;
          }
          return Some(Index(pe, i.value)), true;
        case Some(Dot) =>
          t := TryToken(Identifier(""));
          if t == None {
            LogError();
            return None, false;
          }
          return Some(Access(pe, t.value.name)), true;
        case _ =>
          return Some(pe), false;
      }
    }

    /** What follows the opening bracket of a call. */
    method CallArguments() returns (el: Option<seq<Expr>>)
      requires Ready()
      modifies this
      ensures var r := Grammar.ExpressionList(old(Rest()), old(structLiteralOk));
              if r.Found? && HeadIs(r.rest, CloseCurved) then MovedTo(r.rest[1..]) && el == Some(r.value) else failed
      decreases |Rest()|, 23
    {
      hide Rest, Below, TokensAt, Popped, Valid;
      el := ExpressionList();
      if failed {
        return None;
      }
      var t := TryToken(CloseCurved);
      if t == None {
        LogError();
        return None;
      }
    }

    /** What follows the opening bracket of an index. */
    method IndexArgument() returns (i: Option<Expr>)
      requires Ready()
      modifies this
      ensures var r := ParseExpression(old(Rest()), old(structLiteralOk));
              if r.NotFound? then MovedTo(r.rest) && i == None
              else if r.Found? && HeadIs(r.rest, CloseSquare) then MovedTo(r.rest[1..]) && i == Some(r.value)
              else failed
      decreases |Rest()|, 23
    {
      hide Rest, Below, TokensAt, Popped, Valid;
      i := Expression();
      if failed || i == None {
        return None;
      }
      var t := TryToken(CloseSquare);
      if t == None {
        LogError();
        return None;
      }
    }

    method UnaryExpression() returns (e: Option<Expr>)
      requires Ready()
      modifies this
      ensures Did(Grammar.UnaryExpression(old(Rest()), old(structLiteralOk)), e)
      decreases |Rest()|, 3
    {
      hide Rest, Below, TokensAt, Popped, Valid;
      hide Postfix;
      var t := TryAny([UnaryToken(OpNot), UnaryToken(OpNegate)]);
      e := PostfixExpression();
      if t.Some? {
        if e == None {
          LogError();
        }
        if failed {
          return None;
        }
        e := Some(Unary(if t.value == Not then OpNot else OpNegate, e.value));
      }
    }

    /** One rung: the next lower rung, then its operators from left to right. */
    method BinaryInfixExpression(level: nat) returns (e: Option<Expr>)
      requires 2 <= level
      requires Ready()
      modifies this
      ensures Did(Ladder(level, old(Rest()), old(structLiteralOk)), e)
      decreases |Rest()|, 3 + 2 * level
    {
      hide Rest, Below, TokensAt, Popped, Valid;
      e := Next(level);
      if failed || e == None {
        return None;
      }
      var pe := e.value;
      ghost var ts := Rest();
      ghost var ok := structLiteralOk;
      while true
        invariant Kept() && structLiteralOk == ok
        invariant |Rest()| < old(|Rest()|)
        invariant InfixTail(level, pe, Rest(), ok) == InfixTail(level, e.value, ts, ok)
        decreases |Rest()|
      {
        var op := TryAny(Operators(level));
        if op == None {
          break;
        }
        var rhs := Next(level);
        if rhs == None {
          LogError();
        }
        if failed {
          return None;
        }
        pe := Binary(pe, OperatorOf(op.value).value, rhs.value);
      }
      e := Some(pe);
    }

    /** The operands of a rung. */
    method Next(level: nat) returns (e: Option<Expr>)
      requires 2 <= level
      requires Ready()
      modifies this
      ensures Did(Ladder(level - 1, old(Rest()), old(structLiteralOk)), e)
      decreases |Rest()|, 2 + 2 * level
    {
      hide Rest, Below, TokensAt, Popped, Valid;
      if level == 2 {
        e := UnaryExpression();
      } else {
        e := BinaryInfixExpression(level - 1);
      }
    }

    method AllocationExpression() returns (e: Option<Expr>)
      requires Ready()
      modifies this
      ensures Did(Allocation(old(Rest()), old(structLiteralOk)), e)
      decreases |Rest()|, 18
    {
      hide Rest, Below, TokensAt, Popped, Valid;
      Save();
      var isNew := TryToken(New);
      e := BinaryInfixExpression(TOP);
      if failed {
        return None;
      }
      if e == None {
        Reject();
        return None;
      }
      Accept();
      if isNew.Some? {
        e := Some(NewExpr(e.value));
      }
    }

    /** An expression; inside one, struct literals are one step less restricted. */
    method Expression() returns (e: Option<Expr>)
      requires Ready()
      modifies this
      ensures Did(ParseExpression(old(Rest()), old(structLiteralOk)), e)
      decreases |Rest()|, 20
    {
      hide Rest, Below, TokensAt, Popped, Valid;
      hide Prefixed;
      structLiteralOk := structLiteralOk + 1;
      e := PrefixedExpression();
      structLiteralOk := structLiteralOk - 1;
    }

    /** Reads an expression that has to be there. */
    method RequireExpression() returns (e: Option<Expr>)
      requires Ready()
      modifies this
      ensures var r := ParseExpression(old(Rest()), old(structLiteralOk));
              if r.Found? then MovedTo(r.rest) && e == Some(r.value) else failed
      decreases |Rest()|, 21
    {
      hide Rest, Below, TokensAt, Popped, Valid;
      hide ParseExpression;
      e := Expression();
      if e == None {
        LogError();
      }
    }

    method PrefixedExpression() returns (e: Option<Expr>)
      requires Ready()
      modifies this
      ensures Did(Prefixed(old(Rest()), old(structLiteralOk)), e)
      decreases |Rest()|, 19
    {
      hide Rest, Below, TokensAt, Popped, Valid;
      hide Prefixed, Allocation;
      PrefixedByHead(Rest(), structLiteralOk);
      Save();
      var t := TryAny([Range, Multiply, Drain, Receive, Cpu, Gpu]);
      match t {
        case Some(Range) =>
          Accept();
          e := RangeArguments();
          return;
        case Some(Multiply) =>
          e := DereferenceOperand();
          return;
        case Some(Drain) =>
          e := WorkerOperand(true);
          return;
        case Some(Receive) =>
          e := WorkerOperand(false);
          return;
        case Some(Cpu) =>
          e := CreateOperand(false);
          return;
        case Some(Gpu) =>
          e := CreateOperand(true);
          return;
        case _ =>
      }
      Reject();
      e := AllocationExpression();
    }

    /** One token, `t`, has been read since the last save. */
    ghost predicate JustRead(t: Token)
      reads this
    {
      Ready() && Below() != [] && HeadIs(TokensAt(Below()), t) && Rest() == TokensAt(Below())[1..]
    }

    /** What follows `range`. */
    method RangeArguments() returns (e: Option<Expr>)
      requires Ready()
      modifies this
      ensures Did(RangeExpression([Range] + old(Rest()), old(structLiteralOk)), e)
      decreases |Rest()|, 20
    {
      hide Rest, Below, TokensAt, Popped, Valid;
      hide RangeExpression, ParseExpression, RangeTail;
      ghost var ok := structLiteralOk;
      RangeByHead(Rest(), ok);
      var t := TryToken(OpenCurved);
      if t == None {
        LogError();
        return None;
      }
      e := Expression();
      if e == None {
        LogError();
      }
      if failed {
        return None;
      }
      var vals := MoreRangeValues(e.value);
      if failed {
        return None;
      }
      var close := TryToken(CloseCurved);
      if close == None {
        LogError();
        return None;
      }
      e := Some(RangeOf(vals.value));
    }

    /** Up to two more values of a range, each after a comma. */
    method MoreRangeValues(first: Expr) returns (r: Option<seq<Expr>>)
      requires Ready()
      modifies this
      ensures Did(RangeTail([first], 2, old(Rest()), old(structLiteralOk)), r)
      decreases |Rest()|, 22
    {
      hide Rest, Below, TokensAt, Popped, Valid;
      hide ParseExpression, RangeTail;
      var vals := [first];
      ghost var ts, ok := Rest(), structLiteralOk;
      for i := 0 to 2
        invariant Kept() && structLiteralOk == ok
        invariant |Rest()| <= old(|Rest()|)
        invariant RangeTail(vals, 2 - i, Rest(), ok) == RangeTail([first], 2, ts, ok)
      {
        RangeTurn(vals, 2 - i, Rest(), ok);
        var t := TryToken(Comma);
        if t.Some? {
          var next := Expression();
          if next == None {
            LogError();
          }
          if failed {
            return None;
          }
          vals := vals + [next.value];
        }
      }
      RangeEnds(vals, Rest(), ok);
      r := Some(vals);
    }

    /** What follows `*`, in the frame saved before it. */
    method DereferenceOperand() returns (e: Option<Expr>)
      requires JustRead(Multiply)
      modifies this
      ensures DidAndClosed(Prefixed(old(TokensAt(Below())), old(structLiteralOk)), e)
      decreases |Rest()|, 20
    {
      hide Rest, Below, TokensAt, Popped, Valid;
      hide Allocation;
      e := AllocationExpression();
      if failed {
        return None;
      }
      if e == None {
        Reject();
        return None;
      }
      Accept();
      e := Some(Dereference(e.value));
    }

    /** What follows `cpu` or `gpu`, in the frame saved before it. */
    method CreateOperand(gpu: bool) returns (e: Option<Expr>)
      requires JustRead(if gpu then Gpu else Cpu)
      modifies this
      ensures DidAndClosed(Prefixed(old(TokensAt(Below())), old(structLiteralOk)), e)
      decreases |Rest()|, 21
    {
      hide Rest, Below, TokensAt, Popped, Valid;
      hide ParseExpression, Prefixed;
      CreateByHead(TokensAt(Below()), gpu, structLiteralOk);
      e := Expression();
      if failed {
        return None;
      }
      if e == None {
        Reject();
        return None;
      }
      Accept();
      e := Some(CreateWorker(e.value, gpu));
    }

    /** What follows `drain` or `receive`, in the frame saved before it. */
    method WorkerOperand(all: bool) returns (e: Option<Expr>)
      requires JustRead(if all then Drain else Receive)
      modifies this
      ensures DidAndClosed(Prefixed(old(TokensAt(Below())), old(structLiteralOk)), e)
      decreases |Rest()|, 20
    {
      hide Rest, Below, TokensAt, Popped, Valid;
      hide Prefixed, Allocation;
      ReceiveByHead(TokensAt(Below()), all, structLiteralOk);
      var t := TryToken(OpenCurved);
      if t == None {
        LogError();
        return None;
      }
      e := AllocationExpression();
      if failed {
        return None;
      }
      if e == None {
        Reject();
        return None;
      }
      Accept();
      t := TryToken(CloseCurved);
      if t == None {
        LogError();
        return None;
      }
      e := Some(ReceiveWorker(e.value, all));
    }

    // -------------------------------------------------------------- what can be assigned

    /** A name, and the field after it if any. */
    method AccessLValue() returns (name: Option<string>, field: Option<string>)
      requires Ready()
      modifies this
      ensures var ts := old(Rest());
              if ts == [] || !ts[0].Identifier? then MovedTo(ts) && name == None
              else if !HeadIs(ts[1..], Dot) then MovedTo(ts[1..]) && name == Some(ts[0].name) && field == None
              else if HeadLike(ts[1..][1..], Identifier("")) then
                MovedTo(ts[1..][1..][1..]) && name == Some(ts[0].name) && field == Some(ts[1..][1..][0].name)
              else failed
    {
      hide Rest, Below, TokensAt, Popped, Valid;
      field := None;
      var ident := TryToken(Identifier(""));
      if ident == None {
        return None, None;
      }
      name := Some(ident.value.name);
      var t := TryToken(Dot);
      if t.Some? {
        t := TryToken(Identifier(""));
        if t == None {
          LogError();
          return;
        }
        field := Some(t.value.name);
      }
    }

    method IndexingLValue(deref: bool) returns (r: Option<LValue>)
      requires Ready()
      modifies this
      ensures Did(StatementGrammar.IndexingLValue(deref, old(Rest()), old(structLiteralOk)), r)
    {
      hide Rest, Below, TokensAt, Popped, Valid;
      hide Indices, ParseExpression;
      ghost var start, ok := Rest(), structLiteralOk;
      IndexingByHead(deref, start, ok);
      var name, field := AccessLValue();
      if failed || name == None {
        return None;
      }
      var indices: seq<Expr> := [];
      ghost var ts := Rest();
      while true
        invariant Kept() && structLiteralOk == ok
        invariant Indices(indices, Rest(), ok) == Indices([], ts, ok)
        decreases |Rest()|
      {
        IndicesTurn(indices, Rest(), ok);
        var t := TryToken(OpenSquare);
        if t == None {
          break;
        }
        var i := IndexArgument();
        if failed || i == None {
          LogError();
          return None;
        }
        indices := indices + [i.value];
      }
      r := Some(StatementGrammar.LValue.LValue(deref, name.value, field, indices));
    }

    method DereferenceLValue() returns (r: Option<LValue>)
      requires Ready()
      modifies this
      ensures Did(StatementGrammar.DereferenceLValue(old(Rest()), old(structLiteralOk)), r)
    {
      hide Rest, Below, TokensAt, Popped, Valid;
      hide StatementGrammar.IndexingLValue;
      Save();
      var star := TryToken(Multiply);
      r := IndexingLValue(star.Some?);
      if failed {
        return None;
      }
      if r == None {
        Reject();
        return None;
      }
      Accept();
    }

    /** One assignable thing, or several with commas between them. */
    method LValue() returns (r: Option<seq<LValue>>)
      requires Ready()
      modifies this
      ensures Did(LValues(old(Rest()), old(structLiteralOk)), r)
    {
      hide Rest, Below, TokensAt, Popped, Valid;
      hide StatementGrammar.DereferenceLValue;
      var lv := DereferenceLValue();
      if failed || lv == None {
        return None;
      }
      var lvalues := [lv.value];
      ghost var ts, ok := Rest(), structLiteralOk;
      while true
        invariant Kept() && structLiteralOk == ok
        invariant LValueTail(lvalues, Rest(), ok) == LValueTail([lv.value], ts, ok)
        decreases |Rest()|
      {
        var t := TryToken(Comma);
        if t == None {
          return Some(lvalues);
        }
        var next := DereferenceLValue();
        if next == None {
          LogError();
        }
        if failed {
          return None;
        }
        lvalues := lvalues + [next.value];
      }
    }

    // -------------------------------------------------------------- statements

    /** One or more expressions. */
    method TupleExpression() returns (r: Option<seq<Expr>>)
      requires Ready()
      modifies this
      ensures Did(Tuple(old(Rest()), old(structLiteralOk)), r)
    {
      hide Rest, Below, TokensAt, Popped, Valid;
      hide ParseExpression;
      var e := Expression();
      if failed || e == None {
        return None;
      }
      var es := [e.value];
      ghost var ts, ok := Rest(), structLiteralOk;
      while true
        invariant Kept() && structLiteralOk == ok
        invariant ListTail(es, Rest(), ok) == ListTail([e.value], ts, ok)
        decreases |Rest()|
      {
        var t := TryToken(Comma);
        if t == None {
          return Some(es);
        }
        var next := Expression();
        if next == None {
          LogError();
        }
        if failed {
          return None;
        }
        es := es + [next.value];
      }
    }

    method ModifyOperator() returns (op: Option<ModifyOperator>)
      requires Ready()
      modifies this`frames
      ensures op == ModifyOperatorOf(old(Rest()))
      ensures MovedTo(if op.Some? then old(Rest())[1..] else old(Rest()))
    {
      hide Rest, Below, TokensAt, Popped, Valid;
      var t := TryAny([PlusEquals, MinusEquals, TimesEquals, DivideEquals]);
      op := match t
        case Some(PlusEquals) => Some(ModifyPlus)
        case Some(MinusEquals) => Some(ModifyMinus)
        case Some(TimesEquals) => Some(ModifyTimes)
        case Some(DivideEquals) => Some(ModifyDivide)
        case _ => None;
    }

    method ModifyInPlaceStatement() returns (r: Option<Stmt>)
      requires Ready()
      modifies this
      ensures Did(ModifyInPlace(old(Rest()), old(structLiteralOk)), r)
    {
      hide Rest, Below, TokensAt, Popped, Valid;
      hide LValues, ParseExpression, ModifyOperatorOf;
      Save();
      var lv := LValue();
      if failed {
        return None;
      }
      if lv == None {
        Reject();
        return None;
      }
      var op := ModifyOperator();
      if op == None {
        Reject();
        return None;
      }
      Accept();
      var e := Expression();
      if e == None {
        LogError();
      }
      if failed {
        return None;
      }
      r := Some(Stmt.ModifyInPlaceStatement(lv.value, op.value, e.value));
    }

    method AssignStatement() returns (r: Option<Stmt>)
      requires Ready()
      modifies this
      ensures Did(Assign(old(Rest()), old(structLiteralOk)), r)
    {
      hide Rest, Below, TokensAt, Popped, Valid;
      hide LValues, Tuple;
      Save();
      var lv := LValue();
      if failed {
        return None;
      }
      if lv == None {
        Reject();
        return None;
      }
      var t := TryToken(Equals);
      if t == None {
        Reject();
        return None;
      }
      var rhs := TupleExpression();
      if failed {
        return None;
      }
      if rhs == None {
        Reject();
        LogError();
        return None;
      }
      Accept();
      r := Some(Stmt.AssignStatement(AssignNormal, lv.value, rhs.value));
    }

    /** `let` or `const`. */
    method LetLikeStatement(kind: AssignType) returns (r: Option<Stmt>)
      requires Ready()
      requires kind != AssignNormal
      modifies this
      ensures if HeadIs(old(Rest()), if kind == AssignLet then Let else Const)
              then Did(LetLike(kind, old(Rest()), old(structLiteralOk)), r)
              else MovedTo(old(Rest())) && r == None
    {
      hide Rest, Below, TokensAt, Popped, Valid;
      hide LetLike, LValues, ParseExpression;
      LetLikeByHead(kind, Rest(), structLiteralOk);
      var t := TryToken(if kind == AssignLet then Let else Const);
      if t == None {
        return None;
      }
      var lv := LValue();
      if lv == None {
        LogError();
      }
      if failed {
        return None;
      }
      Require(Equals);
      if failed {
        return None;
      }
      var e := RequireExpression();
      if failed {
        return None;
      }
      r := Some(Stmt.AssignStatement(kind, lv.value, [e.value]));
    }

    method SendStatement() returns (r: Option<Stmt>)
      requires Ready()
      modifies this
      ensures if HeadIs(old(Rest()), Send) then Did(SendTo(old(Rest()), old(structLiteralOk)), r)
              else MovedTo(old(Rest())) && r == None
    {
      hide Rest, Below, TokensAt, Popped, Valid;
      hide SendTo, ParseExpression;
      SendByHead(Rest(), structLiteralOk);
      var t := TryToken(Send);
      if t == None {
        return None;
      }
      Require(OpenCurved);
      if failed {
        return None;
      }
      var pipe := RequireExpression();
      if failed {
        return None;
      }
      var value := SentValue();
      if failed {
        return None;
      }
      r := Some(Stmt.SendStatement(pipe.value, value.value));
    }

    /** The comma, the value sent and the closing bracket. */
    method SentValue() returns (value: Option<Expr>)
      requires Ready()
      modifies this
      ensures !HeadIs(old(Rest()), Comma) ==> failed
      ensures HeadIs(old(Rest()), Comma) ==>
        var r := ParseExpression(old(Rest())[1..], old(structLiteralOk));
        if r.Found? && HeadIs(r.rest, CloseCurved) then MovedTo(r.rest[1..]) && value == Some(r.value) else failed
    {
      hide Rest, Below, TokensAt, Popped, Valid;
      hide ParseExpression;
      Require(Comma);
      if failed {
        return None;
      }
      value := RequireExpression();
      if failed {
        return None;
      }
      Require(CloseCurved);
    }

    method ReturnStatement() returns (r: Option<Stmt>)
      requires Ready()
      modifies this
      ensures if HeadIs(old(Rest()), Return) then Did(ReturnValue(old(Rest()), old(structLiteralOk)), r)
              else MovedTo(old(Rest())) && r == None
    {
      hide Rest, Below, TokensAt, Popped, Valid;
      hide Tuple;
      var t := TryToken(Return);
      if t == None {
        return None;
      }
      Save();
      var es := TupleExpression();
      if failed {
        return None;
      }
      if es == None {
        Reject();
        return Some(Stmt.ReturnStatement([]));
      }
      Accept();
      r := Some(Stmt.ReturnStatement(es.value));
    }

    method BreakStatement() returns (r: Option<Stmt>)
      requires Ready()
      modifies this
      ensures if !HeadIs(old(Rest()), Break) then MovedTo(old(Rest())) && r == None
              else if old(breakOk) == 0 then failed
              else MovedTo(old(Rest())[1..]) && r == Some(Stmt.BreakStatement)
    {
      hide Rest, Below, TokensAt, Popped, Valid;
      var t := TryToken(Break);
      if t == None {
        return None;
      }
      if breakOk == 0 {
        LogError();
        return None;
      }
      r := Some(Stmt.BreakStatement);
    }

    /** A condition or the like, with the counter lowered by `lower` while it is read, then a block with
        `deeper` more loops around it. */
    method ConditionAndBlock(lower: nat, deeper: nat) returns (r: Option<Segment>)
      requires Ready()
      modifies this
      ensures Did(StatementGrammar.ConditionAndBlock(old(Rest()), old(structLiteralOk) - lower, old(structLiteralOk),
                                                     old(breakOk) + deeper), r)
      decreases |Rest()|, 2
    {
      hide Rest, Below, TokensAt, Popped, Valid;
      hide ParseExpression, StatementGrammar.StatementBlock;
      structLiteralOk := structLiteralOk - lower;
      var condition := Expression();
      structLiteralOk := structLiteralOk + lower;
      if condition == None {
        LogError();
      }
      if failed {
        return None;
      }
      breakOk := breakOk + deeper;
      var block := StatementBlock();
      if block == None {
        LogError();
      }
      if failed {
        return None;
      }
      breakOk := breakOk - deeper;
      r := Some(Segment(condition.value, block.value));
    }

    method ForeachStatement() returns (r: Option<Stmt>)
      requires Ready()
      modifies this
      ensures if HeadIs(old(Rest()), Foreach) then Did(Control(old(Rest()), old(structLiteralOk), old(breakOk)), r)
              else MovedTo(old(Rest())) && r == None
      decreases |Rest()|, 3
    {
      hide Rest, Below, TokensAt, Popped, Valid;
      hide Control, StatementGrammar.ConditionAndBlock;
      ForeachByHead(Rest(), structLiteralOk, breakOk);
      var t := TryToken(Foreach);
      if t == None {
        return None;
      }
      var ident := TryToken(Identifier(""));
      if ident == None {
        LogError();
        return None;
      }
      t := TryToken(Colon);
      if t == None {
        LogError();
        return None;
      }
      var s := ConditionAndBlock(2, 1);
      if failed {
        return None;
      }
      r := Some(Stmt.ForeachStatement(ident.value.name, s.value.condition, s.value.block));
    }

    method WhileStatement() returns (r: Option<Stmt>)
      requires Ready()
      modifies this
      ensures if HeadIs(old(Rest()), While) then Did(Control(old(Rest()), old(structLiteralOk), old(breakOk)), r)
              else MovedTo(old(Rest())) && r == None
      decreases |Rest()|, 3
    {
      hide Rest, Below, TokensAt, Popped, Valid;
      hide Control;
      hide StatementGrammar.ConditionAndBlock;
      WhileByHead(Rest(), structLiteralOk, breakOk);
      var t := TryToken(While);
      if t == None {
        return None;
      }
      var s := ConditionAndBlock(2, 1);
      if failed {
        return None;
      }
      r := Some(Stmt.WhileStatement(s.value.condition, s.value.block));
    }

    method IfStatement() returns (r: Option<Stmt>)
      requires Ready()
      modifies this
      ensures if HeadIs(old(Rest()), If) then Did(Control(old(Rest()), old(structLiteralOk), old(breakOk)), r)
              else MovedTo(old(Rest())) && r == None
      decreases |Rest()|, 3
    {
      hide Rest, Below, TokensAt, Popped, Valid;
      hide Control, ElseIfs, StatementGrammar.ConditionAndBlock, StatementGrammar.StatementBlock;
      IfByHead(Rest(), structLiteralOk, breakOk);
      var t := TryToken(If);
      if t == None {
        return None;
      }
      var s := ConditionAndBlock(2, 0);
      if failed {
        return None;
      }
      r := ElseIfSegments(s.value);
    }

    /** `elseif`s and `else` after the first segment. */
    method ElseIfSegments(first: Segment) returns (r: Option<Stmt>)
      requires Ready() && SegmentBreaksInLoops(first, breakOk > 0)
      modifies this
      ensures Did(ElseIfs([first], old(Rest()), old(structLiteralOk), old(breakOk)), r)
      decreases |Rest()|, 3
    {
      hide Rest, Below, TokensAt, Popped, Valid;
      hide ElseIfs, StatementGrammar.ConditionAndBlock, StatementGrammar.StatementBlock, SegmentBreaksInLoops;
      var segments := [first];
      ghost var ts, ok, loops := Rest(), structLiteralOk, breakOk;
      while true
        invariant Kept() && structLiteralOk == ok && breakOk == loops && |Rest()| <= |ts|
        invariant forall i :: 0 <= i < |segments| ==> SegmentBreaksInLoops(segments[i], loops > 0)
        invariant ElseIfs(segments, Rest(), ok, loops) == ElseIfs([first], ts, ok, loops)
        decreases |Rest()|
      {
        ElseIfsTurn(segments, Rest(), ok, loops);
        var t := TryToken(ElseIf);
        if t == None {
          break;
        }
        var next := ConditionAndBlock(0, 0);
        if failed {
          return None;
        }
        segments := segments + [next.value];
      }
      ElseIfsTurn(segments, Rest(), ok, loops);
      var t := TryToken(Else);
      if t == None {
        return Some(Stmt.IfStatement(segments, None));
      }
      var block := StatementBlock();
      if block == None {
        LogError();
      }
      if failed {
        return None;
      }
      r := Some(Stmt.IfStatement(segments, block));
    }

    /** Tries the kinds of statement in turn. */
    method Statement() returns (r: Option<Stmt>)
      requires Ready()
      modifies this
      ensures Did(StatementGrammar.Statement(old(Rest()), old(structLiteralOk), old(breakOk)), r)
      decreases |Rest()|, 5
    {
      hide Rest, Below, TokensAt, Popped, Valid;
      hide BareStatement;
      EatSemicolons();
      r := Alternatives();
      if failed || r == None {
        return None;
      }
      EatSemicolons();
    }

    method Alternatives() returns (r: Option<Stmt>)
      requires Ready()
      modifies this
      ensures Did(BareStatement(old(Rest()), old(structLiteralOk), old(breakOk)), r)
      decreases |Rest()|, 4
    {
      hide Rest, Below, TokensAt, Popped, Valid;
      hide BareStatement, Plain, FirstKeyword, MiddleKeyword, LastKeyword;
      r := FirstKeywords();
      if failed || r.Some? {
        return;
      }
      r := MiddleKeywords();
      if failed || r.Some? {
        return;
      }
      r := LastKeywords();
      if failed || r.Some? {
        return;
      }
      NoKeyword(Rest(), structLiteralOk, breakOk);
      r := PlainStatement();
    }

    method FirstKeywords() returns (r: Option<Stmt>)
      requires Ready()
      modifies this
      ensures if FirstKeyword(old(Rest()))
              then Did(BareStatement(old(Rest()), old(structLiteralOk), old(breakOk)), r) && (failed || r.Some?)
              else MovedTo(old(Rest())) && r == None
      decreases |Rest()|, 4, 0
    {
      hide Rest, Below, TokensAt, Popped, Valid;
      hide BareStatement, LetLike, SendTo, ReturnValue, Control;
      ByKeyword(Rest(), structLiteralOk, breakOk);
      r := ForeachStatement();
      if failed || r.Some? {
        return;
      }
      r := LetLikeStatement(AssignLet);
      if failed || r.Some? {
        return;
      }
      r := LetLikeStatement(AssignConst);
    }

    method MiddleKeywords() returns (r: Option<Stmt>)
      requires Ready()
      modifies this
      ensures if MiddleKeyword(old(Rest()))
              then Did(BareStatement(old(Rest()), old(structLiteralOk), old(breakOk)), r) && (failed || r.Some?)
              else MovedTo(old(Rest())) && r == None
      decreases |Rest()|, 4, 0
    {
      hide Rest, Below, TokensAt, Popped, Valid;
      hide BareStatement, LetLike, SendTo, ReturnValue, Control;
      ByKeyword(Rest(), structLiteralOk, breakOk);
      r := SendStatement();
      if failed || r.Some? {
        return;
      }
      r := ReturnStatement();
      if failed || r.Some? {
        return;
      }
      r := IfStatement();
    }

    method LastKeywords() returns (r: Option<Stmt>)
      requires Ready()
      modifies this
      ensures if LastKeyword(old(Rest()))
              then Did(BareStatement(old(Rest()), old(structLiteralOk), old(breakOk)), r) && (failed || r.Some?)
              else MovedTo(old(Rest())) && r == None
      decreases |Rest()|, 4, 0
    {
      hide Rest, Below, TokensAt, Popped, Valid;
      hide BareStatement, LetLike, SendTo, ReturnValue, Control;
      ByKeyword(Rest(), structLiteralOk, breakOk);
      r := WhileStatement();
      if failed || r.Some? {
        return;
      }
      r := BreakStatement();
    }

    /** The kinds of statement that no keyword starts. */
    method PlainStatement() returns (r: Option<Stmt>)
      requires Ready()
      modifies this
      ensures Did(Plain(old(Rest()), old(structLiteralOk)), r)
    {
      hide Rest, Below, TokensAt, Popped, Valid;
      hide ModifyInPlace, Assign, ParseExpression;
      r := ModifyInPlaceStatement();
      if failed || r.Some? {
        return;
      }
      r := AssignStatement();
      if failed || r.Some? {
        return;
      }
      var e := Expression();
      if failed || e == None {
        return None;
      }
      r := Some(Stmt.ExpressionStatement(e.value));
    }

    method StatementBlock() returns (r: Option<Block>)
      requires Ready()
      modifies this
      ensures Did(StatementGrammar.StatementBlock(old(Rest()), old(structLiteralOk), old(breakOk)), r)
      decreases |Rest()|, 1
    {
      hide Rest, Below, TokensAt, Popped, Valid;
      hide Statements, StatementGrammar.Statement, BlockBreaksInLoops, BreaksInLoops;
      var t := TryToken(OpenCurly);
      if t == None {
        return None;
      }
      var statements: seq<Stmt> := [];
      ghost var ts, ok, loops := Rest(), structLiteralOk, breakOk;
      while true
        invariant Kept() && structLiteralOk == ok && breakOk == loops && |Rest()| < old(|Rest()|)
        invariant forall i :: 0 <= i < |statements| ==> BreaksInLoops(statements[i], loops > 0)
        invariant Statements(statements, Rest(), ok, loops) == Statements([], ts, ok, loops)
        decreases |Rest()|
      {
        StatementsTurn(statements, Rest(), ok, loops);
        var s := Statement();
        if failed {
          return None;
        }
        if s == None {
          t := TryToken(CloseCurly);
          if t == None {
            LogError();
            return None;
          }
          return Some(Block(statements));
        }
        statements := statements + [s.value];
      }
    }
  }

  predicate FirstKeyword(ts: seq<Token>) {
    HeadIs(ts, Foreach) || HeadIs(ts, Let) || HeadIs(ts, Const)
  }

  predicate MiddleKeyword(ts: seq<Token>) {
    HeadIs(ts, Send) || HeadIs(ts, Return) || HeadIs(ts, If)
  }

  predicate LastKeyword(ts: seq<Token>) {
    HeadIs(ts, While) || HeadIs(ts, Break)
  }

  lemma NoKeyword(ts: seq<Token>, ok: int, breakOk: nat)
    requires !FirstKeyword(ts) && !MiddleKeyword(ts) && !LastKeyword(ts)
    ensures BareStatement(ts, ok, breakOk) == Plain(ts, ok)
  {
    hide Plain;
  }

  lemma WhileByHead(ts: seq<Token>, ok: int, breakOk: nat)
    ensures HeadIs(ts, While) ==>
      var r := StatementGrammar.ConditionAndBlock(ts[1..], ok - 2, ok, breakOk + 1);
      Control(ts, ok, breakOk)
      == if r.Found? then Found(Stmt.WhileStatement(r.value.condition, r.value.block), r.rest) else Errored
  {
    hide StatementGrammar.ConditionAndBlock;
  }

  lemma SendByHead(ts: seq<Token>, ok: int)
    ensures HeadIs(ts, Send) && !HeadIs(ts[1..], OpenCurved) ==> SendTo(ts, ok) == Errored
    ensures HeadIs(ts, Send) && HeadIs(ts[1..], OpenCurved) ==>
      var pipe := ParseExpression(ts[1..][1..], ok);
      if !pipe.Found? || !HeadIs(pipe.rest, Comma) then SendTo(ts, ok) == Errored
      else
        var value := ParseExpression(pipe.rest[1..], ok);
        SendTo(ts, ok) == if value.Found? && HeadIs(value.rest, CloseCurved)
                          then Found(Stmt.SendStatement(pipe.value, value.value), value.rest[1..]) else Errored
  {
    hide ParseExpression;
  }

  lemma LetLikeByHead(kind: AssignType, ts: seq<Token>, ok: int)
    ensures kind != AssignNormal && HeadIs(ts, if kind == AssignLet then Let else Const) ==>
      var lvs := LValues(ts[1..], ok);
      if !lvs.Found? || !HeadIs(lvs.rest, Equals) then LetLike(kind, ts, ok) == Errored
      else
        var e := ParseExpression(lvs.rest[1..], ok);
        LetLike(kind, ts, ok) == if e.Found? then Found(Stmt.AssignStatement(kind, lvs.value, [e.value]), e.rest)
            else Errored
  {
    hide LValues, ParseExpression;
  }

  lemma IndexingByHead(deref: bool, ts: seq<Token>, ok: int)
    ensures ts == [] || !ts[0].Identifier? ==> StatementGrammar.IndexingLValue(deref, ts, ok) == NotFound(ts)
    ensures ts != [] && ts[0].Identifier? && HeadIs(ts[1..], Dot) && !HeadLike(ts[1..][1..], Identifier("")) ==>
      StatementGrammar.IndexingLValue(deref, ts, ok) == Errored
    ensures ts != [] && ts[0].Identifier? && (HeadIs(ts[1..], Dot) ==> HeadLike(ts[1..][1..], Identifier(""))) ==>
      var field := if HeadIs(ts[1..], Dot) then Some(ts[1..][1..][0].name) else None;
      var r := Indices([], if field.Some? then ts[1..][1..][1..] else ts[1..], ok);
      StatementGrammar.IndexingLValue(deref, ts, ok)
      == if r.Found? then Found(LValue(deref, ts[0].name, field, r.value), r.rest) else Errored
  {
    hide Indices;
    if |ts| > 1 {
      assert ts[1..][1..] == ts[2..];
      assert |ts| > 2 ==> ts[2..][1..] == ts[3..];
    }
  }

  lemma IndicesTurn(read: seq<Expr>, ts: seq<Token>, ok: int)
    ensures !HeadIs(ts, OpenSquare) ==> Indices(read, ts, ok) == Found(read, ts)
    ensures HeadIs(ts, OpenSquare) ==>
      var r := ParseExpression(ts[1..], ok);
      Indices(read, ts, ok) == if r.Found? && HeadIs(r.rest, CloseSquare)
                               then Indices(read + [r.value], r.rest[1..], ok) else Errored
  {
    hide ParseExpression;
  }

  lemma ForeachByHead(ts: seq<Token>, ok: int, breakOk: nat)
    ensures HeadIs(ts, Foreach) && (!HeadLike(ts[1..], Identifier("")) || !HeadIs(ts[1..][1..], Colon)) ==>
      Control(ts, ok, breakOk) == Errored
    ensures HeadIs(ts, Foreach) && HeadLike(ts[1..], Identifier("")) && HeadIs(ts[1..][1..], Colon) ==>
      var r := StatementGrammar.ConditionAndBlock(ts[1..][1..][1..], ok - 2, ok, breakOk + 1);
      Control(ts, ok, breakOk)
      == if r.Found? then Found(Stmt.ForeachStatement(ts[1..][0].name, r.value.condition, r.value.block), r.rest)
          else Errored
  {
    hide StatementGrammar.ConditionAndBlock;
    if |ts| > 2 {
      assert ts[1..][1..] == ts[2..] && ts[2..][1..] == ts[3..];
    }
  }

  lemma IfByHead(ts: seq<Token>, ok: int, breakOk: nat)
    ensures HeadIs(ts, If) ==>
      var r := StatementGrammar.ConditionAndBlock(ts[1..], ok - 2, ok, breakOk);
      Control(ts, ok, breakOk) == if r.Found? then ElseIfs([r.value], r.rest, ok, breakOk) else Errored
  {
    hide StatementGrammar.ConditionAndBlock, ElseIfs;
  }

  lemma ElseIfsTurn(read: seq<Segment>, ts: seq<Token>, ok: int, breakOk: nat)
    requires forall i :: 0 <= i < |read| ==> SegmentBreaksInLoops(read[i], breakOk > 0)
    ensures HeadIs(ts, ElseIf) ==>
      var r := StatementGrammar.ConditionAndBlock(ts[1..], ok, ok, breakOk);
      ElseIfs(read, ts, ok, breakOk) == if r.Found? then ElseIfs(read + [r.value], r.rest, ok, breakOk) else Errored
    ensures HeadIs(ts, Else) ==>
      var r := StatementGrammar.StatementBlock(ts[1..], ok, breakOk);
      ElseIfs(read, ts, ok, breakOk) == if r.Found? then Found(Stmt.IfStatement(read, Some(r.value)), r.rest)
          else Errored
    ensures !HeadIs(ts, ElseIf) && !HeadIs(ts, Else) ==>
      ElseIfs(read, ts, ok, breakOk) == Found(Stmt.IfStatement(read, None), ts)
  {
    hide StatementGrammar.ConditionAndBlock, StatementGrammar.StatementBlock;
  }

  lemma StatementsTurn(read: seq<Stmt>, ts: seq<Token>, ok: int, breakOk: nat)
    requires forall i :: 0 <= i < |read| ==> BreaksInLoops(read[i], breakOk > 0)
    ensures var r := StatementGrammar.Statement(ts, ok, breakOk);
            if r.Found? then Statements(read, ts, ok, breakOk) == Statements(read + [r.value], r.rest, ok, breakOk)
            else if r.NotFound? && HeadIs(r.rest, CloseCurly) then
              Statements(read, ts, ok, breakOk) == Found(Block(read), r.rest[1..])
            else Statements(read, ts, ok, breakOk) == Errored
  {
    hide StatementGrammar.Statement;
  }

  lemma PrefixedByHead(ts: seq<Token>, ok: int)
    ensures HeadIs(ts, Range) ==> Prefixed(ts, ok) == RangeExpression([Range] + ts[1..], ok)
    ensures ts == [] || ts[0] !in {Range, Multiply, Drain, Receive, Cpu, Gpu} ==> Prefixed(ts, ok) == Allocation(ts, ok)
  {
    hide Allocation, RangeExpression;
    assert HeadIs(ts, Range) ==> [Range] + ts[1..] == ts;
  }

  lemma CreateByHead(ts: seq<Token>, gpu: bool, ok: int)
    requires HeadIs(ts, if gpu then Gpu else Cpu)
    ensures var r := ParseExpression(ts[1..], ok);
            Prefixed(ts, ok) == if r.Found? then Found(CreateWorker(r.value, gpu), r.rest)
                                else if r.NotFound? then NotFound(ts) else Errored
  {
    hide ParseExpression, Allocation, RangeExpression, ReceiveExpression;
  }

  lemma RangeByHead(ts: seq<Token>, ok: int)
    ensures !HeadIs(ts, OpenCurved) ==> RangeExpression([Range] + ts, ok) == Errored
    ensures HeadIs(ts, OpenCurved) ==>
      var r := ParseExpression(ts[1..], ok);
      if !r.Found? then RangeExpression([Range] + ts, ok) == Errored
      else
        var tail := RangeTail([r.value], 2, r.rest, ok);
        RangeExpression([Range] + ts, ok) == if tail.Found? && HeadIs(tail.rest, CloseCurved)
                                             then Found(RangeOf(tail.value), tail.rest[1..]) else Errored
  {
    hide ParseExpression, RangeTail;
    var all := [Range] + ts;
    assert all[1..] == ts;
    assert ts != [] ==> all[2..] == ts[1..];
  }

  lemma RangeTurn(vals: seq<Expr>, left: nat, ts: seq<Token>, ok: int)
    requires left > 0
    ensures !HeadIs(ts, Comma) ==> RangeTail(vals, left, ts, ok) == RangeTail(vals, left - 1, ts, ok)
    ensures HeadIs(ts, Comma) ==>
      var r := ParseExpression(ts[1..], ok);
      RangeTail(vals, left, ts, ok) == if r.Found? then RangeTail(vals + [r.value], left - 1, r.rest, ok) else Errored
  {
    hide ParseExpression;
  }

  lemma RangeEnds(vals: seq<Expr>, ts: seq<Token>, ok: int)
    ensures RangeTail(vals, 0, ts, ok) == Found(vals, ts)
  {
  }

  lemma ReceiveByHead(ts: seq<Token>, all: bool, ok: int)
    requires HeadIs(ts, if all then Drain else Receive)
    ensures !HeadIs(ts[1..], OpenCurved) ==> Prefixed(ts, ok) == Errored
    ensures HeadIs(ts[1..], OpenCurved) ==>
      var r := Allocation(ts[1..][1..], ok);
      Prefixed(ts, ok) == if r.NotFound? then NotFound(ts)
                          else if r.Found? && HeadIs(r.rest, CloseCurved)
                          then Found(ReceiveWorker(r.value, all), r.rest[1..]) else Errored
  {
    hide Allocation, RangeExpression;
    assert |ts| > 1 ==> ts[1..][1..] == ts[2..];
  }

  /** One turn of the struct literal loop. */
  lemma PairsTurn(ts: seq<Token>, pairs: seq<Pair>, first: bool, ok: int)
    ensures var here := SkipSemicolons(ts);
            SkipSemicolons(here) == here &&
            if HeadIs(here, CloseCurly) then StructPairs(ts, pairs, first, ok) == Found(pairs, here[1..])
            else if pairs != [] && HeadIs(here, Comma) then
              PairGives(StructPairs(ts, pairs, first, ok), SkipSemicolons(here[1..]), pairs, ok)
            else if pairs == [] && first then PairGives(StructPairs(ts, pairs, first, ok), here, pairs, ok)
            else StructPairs(ts, pairs, first, ok) == Errored
  {
    hide Grammar.LiteralPair;
  }

  /** The loop's result `r` when its next pair is tried at `ts`. */
  ghost predicate PairGives(r: Parsed<seq<Pair>>, ts: seq<Token>, pairs: seq<Pair>, ok: int) {
    match Grammar.LiteralPair(ts, ok)
    case Found(pair, rest) => r == StructPairs(rest, pairs + [pair], false, ok)
    case NotFound(_) => r == StructPairs(ts, pairs, false, ok)
    case Errored => r == Errored
  }

  /** One turn of the postfix loop. */
  lemma PostfixTurn(e: Expr, ts: seq<Token>, ok: int)
    ensures HeadIs(ts, OpenCurved) ==>
      var r := Grammar.ExpressionList(ts[1..], ok);
      PostfixTail(e, ts, ok) == if r.Found? && HeadIs(r.rest, CloseCurved)
                                then PostfixTail(Call(e, r.value), r.rest[1..], ok) else Errored
    ensures HeadIs(ts, OpenSquare) ==>
      var r := ParseExpression(ts[1..], ok);
      PostfixTail(e, ts, ok) == if r.NotFound? then NotFound(r.rest)
                                else if r.Found? && HeadIs(r.rest, CloseSquare)
                                then PostfixTail(Index(e, r.value), r.rest[1..], ok) else Errored
    ensures HeadIs(ts, Dot) ==>
      PostfixTail(e, ts, ok) == if |ts| > 1 && ts[1].Identifier?
                                then PostfixTail(Access(e, ts[1].name), ts[1..][1..], ok) else Errored
    ensures !HeadIs(ts, OpenCurved) && !HeadIs(ts, OpenSquare) && !HeadIs(ts, Dot) ==>
      PostfixTail(e, ts, ok) == Found(e, ts)
  {
    hide Grammar.ExpressionList, ParseExpression;
  }

  /** The operator tokens of a rung. */
  function Operators(level: nat): (ops: seq<Token>)
    ensures forall t :: t in ops <==> HeadOperator([t], level).Some?
  {
    if level == 2 then [Multiply, Divide, Percent]
    else if level == 3 then [Plus, Minus]
    else if level == 4 then [GreaterThan, GreaterThanOrEqual, LessThan, LessThanOrEqual]
    else if level == 5 then [Equality, Inequality]
    else if level == 6 then [And]
    else if level == 7 then [Or]
    else []
  }
}
