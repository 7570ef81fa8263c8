/**
  What the parser reads is what is there: the tokens an expression was read from are, in order, the tokens of the
  expression, but for curved brackets, and those match.  Struct literals, whose separators may be repeated, and ranges,
  whose values may be left out, are not read here.
*/
module ParserSoundness {
  import opened Sequences
  import opened Grammar

  predicate Curved(t: Token) {
    t == OpenCurved || t == CloseCurved
  }

  /** All but the curved brackets. */
  function Content(ts: seq<Token>): seq<Token> {
    if ts == [] then [] else (if Curved(ts[0]) then [] else [ts[0]]) + Content(ts[1..])
  }

  /** Curved brackets opened less those closed. */
  function Depth(ts: seq<Token>): int {
    if ts == [] then 0
    else (if ts[0] == OpenCurved then 1 else if ts[0] == CloseCurved then -1 else 0) + Depth(ts[1..])
  }

  /** No struct literal and no range begins here. */
  predicate Plain(ts: seq<Token>) {
    forall i :: 0 <= i < |ts| ==> ts[i] != OpenCurly && ts[i] != Range
  }

  /** The tokens of an expression, in order and without curved brackets. */
  function Yield(e: Expr): seq<Token>
    decreases e
  {
    match e
    case IntegerTerminal(v) => [Integer(v)]
    case BooleanTerminal(b) => [if b then True else False]
    case IdentifierTerminal(x) => [Identifier(x)]
    case Call(f, args) => Yield(f) + YieldAll(args)
    case Index(a, i) => Yield(a) + ([OpenSquare] + (Yield(i) + [CloseSquare]))
    case Access(a, field) => Yield(a) + [Dot, Identifier(field)]
    case Unary(op, x) => [if op == OpNot then Not else Minus] + Yield(x)
    case Binary(l, op, r) => Yield(l) + ([BinaryToken(op)] + Yield(r))
    case NewExpr(x) => [New] + Yield(x)
    case Dereference(x) => [Multiply] + Yield(x)
    case ReceiveWorker(x, all) => [if all then Drain else Receive] + Yield(x)
    case CreateWorker(x, gpu) => [if gpu then Gpu else Cpu] + Yield(x)
    case StructLiteral(_, _) => []
    case RangeExpr(_, _, _) => []
  }

  /** With a comma before each but the first. */
  function YieldAll(es: seq<Expr>): seq<Token>
    decreases es
  {
    if es == [] then []
    else if |es| == 1 then Yield(es[0])
    else YieldAll(es[..|es| - 1]) + ([Comma] + Yield(es[|es| - 1]))
  }

  /** After `done`, whose tokens are read already, the rest of what is read from `ts` ends at `rest`. */
  ghost predicate Reads(done: seq<Token>, ts: seq<Token>, all: seq<Token>, rest: seq<Token>) {
    Plain(rest) && done + Content(ts) == all + Content(rest) && Depth(ts) == Depth(rest)
  }

  ghost predicate Sound(done: seq<Token>, ts: seq<Token>, r: Parsed<Expr>) {
    r.Found? ==> Reads(done, ts, Yield(r.value), r.rest)
  }

  ghost predicate SoundList(done: seq<Token>, ts: seq<Token>, r: Parsed<seq<Expr>>) {
    r.Found? ==> Reads(done, ts, YieldAll(r.value), r.rest)
  }

  // ---------------------------------------------------------------- one token

  lemma Drop(ts: seq<Token>)
    requires ts != [] && Plain(ts)
    ensures Plain(ts[1..])
    ensures Content(ts) == if Curved(ts[0]) then Content(ts[1..]) else [ts[0]] + Content(ts[1..])
    ensures ts[0] == OpenCurved ==> Depth(ts) == 1 + Depth(ts[1..])
    ensures ts[0] == CloseCurved ==> Depth(ts) == Depth(ts[1..]) - 1
    ensures !Curved(ts[0]) ==> Depth(ts) == Depth(ts[1..])
  {
    assert [] + Content(ts[1..]) == Content(ts[1..]);
  }

  lemma Done(done: seq<Token>, ts: seq<Token>)
    requires Plain(ts)
    ensures Reads(done, ts, done, ts)
  {
  }

  /** One after the other. */
  lemma Both(done: seq<Token>, ts: seq<Token>, middle: seq<Token>, mid: seq<Token>, all: seq<Token>, rest: seq<Token>)
    requires Reads(done, ts, middle, mid) && Reads(middle, mid, all, rest)
    ensures Reads(done, ts, all, rest)
  {
  }

  /** What is read after a prefix is read after nothing, with the prefix before it. */
  lemma After(before: seq<Token>, done: seq<Token>, ts: seq<Token>, all: seq<Token>, rest: seq<Token>)
    requires Reads(done, ts, all, rest)
    ensures Reads(before + done, ts, before + all, rest)
  {
    Assoc(before, done, Content(ts));
    Assoc(before, all, Content(rest));
  }

  /** A token that is no bracket. */
  lemma Token1(done: seq<Token>, ts: seq<Token>)
    requires ts != [] && Plain(ts) && !Curved(ts[0])
    ensures Reads(done, ts, done + [ts[0]], ts[1..])
  {
    Drop(ts);
    Assoc(done, [ts[0]], Content(ts[1..]));
  }

  /** Brackets around what is read. */
  lemma Between(done: seq<Token>, ts: seq<Token>, all: seq<Token>, last: seq<Token>)
    requires ts != [] && Plain(ts) && ts[0] == OpenCurved
    requires Reads(done, ts[1..], all, last) && HeadIs(last, CloseCurved)
    ensures Reads(done, ts, all, last[1..])
  {
    Drop(ts);
    Drop(last);
  }

  lemma Nothing(ts: seq<Token>)
    ensures [] + Content(ts) == Content(ts)
  {
  }

  // ---------------------------------------------------------------- the productions

  lemma {:induction false} LiteralSound(ts: seq<Token>, ok: int)
    requires Plain(ts)
    ensures Sound([], ts, Literal(ts, ok))
  {
    if ts != [] && !Curved(ts[0]) {
      Token1([], ts);
      assert [] + [ts[0]] == [ts[0]];
      assert ts[0].Identifier? ==> StructLiteralBody(ts[1..], ok).NotFound? by {
        Drop(ts);
      }
    }
  }

  lemma {:induction false} PrimarySound(ts: seq<Token>, ok: int)
    requires Plain(ts)
    ensures Sound([], ts, Primary(ts, ok))
    decreases |ts|, 1, 0
  {
    hide Literal;
    LiteralSound(ts, ok);
    if HeadIs(ts, OpenCurved) {
      Drop(ts);
      ExpressionSound(ts[1..], ok);
      var r := ParseExpression(ts[1..], ok);
      if r.Found? && HeadIs(r.rest, CloseCurved) {
        Between([], ts, Yield(r.value), r.rest);
      }
    }
  }

  lemma {:induction false} ListSound(ts: seq<Token>, ok: int)
    requires Plain(ts)
    ensures SoundList([], ts, ExpressionList(ts, ok))
    decreases |ts|, 21, 0
  {
    hide ParseExpression, ListTail;
    ExpressionSound(ts, ok);
    var r := ParseExpression(ts, ok);
    match r
    case Found(e, rest) =>
      ListTailSound([e], rest, ok);
      OneYield(e);
      var all := ListTail([e], rest, ok);
      if all.Found? {
        Both([], ts, Yield(e), rest, YieldAll(all.value), all.rest);
      }
    case NotFound(_) => Done([], ts);
    case Errored =>
  }

  lemma OneYield(e: Expr)
    ensures YieldAll([e]) == Yield(e)
  {
  }

  lemma MoreYield(es: seq<Expr>, e: Expr)
    requires es != []
    ensures YieldAll(es + [e]) == YieldAll(es) + ([Comma] + Yield(e))
  {
    assert (es + [e])[..|es|] == es;
  }

  lemma {:induction false} ListTailSound(es: seq<Expr>, ts: seq<Token>, ok: int)
    requires Plain(ts) && es != []
    ensures SoundList(YieldAll(es), ts, ListTail(es, ts, ok))
    decreases |ts|, 0, 0
  {
    hide ParseExpression, Yield, YieldAll, Reads;
    Done(YieldAll(es), ts);
    if HeadIs(ts, Comma) {
      Drop(ts);
      ExpressionSound(ts[1..], ok);
      var r := ParseExpression(ts[1..], ok);
      if r.Found? {
        MoreYield(es, r.value);
        Token1(YieldAll(es), ts);
        JoinAfter(YieldAll(es), [Comma], ts[1..], Yield(r.value), r.rest);
        Both(YieldAll(es), ts, YieldAll(es) + [Comma], ts[1..], YieldAll(es + [r.value]), r.rest);
        RestPlain([], ts[1..], Yield(r.value), r.rest);
        ListTailSound(es + [r.value], r.rest, ok);
        var all := ListTail(es + [r.value], r.rest, ok);
        if all.Found? {
          Both(YieldAll(es), ts, YieldAll(es + [r.value]), r.rest, YieldAll(all.value), all.rest);
        }
      }
    }
  }

  lemma RestPlain(done: seq<Token>, ts: seq<Token>, all: seq<Token>, rest: seq<Token>)
    requires Reads(done, ts, all, rest)
    ensures Plain(rest)
  {
  }

  /** What is read by itself is read after `before` and one more token. */
  lemma JoinAfter(before: seq<Token>, token: seq<Token>, ts: seq<Token>, all: seq<Token>, rest: seq<Token>)
    requires Reads([], ts, all, rest)
    ensures Reads(before + token, ts, before + (token + all), rest)
  {
    After(before + token, [], ts, all, rest);
    assert before + token + [] == before + token;
    Assoc(before, token, all);
  }

  lemma {:induction false} PostfixTailSound(e: Expr, ts: seq<Token>, ok: int)
    requires Plain(ts)
    ensures Sound(Yield(e), ts, PostfixTail(e, ts, ok))
    decreases |ts|, 1, 0
  {
    if HeadIs(ts, OpenCurved) {
      CallSound(e, ts, ok);
    } else if HeadIs(ts, OpenSquare) {
      IndexSound(e, ts, ok);
    } else if HeadIs(ts, Dot) {
      if |ts| > 1 && ts[1].Identifier? {
        hide Reads;
        var longer := Access(e, ts[1].name);
        Token1(Yield(e), ts);
        RestPlain(Yield(e), ts, Yield(e) + [Dot], ts[1..]);
        Token1(Yield(e) + [Dot], ts[1..]);
        assert ts[1..][1..] == ts[2..];
        assert Yield(e) + [Dot] + [ts[1]] == Yield(longer);
        Both(Yield(e), ts, Yield(e) + [Dot], ts[1..], Yield(longer), ts[2..]);
        RestPlain(Yield(e), ts, Yield(longer), ts[2..]);
        PostfixTailSound(longer, ts[2..], ok);
        var r := PostfixTail(longer, ts[2..], ok);
        if r.Found? {
          Both(Yield(e), ts, Yield(longer), ts[2..], Yield(r.value), r.rest);
        }
      }
    } else {
      Done(Yield(e), ts);
    }
  }

  lemma {:induction false} CallSound(e: Expr, ts: seq<Token>, ok: int)
    requires Plain(ts) && HeadIs(ts, OpenCurved)
    ensures Sound(Yield(e), ts, PostfixTail(e, ts, ok))
    decreases |ts|, 0, 0
  {
    hide ExpressionList, Reads, YieldAll;
    Drop(ts);
    ListSound(ts[1..], ok);
    var args := ExpressionList(ts[1..], ok);
    if args.Found? && HeadIs(args.rest, CloseCurved) {
      var longer := Call(e, args.value);
      After(Yield(e), [], ts[1..], YieldAll(args.value), args.rest);
      assert Yield(e) + [] == Yield(e);
      Between(Yield(e), ts, Yield(longer), args.rest);
      RestPlain(Yield(e), ts, Yield(longer), args.rest[1..]);
      PostfixTailSound(longer, args.rest[1..], ok);
      var r := PostfixTail(longer, args.rest[1..], ok);
      if r.Found? {
        Both(Yield(e), ts, Yield(longer), args.rest[1..], Yield(r.value), r.rest);
      }
    }
  }

  lemma {:induction false} IndexSound(e: Expr, ts: seq<Token>, ok: int)
    requires Plain(ts) && HeadIs(ts, OpenSquare)
    ensures Sound(Yield(e), ts, PostfixTail(e, ts, ok))
    decreases |ts|, 0, 0
  {
    hide ParseExpression, Reads;
    Drop(ts);
    ExpressionSound(ts[1..], ok);
    var i := ParseExpression(ts[1..], ok);
    if i.Found? && HeadIs(i.rest, CloseSquare) {
      var longer := Index(e, i.value);
      var middle := Yield(e) + ([OpenSquare] + Yield(i.value));
      Token1(Yield(e), ts);
      JoinAfter(Yield(e), [OpenSquare], ts[1..], Yield(i.value), i.rest);
      Both(Yield(e), ts, Yield(e) + [OpenSquare], ts[1..], middle, i.rest);
      RestPlain(Yield(e), ts, middle, i.rest);
      Token1(middle, i.rest);
      assert middle + [CloseSquare] == Yield(longer) by {
        Assoc(Yield(e), [OpenSquare] + Yield(i.value), [CloseSquare]);
        Assoc([OpenSquare], Yield(i.value), [CloseSquare]);
      }
      Both(Yield(e), ts, middle, i.rest, Yield(longer), i.rest[1..]);
      RestPlain(Yield(e), ts, Yield(longer), i.rest[1..]);
      PostfixTailSound(longer, i.rest[1..], ok);
      var r := PostfixTail(longer, i.rest[1..], ok);
      if r.Found? {
        Both(Yield(e), ts, Yield(longer), i.rest[1..], Yield(r.value), r.rest);
      }
    }
  }

  lemma {:induction false} PostfixSound(ts: seq<Token>, ok: int)
    requires Plain(ts)
    ensures Sound([], ts, Postfix(ts, ok))
    decreases |ts|, 2, 0
  {
    hide Primary, PostfixTail, Reads;
    PrimarySound(ts, ok);
    var p := Primary(ts, ok);
    if p.Found? {
      RestPlain([], ts, Yield(p.value), p.rest);
      PostfixTailSound(p.value, p.rest, ok);
      var r := PostfixTail(p.value, p.rest, ok);
      if r.Found? {
        Both([], ts, Yield(p.value), p.rest, Yield(r.value), r.rest);
      }
    }
  }

  /** A token before what is read. */
  lemma Leading(ts: seq<Token>, all: seq<Token>, rest: seq<Token>)
    requires ts != [] && Plain(ts) && !Curved(ts[0]) && Reads([], ts[1..], all, rest)
    ensures Reads([], ts, [ts[0]] + all, rest)
  {
    hide Reads;
    Token1([], ts);
    After([ts[0]], [], ts[1..], all, rest);
    assert [] + [ts[0]] == [ts[0]] && [ts[0]] + [] == [ts[0]];
    Both([], ts, [ts[0]], ts[1..], [ts[0]] + all, rest);
  }

  lemma {:induction false} UnarySound(ts: seq<Token>, ok: int)
    requires Plain(ts)
    ensures Sound([], ts, UnaryExpression(ts, ok))
    decreases |ts|, 3, 0
  {
    hide Postfix, Reads;
    if HeadIs(ts, Not) || HeadIs(ts, Minus) {
      Drop(ts);
      PostfixSound(ts[1..], ok);
      var r := Postfix(ts[1..], ok);
      if r.Found? {
        Leading(ts, Yield(r.value), r.rest);
      }
    } else {
      PostfixSound(ts, ok);
    }
  }

  lemma {:induction false} LadderSound(level: nat, ts: seq<Token>, ok: int)
    requires Plain(ts)
    ensures Sound([], ts, Ladder(level, ts, ok))
    decreases |ts|, 3 + level, 1
  {
    hide Postfix, UnaryExpression, InfixTail, Reads;
    if level == 0 {
      PostfixSound(ts, ok);
    } else if level == 1 {
      UnarySound(ts, ok);
    } else {
      LadderSound(level - 1, ts, ok);
      var l := Ladder(level - 1, ts, ok);
      if l.Found? {
        RestPlain([], ts, Yield(l.value), l.rest);
        InfixSound(level, l.value, l.rest, ok);
        var r := InfixTail(level, l.value, l.rest, ok);
        if r.Found? {
          Both([], ts, Yield(l.value), l.rest, Yield(r.value), r.rest);
        }
      }
    }
  }

  lemma {:induction false} InfixSound(level: nat, lhs: Expr, ts: seq<Token>, ok: int)
    requires level >= 2 && Plain(ts)
    ensures Sound(Yield(lhs), ts, InfixTail(level, lhs, ts, ok))
    decreases |ts|, 0, 0
  {
    hide Ladder, Reads;
    match HeadOperator(ts, level)
    case None => Done(Yield(lhs), ts);
    case Some(op) =>
      Drop(ts);
      LadderSound(level - 1, ts[1..], ok);
      var e := Ladder(level - 1, ts[1..], ok);
      if e.Found? {
        var longer := Binary(lhs, op, e.value);
        Token1(Yield(lhs), ts);
        JoinAfter(Yield(lhs), [ts[0]], ts[1..], Yield(e.value), e.rest);
        Both(Yield(lhs), ts, Yield(lhs) + [ts[0]], ts[1..], Yield(longer), e.rest);
        RestPlain(Yield(lhs), ts, Yield(longer), e.rest);
        InfixSound(level, longer, e.rest, ok);
        var r := InfixTail(level, longer, e.rest, ok);
        if r.Found? {
          Both(Yield(lhs), ts, Yield(longer), e.rest, Yield(r.value), r.rest);
        }
      }
  }

  lemma {:induction false} AllocationSound(ts: seq<Token>, ok: int)
    requires Plain(ts)
    ensures Sound([], ts, Allocation(ts, ok))
    decreases |ts|, 17, 0
  {
    hide Ladder, Reads;
    if HeadIs(ts, New) {
      Drop(ts);
      LadderSound(TOP, ts[1..], ok);
      var r := Ladder(TOP, ts[1..], ok);
      if r.Found? {
        Leading(ts, Yield(r.value), r.rest);
      }
    } else {
      LadderSound(TOP, ts, ok);
    }
  }

  lemma ReceiveIs(ts: seq<Token>, ok: int)
    requires HeadIs(ts, Drain) || HeadIs(ts, Receive)
    ensures var made := ReceiveExpression(ts, ok);
            made.Found? ==>
              && HeadIs(ts[1..], OpenCurved)
              && var r := Allocation(ts[1..][1..], ok);
                 && r.Found? && HeadIs(r.rest, CloseCurved)
                 && made == Found(ReceiveWorker(r.value, ts[0] == Drain), r.rest[1..])
  {
    hide Allocation;
    assert |ts| > 1 ==> ts[1..][1..] == ts[2..];
  }

  lemma {:induction false} ReceiveSound(ts: seq<Token>, ok: int)
    requires Plain(ts) && (HeadIs(ts, Drain) || HeadIs(ts, Receive))
    ensures Sound([], ts, ReceiveExpression(ts, ok))
    decreases |ts|, 17, 0
  {
    hide ReceiveExpression, Allocation, Reads, Content, Depth, Plain;
    ReceiveIs(ts, ok);
    if ReceiveExpression(ts, ok).Found? {
      Drop(ts);
      Drop(ts[1..]);
      AllocationSound(ts[1..][1..], ok);
      var r := Allocation(ts[1..][1..], ok);
      Between([], ts[1..], Yield(r.value), r.rest);
      Leading(ts, Yield(r.value), r.rest[1..]);
    }
  }

  lemma {:induction false} StarSound(ts: seq<Token>, ok: int)
    requires Plain(ts) && HeadIs(ts, Multiply)
    ensures Sound([], ts, Prefixed(ts, ok))
    decreases |ts|, 17, 1
  {
    hide Allocation, ReceiveExpression, RangeExpression, ParseExpression, Reads;
    Drop(ts);
    AllocationSound(ts[1..], ok);
    var r := Allocation(ts[1..], ok);
    if r.Found? {
      Leading(ts, Yield(r.value), r.rest);
    }
  }

  lemma CreateIs(ts: seq<Token>, ok: int)
    requires HeadIs(ts, Cpu) || HeadIs(ts, Gpu)
    ensures var r, made := ParseExpression(ts[1..], ok), Prefixed(ts, ok);
            made.Found? ==> r.Found? && made == Found(CreateWorker(r.value, ts[0] == Gpu), r.rest)
  {
    hide Allocation, ReceiveExpression, RangeExpression, ParseExpression;
  }

  lemma {:induction false} CreateSound(ts: seq<Token>, ok: int)
    requires Plain(ts) && (HeadIs(ts, Cpu) || HeadIs(ts, Gpu))
    ensures Sound([], ts, Prefixed(ts, ok))
    decreases |ts|, 17, 1
  {
    hide Prefixed, ParseExpression, Reads, Content, Depth, Plain;
    Drop(ts);
    CreateIs(ts, ok);
    ExpressionSound(ts[1..], ok);
    var r := ParseExpression(ts[1..], ok);
    if r.Found? {
      Leading(ts, Yield(r.value), r.rest);
    }
  }

  lemma {:induction false} PrefixedSound(ts: seq<Token>, ok: int)
    requires Plain(ts)
    ensures Sound([], ts, Prefixed(ts, ok))
    decreases |ts|, 18, 0
  {
    hide Allocation, ReceiveExpression, RangeExpression, ParseExpression, Sound;
    if HeadIs(ts, Multiply) {
      StarSound(ts, ok);
    } else if HeadIs(ts, Drain) || HeadIs(ts, Receive) {
      ReceiveSound(ts, ok);
    } else if HeadIs(ts, Cpu) || HeadIs(ts, Gpu) {
      CreateSound(ts, ok);
    } else {
      AllocationSound(ts, ok);
    }
  }

  /** Nothing is dropped, invented or reordered, and the brackets match, whatever the tokens. */
  lemma {:induction false} ExpressionSound(ts: seq<Token>, ok: int)
    requires Plain(ts)
    ensures Sound([], ts, ParseExpression(ts, ok))
    decreases |ts|, 19, 0
  {
    hide Prefixed, Reads;
    PrefixedSound(ts, ok + 1);
  }

  /** The same, said of what was consumed. */
  lemma {:induction false} ReadsWhatIsThere(ts: seq<Token>, ok: int)
    requires Plain(ts)
    ensures (var r := ParseExpression(ts, ok);
             r.Found? ==> Content(ts) == Yield(r.value) + Content(r.rest) && Depth(ts) == Depth(r.rest))
  {
    hide ParseExpression;
    ExpressionSound(ts, ok);
    Nothing(ts);
  }
}
