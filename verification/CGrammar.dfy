/**
  The part of C's expression grammar that generated expressions use (ISO C, sections 6.5.1 to 6.5.14, with section 6.4
  for tokens): a prefix operator or a cast applies to any prefixed expression, and suffixes bind more tightly.
*/
module CGrammar {
  import Grammar

  type Operator = Grammar.BinaryOperator

  /** A whole type name is one token, as C keeps type names and expressions apart. */
  datatype Token =
    | Digits(value: nat) | Word(text: string) | TypeName(text: string)
    | Open | Close | Comma | Dot | Arrow
    | OpenBrace | CloseBrace | Assign
    | Bang | Ampersand | MinusMinus | Sign(op: Operator)

  const MinusSign := Sign(Grammar.OpSubtract)
  const Star := Sign(Grammar.OpMultiply)

  datatype Prefix = Negation | Complement | Indirection | Address | CastTo(typeName: string)

  datatype Tree =
    | Constant(value: nat)
    | Id(name: string)
    | Compound(typeName: string, fields: seq<Field>)
    | Apply(called: Tree, arguments: seq<Tree>)
    | Member(accessed: Tree, arrow: bool, field: string)
    | PostDecrement(decremented: Tree)
    | PreDecrement(decremented: Tree)
    | Prefixed(prefix: Prefix, operand: Tree)
    | Infix(left: Tree, op: Operator, right: Tree)

  /** A field of a compound literal. */
  datatype Field = Field(name: string, value: Tree)

  datatype Reading<T> = Read(value: T, rest: seq<Token>) | Wrong

  predicate HeadIs(ts: seq<Token>, t: Token) {
    ts != [] && ts[0] == t
  }

  predicate Merges(t: Token, u: Token) {
    t == u && (t == MinusSign || t == Ampersand)
  }

  /** Two minus signs or two ampersands with nothing between them are one token, the leftmost first. */
  function Lex(ts: seq<Token>): seq<Token> {
    if |ts| < 2 then ts
    else if Merges(ts[0], ts[1]) then
      [if ts[0] == MinusSign then MinusMinus else Sign(Grammar.OpAnd)] + Lex(ts[2..])
    else [ts[0]] + Lex(ts[1..])
  }

  // ---------------------------------------------------------------- doubled signs

  /** The tokens that could have been made of two. */
  function DoubledTokens(ts: seq<Token>): nat {
    if ts == [] then 0 else DoubledToken(ts[0]) + DoubledTokens(ts[1..])
  }

  function DoubledToken(t: Token): nat {
    if t == MinusMinus || t == Sign(Grammar.OpAnd) then 1 else 0
  }

  /** And what stands for them in a tree. */  function Doubled(t: Tree): nat
    decreases t
  {
    match t
    case Constant(_) => 0
    case Id(_) => 0
    case Compound(_, fields) => DoubledInFields(fields)
    case Apply(f, args) => Doubled(f) + DoubledIn(args)
    case Member(a, _, _) => Doubled(a)
    case PostDecrement(x) => 1 + Doubled(x)
    case PreDecrement(x) => 1 + Doubled(x)
    case Prefixed(_, x) => Doubled(x)
    case Infix(l, op, r) => Doubled(l) + DoubledToken(Sign(op)) + Doubled(r)
  }

  function DoubledIn(ts: seq<Tree>): nat
    decreases ts
  {
    if ts == [] then 0 else Doubled(ts[0]) + DoubledIn(ts[1..])
  }

  function DoubledInFields(fs: seq<Field>): nat
    decreases fs
  {
    if fs == [] then 0 else Doubled(fs[0].value) + DoubledInFields(fs[1..])
  }

  lemma {:induction false} DoubledInFieldsSnoc(fs: seq<Field>, f: Field)
    ensures DoubledInFields(fs + [f]) == DoubledInFields(fs) + Doubled(f.value)
  {
    if fs == [] {
      assert [] + [f] == [f] && [f][1..] == [];
    } else {
      assert (fs + [f])[1..] == fs[1..] + [f];
      DoubledInFieldsSnoc(fs[1..], f);
    }
  }

  lemma {:induction false} DoubledInSnoc(ts: seq<Tree>, t: Tree)
    ensures DoubledIn(ts + [t]) == DoubledIn(ts) + Doubled(t)
  {
    if ts == [] {
      assert [] + [t] == [t] && [t][1..] == [];
    } else {
      assert (ts + [t])[1..] == ts[1..] + [t];
      DoubledInSnoc(ts[1..], t);
    }
  }

  // ---------------------------------------------------------------- productions

  /** A success consumes tokens, and each doubled sign among them stands in the tree. */
  ghost predicate Takes(r: Reading<Tree>, ts: seq<Token>, done: nat, least: nat) {
    r.Read? ==>
      && |r.rest| + least <= |ts|
      && Doubled(r.value) + DoubledTokens(r.rest) == done + DoubledTokens(ts)
  }

  ghost predicate TakesList(r: Reading<seq<Tree>>, ts: seq<Token>, done: nat) {
    r.Read? ==>
      && |r.rest| + 1 <= |ts|
      && DoubledIn(r.value) + DoubledTokens(r.rest) == done + DoubledTokens(ts)
  }

  ghost predicate TakesFields(r: Reading<seq<Field>>, ts: seq<Token>, done: nat) {
    r.Read? ==>
      && |r.rest| + 1 <= |ts|
      && DoubledInFields(r.value) + DoubledTokens(r.rest) == done + DoubledTokens(ts)
  }

  function Primary(ts: seq<Token>): (r: Reading<Tree>)
    ensures Takes(r, ts, 0, 1)
    decreases |ts|, 0
  {
    if ts == [] then Wrong
    else match ts[0]
      case Digits(v) => Read(Constant(v), ts[1..])
      case Word(x) => Read(Id(x), ts[1..])
      case Open =>
        (match Expression(ts[1..])
         case Read(t, rest) => if HeadIs(rest, Close) then Read(t, rest[1..]) else Wrong
         case Wrong => Wrong)
      case _ => Wrong
  }

  /** The arguments of a call, after its opening bracket and up to its closing one. */
  function Arguments(ts: seq<Token>): (r: Reading<seq<Tree>>)
    ensures TakesList(r, ts, 0)
    decreases |ts|, 20
  {
    if HeadIs(ts, Close) then Read([], ts[1..]) else MoreArguments([], ts)
  }

  function MoreArguments(args: seq<Tree>, ts: seq<Token>): (r: Reading<seq<Tree>>)
    ensures TakesList(r, ts, DoubledIn(args))
    decreases |ts|, 19
  {
    match Expression(ts)
    case Wrong => Wrong
    case Read(t, rest) =>
      DoubledInSnoc(args, t);
      if HeadIs(rest, Close) then Read(args + [t], rest[1..])
      else if HeadIs(rest, Comma) then MoreArguments(args + [t], rest[1..])
      else Wrong
  }

  /** Calls, members and decrements after a primary expression. */
  function Suffixes(t: Tree, ts: seq<Token>): (r: Reading<Tree>)
    ensures Takes(r, ts, Doubled(t), 0)
    decreases |ts|, 0
  {
    if HeadIs(ts, Open) then
      match Arguments(ts[1..])
      case Read(args, rest) => Suffixes(Apply(t, args), rest)
      case Wrong => Wrong
    else if HeadIs(ts, Dot) || HeadIs(ts, Arrow) then
      if |ts| > 1 && ts[1].Word? then Suffixes(Member(t, ts[0].Arrow?, ts[1].text), ts[2..]) else Wrong
    else if HeadIs(ts, MinusMinus) then Suffixes(PostDecrement(t), ts[1..])
    else Read(t, ts)
  }

  function Postfix(ts: seq<Token>): (r: Reading<Tree>)
    ensures Takes(r, ts, 0, 1)
    decreases |ts|, 1
  {
    match if LiteralAhead(ts) then Literal(ts) else Primary(ts)
    case Read(t, rest) => Suffixes(t, rest)
    case Wrong => Wrong
  }

  predicate LiteralAhead(ts: seq<Token>) {
    CastAhead(ts) && HeadIs(ts[3..], OpenBrace)
  }

  /** A compound literal (section 6.5.2.5), whose fields are all named. */
  function Literal(ts: seq<Token>): (r: Reading<Tree>)
    requires LiteralAhead(ts)
    ensures Takes(r, ts, 0, 1)
    decreases |ts|, 0
  {
    SkipThree(ts);
    match Fields([], ts[4..])
    case Read(fields, rest) => Read(Compound(ts[1].text, fields), rest)
    case Wrong => Wrong
  }

  /** The fields of a literal after its opening brace and up to its closing one. */
  function Fields(fields: seq<Field>, ts: seq<Token>): (r: Reading<seq<Field>>)
    ensures TakesFields(r, ts, DoubledInFields(fields))
    decreases |ts|, 19
  {
    if HeadIs(ts, CloseBrace) then Read(fields, ts[1..])
    else if |ts| < 3 || ts[0] != Dot || !ts[1].Word? || ts[2] != Assign then Wrong
    else match Expression(ts[3..])
      case Wrong => Wrong
      case Read(t, rest) =>
        SkipThree(ts);
        DoubledInFieldsSnoc(fields, Field(ts[1].text, t));
        if HeadIs(rest, CloseBrace) then Read(fields + [Field(ts[1].text, t)], rest[1..])
        else if HeadIs(rest, Comma) then Fields(fields + [Field(ts[1].text, t)], rest[1..])
        else Wrong
  }

  function UnaryExpression(ts: seq<Token>): (r: Reading<Tree>)
    ensures Takes(r, ts, 0, 1)
    decreases |ts|, 2
  {
    if HeadIs(ts, MinusSign) then After(Negation, Cast(ts[1..]))
    else if HeadIs(ts, Bang) then After(Complement, Cast(ts[1..]))
    else if HeadIs(ts, Star) then After(Indirection, Cast(ts[1..]))
    else if HeadIs(ts, Ampersand) then After(Address, Cast(ts[1..]))
    else if HeadIs(ts, MinusMinus) then Decremented(UnaryExpression(ts[1..]))
    else Postfix(ts)
  }

  function After(p: Prefix, r: Reading<Tree>): Reading<Tree> {
    match r
    case Read(t, rest) => Read(Prefixed(p, t), rest)
    case Wrong => Wrong
  }

  function Decremented(r: Reading<Tree>): Reading<Tree> {
    match r
    case Read(t, rest) => Read(PreDecrement(t), rest)
    case Wrong => Wrong
  }

  predicate CastAhead(ts: seq<Token>) {
    |ts| > 2 && ts[0] == Open && ts[1].TypeName? && ts[2] == Close
  }

  function Cast(ts: seq<Token>): (r: Reading<Tree>)
    ensures Takes(r, ts, 0, 1)
    decreases |ts|, 3
  {
    if CastAhead(ts) && !LiteralAhead(ts) then
      SkipThree(ts);
      After(CastTo(ts[1].text), Cast(ts[3..]))
    else UnaryExpression(ts)
  }

  lemma SkipThree(ts: seq<Token>)
    requires |ts| > 2 && DoubledToken(ts[0]) == DoubledToken(ts[1]) == DoubledToken(ts[2]) == 0
    ensures DoubledTokens(ts) == DoubledTokens(ts[3..])
  {
    var first, second := ts[1..], ts[2..];
    assert second[1..] == ts[3..] && second[0] == ts[2];
    assert DoubledTokens(second) == DoubledTokens(ts[3..]);
    assert first[1..] == second && first[0] == ts[1];
    assert DoubledTokens(first) == DoubledTokens(second);
  }

  /** One rung of the binary operators; the rungs are those of the source language. */
  function Rung(level: nat, ts: seq<Token>): (r: Reading<Tree>)
    ensures Takes(r, ts, 0, 1)
    decreases |ts|, 4 + level
  {
    if level < 2 then Cast(ts)
    else match Rung(level - 1, ts)
      case Read(t, rest) => Operators(level, t, rest)
      case Wrong => Wrong
  }

  /** The operators of one rung after a first operand, taken from the left. */
  function Operators(level: nat, t: Tree, ts: seq<Token>): (r: Reading<Tree>)
    requires level >= 2
    ensures Takes(r, ts, Doubled(t), 0)
    decreases |ts|, 0
  {
    if OperatorAt(ts, level) then
      match Rung(level - 1, ts[1..])
      case Read(u, rest) => Operators(level, Infix(t, ts[0].op, u), rest)
      case Wrong => Wrong
    else Read(t, ts)
  }

  predicate OperatorAt(ts: seq<Token>, level: nat) {
    ts != [] && ts[0].Sign? && Grammar.Rung(ts[0].op) == level
  }

  function Expression(ts: seq<Token>): (r: Reading<Tree>)
    ensures Takes(r, ts, 0, 1)
    decreases |ts|, 18
  {
    Rung(Grammar.TOP, ts)
  }

  /** What C makes of a whole expression. */
  function Meaning(ts: seq<Token>): Reading<Tree> {
    Expression(Lex(ts))
  }
}
