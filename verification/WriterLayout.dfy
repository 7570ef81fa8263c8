/**
  The code generator's layout of expressions as C: brackets around the operands of binary operators and nowhere else.
  What C reads from it, and when that is the expression that was written.
*/
module WriterLayout {
  import Grammar
  import opened Sequences
  import opened CGrammar

  datatype StringOperator = Join | Same | Different

  /** A checked expression, with what the checker found out about types where the layout depends on it.  Ranges,
      closures, pipelines and string literals are written as calls of a named function, and null and characters as
      integers. */
  datatype Expr =
    | Integer(value: nat)
    | Boolean(flag: bool)
    | Name(name: string)
    | Binary(lhs: Expr, op: Operator, rhs: Expr)
    | Strings(first: Expr, how: StringOperator, second: Expr)
    | Unary(sign: Grammar.UnaryOperator, operand: Expr)
    | AddressOf(addressed: Expr)
    | Dereference(pointer: Expr)
    | Conversion(to: string, converted: Expr)
    | Access(accessed: Expr, byPointer: bool, field: string)
    | Call(called: Expr, bare: bool, arguments: seq<Expr>)
    | Element(of: string, vector: Expr, index: Expr)
    | Character(text: Expr, index: Expr)
    | StructLiteral(of: string, pairs: seq<Pair>)

  /** A field of a struct or tuple literal. */
  datatype Pair = Pair(field: string, value: Expr)

  // ---------------------------------------------------------------- the layout

  const CONTEXT := "ey_execution_context"

  function StringFunction(how: StringOperator): string {
    if how.Join? then "ey_runtime_string_join" else "ey_runtime_string_equality"
  }

  function TruthName(b: bool): string {
    if b then "k_true" else "k_false"
  }

  function PrefixFor(sign: Grammar.UnaryOperator): Prefix {
    if sign.OpNot? then Complement else Negation
  }

  /** A prefix operator, written directly before `rest`. */
  function PrefixToken(p: Prefix, rest: seq<Token>): seq<Token> {
    match p
    case Negation => [MinusSign] + rest
    case Complement => [Bang] + rest
    case Indirection => [Star] + rest
    case Address => [Ampersand] + rest
    case CastTo(T) => [Open, TypeName(T), Close] + rest
  }

  /** The tokens of `e` followed by `rest`.  A prefix operator has no space after it, so that two may run together. */
  function Layout(e: Expr, rest: seq<Token>): seq<Token>
    decreases e
  {
    match e
    case Integer(v) => [Digits(v)] + rest
    case Boolean(b) => [Word(TruthName(b))] + rest
    case Name(x) => [Word(x)] + rest
    case Binary(l, op, r) => [Open] + Layout(l, [Close] + ([Sign(op)] + ([Open] + Layout(r, [Close] + rest))))
    case Strings(l, how, r) =>
      var call := Opened(StringFunction(how), Layout(l, [Comma] + Layout(r, [Close] + ([Close] + rest))));
      [Open] + if how.Different? then PrefixToken(Complement, call) else call
    case Unary(sign, x) => PrefixToken(PrefixFor(sign), Layout(x, rest))
    case AddressOf(x) => PrefixToken(Address, Layout(x, rest))
    case Dereference(x) => PrefixToken(Indirection, Layout(x, rest))
    case Conversion(T, x) => PrefixToken(CastTo(T), Layout(x, rest))
    case Access(a, byPointer, field) => Layout(a, [if byPointer then Arrow else Dot, Word(field)] + rest)
    case Call(f, bare, args) => Layout(f, [Open] + LayoutArguments(bare, args, rest))
    case Element(T, v, i) =>
      PrefixToken(Indirection,
                  PrefixToken(CastTo(T + "*"),
                              Opened("ey_vector_access", Layout(v, [Comma] + Layout(i, [Close] + rest)))))
    case Character(s, i) =>
      Opened("ey_runtime_string_get_character", Layout(s, [Comma] + Layout(i, [Close] + rest)))
    case StructLiteral(T, pairs) => LiteralHead(T, LayoutPairs(pairs, true, rest))
  }

  function LiteralHead(T: string, rest: seq<Token>): seq<Token> {
    [Open, TypeName(T), Close] + ([OpenBrace] + rest)
  }

  /** Each with a comma before it, but for the first. */
  function LayoutPairs(pairs: seq<Pair>, first: bool, rest: seq<Token>): seq<Token>
    decreases pairs
  {
    if pairs == [] then [CloseBrace] + rest
    else
      var pair := NamedField(pairs[0].field, Layout(pairs[0].value, LayoutPairs(pairs[1..], false, rest)));
      if first then pair else [Comma] + pair
  }

  function NamedField(field: string, rest: seq<Token>): seq<Token> {
    [Dot, Word(field), Assign] + rest
  }

  /** The start of a runtime call with arguments of its own. */
  function Opened(name: string, rest: seq<Token>): seq<Token> {
    [Word(name)] + ([Open] + ([Word(CONTEXT)] + ([Comma] + rest)))
  }

  function LayoutArguments(bare: bool, args: seq<Expr>, rest: seq<Token>): seq<Token>
    decreases args, 1
  {
    if !bare then [Word(CONTEXT)] + LayoutMore(args, rest)
    else if args == [] then [Close] + rest
    else Layout(args[0], LayoutMore(args[1..], rest))
  }

  /** Each with a comma before it. */
  function LayoutMore(args: seq<Expr>, rest: seq<Token>): seq<Token>
    decreases args, 0
  {
    if args == [] then [Close] + rest else [Comma] + Layout(args[0], LayoutMore(args[1..], rest))
  }

  // ---------------------------------------------------------------- the tree that is meant

  function Lower(e: Expr): Tree
    decreases e
  {
    match e
    case Integer(v) => Constant(v)
    case Boolean(b) => Id(TruthName(b))
    case Name(x) => Id(x)
    case Binary(l, op, r) => Infix(Lower(l), op, Lower(r))
    case Strings(l, how, r) => Stringed(how, Lower(l), Lower(r))
    case Unary(sign, x) => Prefixed(PrefixFor(sign), Lower(x))
    case AddressOf(x) => Prefixed(Address, Lower(x))
    case Dereference(x) => Prefixed(Indirection, Lower(x))
    case Conversion(T, x) => Prefixed(CastTo(T), Lower(x))
    case Access(a, byPointer, field) => Member(Lower(a), byPointer, field)
    case Call(f, bare, args) => Apply(Lower(f), Given(bare, LowerAll(args)))
    case Element(T, v, i) =>
      Prefixed(Indirection, Prefixed(CastTo(T + "*"), Runtime("ey_vector_access", Lower(v), Lower(i))))
    case Character(s, i) => Runtime("ey_runtime_string_get_character", Lower(s), Lower(i))
    case StructLiteral(T, pairs) => Compound(T, LowerPairs(pairs))
  }

  function LowerPairs(pairs: seq<Pair>): (fields: seq<Field>)
    ensures |fields| == |pairs|
    decreases pairs
  {
    if pairs == [] then [] else [Field(pairs[0].field, Lower(pairs[0].value))] + LowerPairs(pairs[1..])
  }

  function LowerAll(es: seq<Expr>): (ts: seq<Tree>)
    ensures |ts| == |es|
    decreases es
  {
    if es == [] then [] else [Lower(es[0])] + LowerAll(es[1..])
  }

  function Runtime(name: string, a: Tree, b: Tree): Tree {
    Apply(Id(name), [Id(CONTEXT), a, b])
  }

  function Stringed(how: StringOperator, l: Tree, r: Tree): Tree {
    var call := Runtime(StringFunction(how), l, r);
    if how.Different? then Prefixed(Complement, call) else call
  }

  function Given(bare: bool, args: seq<Tree>): seq<Tree> {
    if bare then args else [Id(CONTEXT)] + args
  }

  // ---------------------------------------------------------------- when it is read back

  /** The layout begins with a prefix operator. */
  predicate Signed(e: Expr) {
    e.Unary? || e.AddressOf? || e.Dereference? || e.Conversion? || e.Element?
  }

  /** No binary operator is directly under a prefix operator, an access or a call, and no prefix operator or element
      of a vector directly under an access or a call. */
  predicate Attached(e: Expr)
    decreases e
  {
    match e
    case Integer(_) => true
    case Boolean(_) => true
    case Name(_) => true
    case Binary(l, _, r) => Attached(l) && Attached(r)
    case Strings(l, _, r) => Attached(l) && Attached(r)
    case Unary(_, x) => Attached(x) && !x.Binary?
    case AddressOf(x) => Attached(x) && !x.Binary?
    case Dereference(x) => Attached(x) && !x.Binary?
    case Conversion(_, x) => Attached(x) && !x.Binary?
    case Access(a, _, _) => Attached(a) && !a.Binary? && !Signed(a)
    case Call(f, _, args) => Attached(f) && !f.Binary? && !Signed(f) && AllAttached(args)
    case Element(_, v, i) => Attached(v) && Attached(i)
    case Character(s, i) => Attached(s) && Attached(i)
    case StructLiteral(_, pairs) => PairsAttached(pairs)
  }

  predicate PairsAttached(pairs: seq<Pair>)
    decreases pairs
  {
    pairs == [] || (Attached(pairs[0].value) && PairsAttached(pairs[1..]))
  }

  predicate AllAttached(es: seq<Expr>)
    decreases es
  {
    es == [] || (Attached(es[0]) && AllAttached(es[1..]))
  }

  predicate Negated(e: Expr) {
    e.Unary? && e.sign.OpNegate?
  }

  /** No negation is directly under a negation, and no address under an address. */
  predicate SignsApart(e: Expr)
    decreases e
  {
    match e
    case Integer(_) => true
    case Boolean(_) => true
    case Name(_) => true
    case Binary(l, _, r) => SignsApart(l) && SignsApart(r)
    case Strings(l, _, r) => SignsApart(l) && SignsApart(r)
    case Unary(sign, x) => SignsApart(x) && !(sign.OpNegate? && Negated(x))
    case AddressOf(x) => SignsApart(x) && !x.AddressOf?
    case Dereference(x) => SignsApart(x)
    case Conversion(_, x) => SignsApart(x)
    case Access(a, _, _) => SignsApart(a)
    case Call(f, _, args) => SignsApart(f) && AllSignsApart(args)
    case Element(_, v, i) => SignsApart(v) && SignsApart(i)
    case Character(s, i) => SignsApart(s) && SignsApart(i)
    case StructLiteral(_, pairs) => PairsApart(pairs)
  }

  predicate PairsApart(pairs: seq<Pair>)
    decreases pairs
  {
    pairs == [] || (SignsApart(pairs[0].value) && PairsApart(pairs[1..]))
  }

  predicate AllSignsApart(es: seq<Expr>)
    decreases es
  {
    es == [] || (SignsApart(es[0]) && AllSignsApart(es[1..]))
  }

  // ---------------------------------------------------------------- what C attaches to what

  /** What may follow an operand, with its contents as read. */
  datatype Suffix = MemberSuffix(arrow: bool, field: string) | CallSuffix(arguments: seq<Tree>)

  function Extend(t: Tree, s: Suffix): Tree {
    match s
    case MemberSuffix(arrow, field) => Member(t, arrow, field)
    case CallSuffix(args) => Apply(t, args)
  }

  function ExtendAll(t: Tree, ss: seq<Suffix>): Tree
    decreases |ss|
  {
    if ss == [] then t else ExtendAll(Extend(t, ss[0]), ss[1..])
  }

  /** The prefix operators `ps`, outermost first, around `t`. */
  function Wrap(ps: seq<Prefix>, t: Tree): Tree
    decreases |ps|
  {
    if ps == [] then t else Prefixed(ps[0], Wrap(ps[1..], t))
  }

  /** What is read from the layout of `e` with the prefix operators `ps` before it and the suffixes `ss` after it.
      Both attach to the nearest operand, not to `e` as a whole. */
  function Reread(e: Expr, ps: seq<Prefix>, ss: seq<Suffix>): Tree
    decreases e
  {
    match e
    case Integer(v) => Wrap(ps, ExtendAll(Constant(v), ss))
    case Boolean(b) => Wrap(ps, ExtendAll(Id(TruthName(b)), ss))
    case Name(x) => Wrap(ps, ExtendAll(Id(x), ss))
    case Binary(l, op, r) => Infix(Wrap(ps, Reread(l, [], [])), op, ExtendAll(Reread(r, [], []), ss))
    case Strings(l, how, r) => Wrap(ps, ExtendAll(Stringed(how, Reread(l, [], []), Reread(r, [], [])), ss))
    case Unary(sign, x) => Reread(x, ps + [PrefixFor(sign)], ss)
    case AddressOf(x) => Reread(x, ps + [Address], ss)
    case Dereference(x) => Reread(x, ps + [Indirection], ss)
    case Conversion(T, x) => Reread(x, ps + [CastTo(T)], ss)
    case Access(a, byPointer, field) => Reread(a, ps, [MemberSuffix(byPointer, field)] + ss)
    case Call(f, bare, args) => Reread(f, ps, [CallSuffix(Given(bare, RereadAll(args)))] + ss)
    case Element(T, v, i) =>
      Wrap(ps + [Indirection, CastTo(T + "*")],
           ExtendAll(Runtime("ey_vector_access", Reread(v, [], []), Reread(i, [], [])), ss))
    case Character(s, i) =>
      Wrap(ps, ExtendAll(Runtime("ey_runtime_string_get_character", Reread(s, [], []), Reread(i, [], [])), ss))
    case StructLiteral(T, pairs) => Wrap(ps, ExtendAll(Compound(T, RereadPairs(pairs)), ss))
  }

  function RereadPairs(pairs: seq<Pair>): (fields: seq<Field>)
    ensures |fields| == |pairs|
    decreases pairs
  {
    if pairs == [] then [] else [Field(pairs[0].field, Reread(pairs[0].value, [], []))] + RereadPairs(pairs[1..])
  }

  function RereadAll(es: seq<Expr>): (ts: seq<Tree>)
    ensures |ts| == |es|
    decreases es
  {
    if es == [] then [] else [Reread(es[0], [], [])] + RereadAll(es[1..])
  }

  // ---------------------------------------------------------------- it is what was meant only if attached

  lemma {:induction false} ExtendAllInjective(t: Tree, ss: seq<Suffix>, u: Tree, meant: seq<Suffix>)
    requires |ss| == |meant| && ExtendAll(t, ss) == ExtendAll(u, meant)
    ensures t == u && ss == meant
    decreases |ss|
  {
    hide Extend;
    if ss != [] {
      ExtendAllInjective(Extend(t, ss[0]), ss[1..], Extend(u, meant[0]), meant[1..]);
      ExtendInjective(t, ss[0], u, meant[0]);
      SameHeadSameTail(ss, meant);
    }
  }

  lemma ExtendInjective(t: Tree, s: Suffix, u: Tree, v: Suffix)
    requires Extend(t, s) == Extend(u, v)
    ensures t == u && s == v
  {
  }

  lemma SameHeadSameTail<T>(ss: seq<T>, ts: seq<T>)
    requires ss != [] && ts != [] && ss[0] == ts[0] && ss[1..] == ts[1..]
    ensures ss == ts
  {
    assert ss == [ss[0]] + ss[1..] && ts == [ts[0]] + ts[1..];
  }

  lemma {:induction false} WrapInjective(ps: seq<Prefix>, t: Tree, u: Tree)
    requires Wrap(ps, t) == Wrap(ps, u)
    ensures t == u
    decreases |ps|
  {
    if ps != [] {
      WrapInjective(ps[1..], t, u);
    }
  }

  lemma {:induction false} WrapMore(ps: seq<Prefix>, more: seq<Prefix>, t: Tree)
    ensures Wrap(ps + more, t) == Wrap(ps, Wrap(more, t))
    decreases |ps|
  {
    if ps == [] {
      assert ps + more == more;
    } else {
      assert (ps + more)[1..] == ps[1..] + more;
      WrapMore(ps[1..], more, t);
    }
  }

  lemma WrapOne(ps: seq<Prefix>, p: Prefix, t: Tree)
    ensures Wrap(ps + [p], t) == Wrap(ps, Prefixed(p, t))
  {
    WrapMore(ps, [p], t);
    assert [p][1..] == [];
  }

  lemma WrapTwo(ps: seq<Prefix>, p: Prefix, q: Prefix, t: Tree)
    ensures Wrap(ps + [p, q], t) == Wrap(ps, Prefixed(p, Prefixed(q, t)))
  {
    WrapMore(ps, [p, q], t);
    WrapMore([p], [q], t);
    assert [p] + [q] == [p, q] && [p][1..] == [] && [q][1..] == [];
    assert Wrap([q], t) == Prefixed(q, t);
  }

  /** The prefix operators around a tree. */
  function Depth(t: Tree): nat {
    if t.Prefixed? then 1 + Depth(t.operand) else 0
  }

  lemma {:induction false} WrapDepth(ps: seq<Prefix>, t: Tree)
    ensures Depth(Wrap(ps, t)) == |ps| + Depth(t)
    decreases |ps|
  {
    if ps != [] {
      WrapDepth(ps[1..], t);
    }
  }

  lemma {:induction false} ExtendedIsSuffixed(t: Tree, ss: seq<Suffix>)
    requires ss != []
    ensures var u := ExtendAll(t, ss); u.Member? || u.Apply?
    decreases |ss|
  {
    if |ss| > 1 {
      ExtendedIsSuffixed(Extend(t, ss[0]), ss[1..]);
    }
  }

  /** Prefix operators stay outside, or else go to the left operand of a binary operator. */
  lemma {:induction false} PrefixesStayOutside(e: Expr, ps: seq<Prefix>, ss: seq<Suffix>)
    ensures var t := Reread(e, ps, ss); t.Infix? || Depth(t) >= |ps|
    decreases e
  {
    hide Wrap, ExtendAll, Depth, RereadAll;
    match e
    case Integer(v) => WrapDepth(ps, ExtendAll(Constant(v), ss));
    case Boolean(b) => WrapDepth(ps, ExtendAll(Id(TruthName(b)), ss));
    case Name(x) => WrapDepth(ps, ExtendAll(Id(x), ss));
    case Binary(_, _, _) =>
    case Strings(l, how, r) =>
      WrapDepth(ps, ExtendAll(Stringed(how, Reread(l, [], []), Reread(r, [], [])), ss));
    case Unary(sign, x) => PrefixesStayOutside(x, ps + [PrefixFor(sign)], ss);
    case AddressOf(x) => PrefixesStayOutside(x, ps + [Address], ss);
    case Dereference(x) => PrefixesStayOutside(x, ps + [Indirection], ss);
    case Conversion(T, x) => PrefixesStayOutside(x, ps + [CastTo(T)], ss);
    case Access(a, byPointer, field) => PrefixesStayOutside(a, ps, [MemberSuffix(byPointer, field)] + ss);
    case Call(f, bare, args) => PrefixesStayOutside(f, ps, [CallSuffix(Given(bare, RereadAll(args)))] + ss);
    case Element(T, v, i) =>
      WrapDepth(ps + [Indirection, CastTo(T + "*")],
                ExtendAll(Runtime("ey_vector_access", Reread(v, [], []), Reread(i, [], [])), ss));
    case Character(s, i) =>
      WrapDepth(ps, ExtendAll(Runtime("ey_runtime_string_get_character", Reread(s, [], []), Reread(i, [], [])), ss));
    case StructLiteral(T, pairs) => WrapDepth(ps, ExtendAll(Compound(T, RereadPairs(pairs)), ss));
  }

  /** What is wrapped by `ps` and extended by `meant` has no more prefix operators outside than `ps`. */
  lemma DepthMeant(ps: seq<Prefix>, t: Tree, meant: seq<Suffix>)
    ensures meant != [] ==> Depth(Wrap(ps, ExtendAll(t, meant))) == |ps|
    ensures Wrap(ps, ExtendAll(t, meant)).Infix? ==> ps == [] && meant == []
  {
    WrapDepth(ps, ExtendAll(t, meant));
    if meant != [] {
      ExtendedIsSuffixed(t, meant);
    }
  }

  /** If what is read is `e` with its prefix operators outside and its suffixes after it, `e` is attached. */
  lemma {:induction false} RereadIsAttached(e: Expr, ps: seq<Prefix>, ss: seq<Suffix>, meant: seq<Suffix>)
    requires |meant| == |ss| && Reread(e, ps, ss) == Wrap(ps, ExtendAll(Lower(e), meant))
    ensures Attached(e) && meant == ss
    ensures e.Binary? ==> ps == [] && ss == []
    ensures Signed(e) ==> ss == []
    decreases e, 0
  {
    hide Wrap, ExtendAll, Depth, RereadAll, LowerAll, RereadPairs, LowerPairs, Stringed, Runtime, Given;
    DepthMeant(ps, Lower(e), meant);
    match e
    case Integer(v) => TerminalIsAttached(Constant(v), ps, ss, meant);
    case Boolean(b) => TerminalIsAttached(Id(TruthName(b)), ps, ss, meant);
    case Name(x) => TerminalIsAttached(Id(x), ps, ss, meant);
    case Binary(l, op, r) =>
      NoneAttached(Lower(e));
      NoneAttached(Reread(l, [], []));
      NoneAttached(Reread(r, [], []));
      OperandIsAttached(l);
      OperandIsAttached(r);
    case Strings(l, how, r) =>
      var was, got := Stringed(how, Lower(l), Lower(r)), Stringed(how, Reread(l, [], []), Reread(r, [], []));
      BaseIsAttached(got, was, ps, ss, meant);
      StringedInjective(how, Lower(l), Lower(r), Reread(l, [], []), Reread(r, [], []));
      OperandIsAttached(l);
      OperandIsAttached(r);
    case Unary(sign, x) => PrefixIsAttached(PrefixFor(sign), x, ps, ss, meant);
    case AddressOf(x) => PrefixIsAttached(Address, x, ps, ss, meant);
    case Dereference(x) => PrefixIsAttached(Indirection, x, ps, ss, meant);
    case Conversion(T, x) => PrefixIsAttached(CastTo(T), x, ps, ss, meant);
    case Access(a, byPointer, field) =>
      var s := MemberSuffix(byPointer, field);
      ExtendFirst(Lower(a), s, meant);
      RereadIsAttached(a, ps, [s] + ss, [s] + meant);
      SameTail(s, ss, s, meant);
    case Call(f, bare, args) =>
      var s, m := CallSuffix(Given(bare, RereadAll(args))), CallSuffix(Given(bare, LowerAll(args)));
      ExtendFirst(Lower(f), m, meant);
      RereadIsAttached(f, ps, [s] + ss, [m] + meant);
      SameTail(s, ss, m, meant);
      GivenInjective(bare, RereadAll(args), LowerAll(args));
      ArgumentsAreAttached(args);
    case Element(T, v, i) =>
      var was := Runtime("ey_vector_access", Lower(v), Lower(i));
      var got := Runtime("ey_vector_access", Reread(v, [], []), Reread(i, [], []));
      WrapDepth(ps + [Indirection, CastTo(T + "*")], ExtendAll(got, ss));
      assert meant == [] && ss == [];
      NoneAttached(Lower(e));
      WrapTwo(ps, Indirection, CastTo(T + "*"), was);
      NoneAttached(got);
      NoneAttached(was);
      BaseIsAttached(got, was, ps + [Indirection, CastTo(T + "*")], [], []);
      RuntimeInjective("ey_vector_access", Lower(v), Lower(i), Reread(v, [], []), Reread(i, [], []));
      OperandIsAttached(v);
      OperandIsAttached(i);
    case Character(s, i) =>
      var name := "ey_runtime_string_get_character";
      var was, got := Runtime(name, Lower(s), Lower(i)), Runtime(name, Reread(s, [], []), Reread(i, [], []));
      BaseIsAttached(got, was, ps, ss, meant);
      RuntimeInjective(name, Lower(s), Lower(i), Reread(s, [], []), Reread(i, [], []));
      OperandIsAttached(s);
      OperandIsAttached(i);
    case StructLiteral(T, pairs) =>
      BaseIsAttached(Compound(T, RereadPairs(pairs)), Compound(T, LowerPairs(pairs)), ps, ss, meant);
      PairsAreAttached(pairs);
  }

  lemma {:induction false} PairsAreAttached(pairs: seq<Pair>)
    requires RereadPairs(pairs) == LowerPairs(pairs)
    ensures PairsAttached(pairs)
    decreases pairs
  {
    if pairs != [] {
      var was, got := LowerPairs(pairs), RereadPairs(pairs);
      assert was[0].value == Lower(pairs[0].value) && got[0].value == Reread(pairs[0].value, [], []);
      assert was[1..] == LowerPairs(pairs[1..]) && got[1..] == RereadPairs(pairs[1..]);
      OperandIsAttached(pairs[0].value);
      PairsAreAttached(pairs[1..]);
    }
  }

  lemma TerminalIsAttached(t: Tree, ps: seq<Prefix>, ss: seq<Suffix>, meant: seq<Suffix>)
    requires |meant| == |ss| && Wrap(ps, ExtendAll(t, ss)) == Wrap(ps, ExtendAll(t, meant))
    ensures meant == ss
  {
    BaseIsAttached(t, t, ps, ss, meant);
  }

  lemma BaseIsAttached(got: Tree, was: Tree, ps: seq<Prefix>, ss: seq<Suffix>, meant: seq<Suffix>)
    requires |meant| == |ss| && Wrap(ps, ExtendAll(got, ss)) == Wrap(ps, ExtendAll(was, meant))
    ensures meant == ss && got == was
  {
    WrapInjective(ps, ExtendAll(got, ss), ExtendAll(was, meant));
    ExtendAllInjective(got, ss, was, meant);
  }

  lemma NoneAttached(t: Tree)
    ensures ExtendAll(t, []) == t && Wrap([], t) == t
  {
  }

  lemma {:induction false} OperandIsAttached(e: Expr)
    requires Reread(e, [], []) == Lower(e)
    ensures Attached(e)
    decreases e, 1
  {
    NoneAttached(Lower(e));
    RereadIsAttached(e, [], [], []);
  }

  lemma {:induction false} PrefixIsAttached(p: Prefix, x: Expr, ps: seq<Prefix>, ss: seq<Suffix>, meant: seq<Suffix>)
    requires |meant| == |ss| && Reread(x, ps + [p], ss) == Wrap(ps, ExtendAll(Prefixed(p, Lower(x)), meant))
    ensures Attached(x) && !x.Binary? && ss == [] && meant == []
    decreases x, 1
  {
    hide Wrap, ExtendAll, Depth;
    PrefixesStayOutside(x, ps + [p], ss);
    DepthMeant(ps, Prefixed(p, Lower(x)), meant);
    WrapOne(ps, p, Lower(x));
    NoneAttached(Lower(x));
    NoneAttached(Prefixed(p, Lower(x)));
    if meant == [] {
      RereadIsAttached(x, ps + [p], [], []);
    }
  }

  lemma {:induction false} ArgumentsAreAttached(es: seq<Expr>)
    requires RereadAll(es) == LowerAll(es)
    ensures AllAttached(es)
    decreases es
  {
    if es != [] {
      var was, got := LowerAll(es), RereadAll(es);
      assert was[0] == Lower(es[0]) && got[0] == Reread(es[0], [], []);
      assert was[1..] == LowerAll(es[1..]) && got[1..] == RereadAll(es[1..]);
      OperandIsAttached(es[0]);
      ArgumentsAreAttached(es[1..]);
    }
  }

  lemma ExtendFirst(t: Tree, s: Suffix, ss: seq<Suffix>)
    ensures ExtendAll(t, [s] + ss) == ExtendAll(Extend(t, s), ss)
  {
    assert ([s] + ss)[1..] == ss;
  }

  lemma SameTail<T>(s: T, ss: seq<T>, t: T, ts: seq<T>)
    requires [s] + ss == [t] + ts
    ensures s == t && ss == ts
  {
    assert ([s] + ss)[0] == s && ([t] + ts)[0] == t;
    assert ([s] + ss)[1..] == ss && ([t] + ts)[1..] == ts;
  }

  lemma GivenInjective(bare: bool, ss: seq<Tree>, ts: seq<Tree>)
    requires Given(bare, ss) == Given(bare, ts)
    ensures ss == ts
  {
    if !bare {
      SameTail(Id(CONTEXT), ss, Id(CONTEXT), ts);
    }
  }

  lemma RuntimeInjective(name: string, a: Tree, b: Tree, c: Tree, d: Tree)
    requires Runtime(name, a, b) == Runtime(name, c, d)
    ensures a == c && b == d
  {
    assert [Id(CONTEXT), a, b][1] == [Id(CONTEXT), c, d][1];
    assert [Id(CONTEXT), a, b][2] == [Id(CONTEXT), c, d][2];
  }

  lemma StringedInjective(how: StringOperator, a: Tree, b: Tree, c: Tree, d: Tree)
    requires Stringed(how, a, b) == Stringed(how, c, d)
    ensures a == c && b == d
  {
    RuntimeInjective(StringFunction(how), a, b, c, d);
  }

  /** An attached expression is read with its prefix operators outside and its suffixes after it. */
  lemma {:induction false} AttachedIsMeant(e: Expr, ps: seq<Prefix>, ss: seq<Suffix>)
    requires Attached(e)
    requires e.Binary? ==> ps == [] && ss == []
    requires Signed(e) ==> ss == []
    ensures Reread(e, ps, ss) == Wrap(ps, ExtendAll(Lower(e), ss))
    decreases e, 0
  {
    hide Wrap, ExtendAll, RereadAll, LowerAll, RereadPairs, LowerPairs, Stringed, Runtime, Given;
    match e
    case Integer(v) =>
    case Boolean(b) =>
    case Name(x) =>
    case Binary(l, op, r) =>
      OperandIsMeant(l);
      OperandIsMeant(r);
      NoneAttached(Lower(l));
      NoneAttached(Lower(r));
      NoneAttached(Lower(e));
    case Strings(l, how, r) =>
      OperandIsMeant(l);
      OperandIsMeant(r);
    case Unary(sign, x) => PrefixIsMeant(PrefixFor(sign), x, ps);
    case AddressOf(x) => PrefixIsMeant(Address, x, ps);
    case Dereference(x) => PrefixIsMeant(Indirection, x, ps);
    case Conversion(T, x) => PrefixIsMeant(CastTo(T), x, ps);
    case Access(a, byPointer, field) =>
      AttachedIsMeant(a, ps, [MemberSuffix(byPointer, field)] + ss);
      ExtendFirst(Lower(a), MemberSuffix(byPointer, field), ss);
    case Call(f, bare, args) =>
      ArgumentsAreMeant(args);
      var s := CallSuffix(Given(bare, LowerAll(args)));
      AttachedIsMeant(f, ps, [s] + ss);
      ExtendFirst(Lower(f), s, ss);
    case Element(T, v, i) =>
      OperandIsMeant(v);
      OperandIsMeant(i);
      var call := Runtime("ey_vector_access", Lower(v), Lower(i));
      WrapTwo(ps, Indirection, CastTo(T + "*"), call);
      NoneAttached(call);
      NoneAttached(Lower(e));
    case Character(s, i) =>
      OperandIsMeant(s);
      OperandIsMeant(i);
    case StructLiteral(T, pairs) => PairsAreMeant(pairs);
  }

  lemma {:induction false} PairsAreMeant(pairs: seq<Pair>)
    requires PairsAttached(pairs)
    ensures RereadPairs(pairs) == LowerPairs(pairs)
    decreases pairs
  {
    if pairs != [] {
      OperandIsMeant(pairs[0].value);
      PairsAreMeant(pairs[1..]);
    }
  }

  lemma {:induction false} OperandIsMeant(e: Expr)
    requires Attached(e)
    ensures Reread(e, [], []) == Lower(e)
    decreases e, 1
  {
    AttachedIsMeant(e, [], []);
    NoneAttached(Lower(e));
  }

  lemma {:induction false} PrefixIsMeant(p: Prefix, x: Expr, ps: seq<Prefix>)
    requires Attached(x) && !x.Binary?
    ensures Reread(x, ps + [p], []) == Wrap(ps, ExtendAll(Prefixed(p, Lower(x)), []))
    decreases x, 1
  {
    AttachedIsMeant(x, ps + [p], []);
    WrapOne(ps, p, Lower(x));
    NoneAttached(Lower(x));
    NoneAttached(Prefixed(p, Lower(x)));
  }

  lemma {:induction false} ArgumentsAreMeant(es: seq<Expr>)
    requires AllAttached(es)
    ensures RereadAll(es) == LowerAll(es)
    decreases es
  {
    if es != [] {
      OperandIsMeant(es[0]);
      ArgumentsAreMeant(es[1..]);
    }
  }

  // ---------------------------------------------------------------- what C reads from the layout

  function Signs(ps: seq<Prefix>, ts: seq<Token>): seq<Token>
    decreases |ps|
  {
    if ps == [] then ts else PrefixToken(ps[0], Signs(ps[1..], ts))
  }

  lemma {:induction false} SignsMore(ps: seq<Prefix>, more: seq<Prefix>, ts: seq<Token>)
    ensures Signs(ps + more, ts) == Signs(ps, Signs(more, ts))
    decreases |ps|
  {
    if ps == [] {
      assert ps + more == more;
    } else {
      assert (ps + more)[1..] == ps[1..] + more;
      SignsMore(ps[1..], more, ts);
    }
  }

  lemma SignsOne(ps: seq<Prefix>, p: Prefix, ts: seq<Token>)
    ensures Signs(ps + [p], ts) == Signs(ps, PrefixToken(p, ts))
  {
    SignsMore(ps, [p], ts);
    assert [p][1..] == [];
  }

  lemma SignsTwo(ps: seq<Prefix>, p: Prefix, q: Prefix, ts: seq<Token>)
    ensures Signs(ps + [p, q], ts) == Signs(ps, PrefixToken(p, PrefixToken(q, ts)))
  {
    hide Signs, PrefixToken;
    assert ps + [p] + [q] == ps + [p, q];
    SignsOne(ps + [p], q, ts);
    SignsOne(ps, p, PrefixToken(q, ts));
  }

  lemma Behead(t: Token, rest: seq<Token>)
    ensures HeadIs([t] + rest, t) && ([t] + rest)[1..] == rest
  {
  }

  lemma OneByOne(t: Token, u: Token, v: Token, rest: seq<Token>)
    ensures [t, u, v] + rest == [t] + ([u] + ([v] + rest))
  {
  }

  lemma PrefixReads(p: Prefix, ts: seq<Token>, t: Tree, rest: seq<Token>)
    requires Cast(ts) == Read(t, rest)
    ensures Cast(PrefixToken(p, ts)) == Read(Prefixed(p, t), rest)
  {
    hide Postfix;
    var all := PrefixToken(p, ts);
    assert if p.CastTo? then all[3..] == ts else all[1..] == ts;
    if p.CastTo? {
      NothingAtBrace(ts);
    }
  }

  lemma NothingAtBrace(ts: seq<Token>)
    ensures HeadIs(ts, OpenBrace) ==> Cast(ts) == Wrong
  {
    if HeadIs(ts, OpenBrace) {
      assert Primary(ts) == Wrong;
      assert Postfix(ts) == Wrong;
    }
  }

  lemma {:induction false} SignsRead(ps: seq<Prefix>, ts: seq<Token>, t: Tree, rest: seq<Token>)
    requires Cast(ts) == Read(t, rest)
    ensures Cast(Signs(ps, ts)) == Read(Wrap(ps, t), rest)
    decreases |ps|
  {
    if ps != [] {
      SignsRead(ps[1..], ts, t, rest);
      PrefixReads(ps[0], Signs(ps[1..], ts), Wrap(ps[1..], t), rest);
    }
  }

  /** No operator of the rung or a lower one follows. */
  predicate Stops(rest: seq<Token>, level: nat) {
    rest != [] && rest[0].Sign? ==> Grammar.Rung(rest[0].op) > level
  }

  lemma {:induction false} Climb(from: nat, level: nat, ts: seq<Token>, t: Tree, rest: seq<Token>)
    requires from <= level && Rung(from, ts) == Read(t, rest) && Stops(rest, level)
    ensures Rung(level, ts) == Read(t, rest)
  {
    hide Cast;
    if from < level {
      Climb(from, level - 1, ts, t, rest);
    }
  }

  lemma ClimbUp(level: nat, ts: seq<Token>, t: Tree, rest: seq<Token>)
    requires Cast(ts) == Read(t, rest) && Stops(rest, level)
    ensures Rung(level, ts) == Read(t, rest)
  {
    hide Cast;
    Climb(0, level, ts, t, rest);
  }

  /** After any operand C reads the suffixes `ss` from `after` and stops at `rest`. */
  ghost predicate Follows(after: seq<Token>, ss: seq<Suffix>, rest: seq<Token>) {
    forall t {:trigger Suffixes(t, after)} :: Suffixes(t, after) == Read(ExtendAll(t, ss), rest)
  }

  predicate Delimits(rest: seq<Token>) {
    rest == [] || rest[0] == Close || rest[0] == Comma || rest[0] == CloseBrace
  }

  lemma NothingFollows(rest: seq<Token>)
    requires Delimits(rest) || rest[0].Sign?
    ensures Follows(rest, [], rest)
  {
  }

  lemma MemberFollows(byPointer: bool, field: string, after: seq<Token>, ss: seq<Suffix>, rest: seq<Token>)
    requires Follows(after, ss, rest)
    ensures Follows([if byPointer then Arrow else Dot, Word(field)] + after, [MemberSuffix(byPointer, field)] + ss,
                    rest)
  {
    hide Arguments;
    var ts := [if byPointer then Arrow else Dot, Word(field)] + after;
    assert ts[2..] == after;
    forall t
      ensures Suffixes(t, ts) == Read(ExtendAll(t, [MemberSuffix(byPointer, field)] + ss), rest)
    {
      assert Suffixes(t, ts) == Suffixes(Member(t, byPointer, field), after);
      ExtendFirst(t, MemberSuffix(byPointer, field), ss);
    }
  }

  lemma CallFollows(ts: seq<Token>, args: seq<Tree>, after: seq<Token>, ss: seq<Suffix>, rest: seq<Token>)
    requires Arguments(ts) == Read(args, after) && Follows(after, ss, rest)
    ensures Follows([Open] + ts, [CallSuffix(args)] + ss, rest)
  {
    hide Arguments;
    Behead(Open, ts);
    forall t
      ensures Suffixes(t, [Open] + ts) == Read(ExtendAll(t, [CallSuffix(args)] + ss), rest)
    {
      assert Suffixes(t, [Open] + ts) == Suffixes(Apply(t, args), after);
      ExtendFirst(t, CallSuffix(args), ss);
    }
  }

  /** Neither a prefix operator nor a cast begins here. */
  predicate StartsOperand(ts: seq<Token>) {
    ts != [] && (ts[0].Digits? || ts[0].Word? || (ts[0] == Open && |ts| > 1 && !ts[1].TypeName?))
  }

  lemma OperandReads(ts: seq<Token>, base: Tree, after: seq<Token>, ss: seq<Suffix>, rest: seq<Token>)
    requires StartsOperand(ts) && Primary(ts) == Read(base, after) && Follows(after, ss, rest)
    ensures Cast(ts) == Read(ExtendAll(base, ss), rest)
  {
    hide Primary, Suffixes;
    assert Postfix(ts) == Suffixes(base, after);
    assert UnaryExpression(ts) == Postfix(ts);
    assert Cast(ts) == UnaryExpression(ts);
  }

  lemma SignedReads(ps: seq<Prefix>, ts: seq<Token>, base: Tree, after: seq<Token>, ss: seq<Suffix>, rest: seq<Token>)
    requires StartsOperand(ts) && Primary(ts) == Read(base, after) && Follows(after, ss, rest)
    requires Stops(rest, Grammar.TOP)
    ensures Expression(Signs(ps, ts)) == Read(Wrap(ps, ExtendAll(base, ss)), rest)
  {
    hide Primary, Cast, Wrap, ExtendAll, Signs;
    OperandReads(ts, base, after, ss, rest);
    SignsRead(ps, ts, ExtendAll(base, ss), rest);
    ClimbUp(Grammar.TOP, Signs(ps, ts), Wrap(ps, ExtendAll(base, ss)), rest);
  }

  predicate Starts(ts: seq<Token>) {
    ts != [] && !ts[0].TypeName? && ts[0] != Close
  }

  lemma {:induction false} LayoutStarts(e: Expr, rest: seq<Token>)
    ensures Starts(Layout(e, rest))
    decreases e
  {
    match e
    case Access(a, byPointer, field) => LayoutStarts(a, [if byPointer then Arrow else Dot, Word(field)] + rest);
    case Call(f, bare, args) => LayoutStarts(f, [Open] + LayoutArguments(bare, args, rest));
    case _ =>
  }

  lemma BracketReads(ts: seq<Token>, t: Tree, after: seq<Token>)
    requires Starts(ts) && Expression(ts) == Read(t, [Close] + after)
    ensures StartsOperand([Open] + ts) && Primary([Open] + ts) == Read(t, after)
  {
    hide Expression;
    Behead(Open, ts);
    Behead(Close, after);
  }

  lemma WordReads(name: string, after: seq<Token>)
    ensures StartsOperand([Word(name)] + after) && Primary([Word(name)] + after) == Read(Id(name), after)
  {
    Behead(Word(name), after);
  }

  lemma WordAlone(name: string, rest: seq<Token>)
    requires Delimits(rest)
    ensures Expression([Word(name)] + rest) == Read(Id(name), rest)
  {
    WordReads(name, rest);
    NothingFollows(rest);
    SignedReads([], [Word(name)] + rest, Id(name), rest, [], rest);
  }

  /** A runtime call, up to its closing bracket. */
  lemma OpenedReads(name: string, first: seq<Token>, a: Tree, second: seq<Token>, b: Tree, after: seq<Token>,
                    ss: seq<Suffix>, rest: seq<Token>)
    requires Expression(first) == Read(a, [Comma] + second) && Expression(second) == Read(b, [Close] + after)
    requires Follows(after, ss, rest)
    ensures StartsOperand(Opened(name, first))
    ensures Cast(Opened(name, first)) == Read(ExtendAll(Runtime(name, a, b), ss), rest)
  {
    hide Primary, Cast, Suffixes, ExtendAll, Follows, Expression;
    var args := [Word(CONTEXT)] + ([Comma] + first);
    Behead(Word(CONTEXT), [Comma] + first);
    Behead(Comma, first);
    Behead(Comma, second);
    Behead(Close, after);
    WordAlone(CONTEXT, [Comma] + first);
    assert [Id(CONTEXT)] + [a] == [Id(CONTEXT), a] && [Id(CONTEXT), a] + [b] == [Id(CONTEXT), a, b];
    assert [] + [Id(CONTEXT)] == [Id(CONTEXT)];
    assert MoreArguments([Id(CONTEXT), a], second) == Read([Id(CONTEXT), a, b], after);
    assert MoreArguments([Id(CONTEXT)], first) == Read([Id(CONTEXT), a, b], after);
    assert Arguments(args) == Read([Id(CONTEXT), a, b], after);
    CallFollows(args, [Id(CONTEXT), a, b], after, ss, rest);
    WordReads(name, [Open] + args);
    OperandReads([Word(name)] + ([Open] + args), Id(name), [Open] + args,
                 [CallSuffix([Id(CONTEXT), a, b])] + ss, rest);
    ExtendFirst(Id(name), CallSuffix([Id(CONTEXT), a, b]), ss);
  }

  lemma RuntimeReads(ps: seq<Prefix>, name: string, first: seq<Token>, a: Tree, second: seq<Token>, b: Tree,
                     after: seq<Token>, ss: seq<Suffix>, rest: seq<Token>)
    requires Expression(first) == Read(a, [Comma] + second) && Expression(second) == Read(b, [Close] + after)
    requires Follows(after, ss, rest)
    requires Stops(rest, Grammar.TOP)
    ensures Expression(Signs(ps, Opened(name, first))) == Read(Wrap(ps, ExtendAll(Runtime(name, a, b), ss)), rest)
  {
    hide Cast, Wrap, ExtendAll, Signs, Expression, Opened, Runtime;
    OpenedReads(name, first, a, second, b, after, ss, rest);
    var t := ExtendAll(Runtime(name, a, b), ss);
    SignsRead(ps, Opened(name, first), t, rest);
    ClimbUp(Grammar.TOP, Signs(ps, Opened(name, first)), Wrap(ps, t), rest);
    assert Expression(Signs(ps, Opened(name, first))) == Rung(Grammar.TOP, Signs(ps, Opened(name, first))) by {
      Whole(Signs(ps, Opened(name, first)));
    }
  }

  lemma Whole(ts: seq<Token>)
    ensures Expression(ts) == Rung(Grammar.TOP, ts)
  {
  }

  /** The operands of a binary operator, each in brackets. */
  lemma InfixReads(ps: seq<Prefix>, first: seq<Token>, a: Tree, op: Operator, second: seq<Token>, b: Tree,
                   after: seq<Token>, ss: seq<Suffix>, rest: seq<Token>)
    requires Starts(first) && Starts(second) && Follows(after, ss, rest)
    requires Expression(first) == Read(a, [Close] + ([Sign(op)] + ([Open] + second)))
    requires Expression(second) == Read(b, [Close] + after)
    requires Stops(rest, Grammar.TOP)
    ensures Expression(Signs(ps, [Open] + first)) == Read(Infix(Wrap(ps, a), op, ExtendAll(b, ss)), rest)
  {
    hide Primary, Cast, Wrap, ExtendAll, Signs, Expression, Starts;
    var middle := [Sign(op)] + ([Open] + second);
    Behead(Sign(op), [Open] + second);
    BracketReads(first, a, middle);
    BracketReads(second, b, after);
    OperandReads([Open] + second, b, after, ss, rest);
    var level := Grammar.Rung(op);
    ClimbUp(level - 1, [Open] + second, ExtendAll(b, ss), rest);
    NothingFollows(middle);
    NoneAttached(a);
    OperandReads([Open] + first, a, middle, [], middle);
    var ts := Signs(ps, [Open] + first);
    SignsRead(ps, [Open] + first, a, middle);
    ClimbUp(level - 1, ts, Wrap(ps, a), middle);
    var t := Infix(Wrap(ps, a), op, ExtendAll(b, ss));
    assert Operators(level, t, rest) == Read(t, rest);
    assert Operators(level, Wrap(ps, a), middle) == Operators(level, t, rest);
    assert Rung(level, ts) == Operators(level, Wrap(ps, a), middle);
    Climb(level, Grammar.TOP, ts, t, rest);
    Whole(ts);
  }

  lemma {:induction false} LayoutReads(e: Expr, ps: seq<Prefix>, ss: seq<Suffix>, after: seq<Token>, rest: seq<Token>)
    requires Follows(after, ss, rest) && Stops(rest, Grammar.TOP)
    ensures Expression(Signs(ps, Layout(e, after))) == Read(Reread(e, ps, ss), rest)
    decreases e, 2
  {
    hide Primary, Cast, Wrap, ExtendAll, Signs, Expression, Starts, Follows, RereadAll, Opened, Runtime, Stops;
    match e
    case Integer(v) => IntegerReads(ps, v, ss, after, rest);
    case Boolean(b) =>
      WordReads(TruthName(b), after);
      SignedReads(ps, [Word(TruthName(b))] + after, Id(TruthName(b)), after, ss, rest);
    case Name(x) =>
      WordReads(x, after);
      SignedReads(ps, [Word(x)] + after, Id(x), after, ss, rest);
    case Binary(l, op, r) =>
      var second := Layout(r, [Close] + after);
      var middle := [Close] + ([Sign(op)] + ([Open] + second));
      LayoutStarts(l, middle);
      LayoutStarts(r, [Close] + after);
      InnerReads(l, middle);
      InnerReads(r, [Close] + after);
      InfixReads(ps, Layout(l, middle), Reread(l, [], []), op, second, Reread(r, [], []), after, ss, rest);
    case Strings(l, how, r) => StringsRead(e, ps, ss, after, rest);
    case Unary(sign, x) => PrefixedReads(PrefixFor(sign), x, ps, ss, after, rest);
    case AddressOf(x) => PrefixedReads(Address, x, ps, ss, after, rest);
    case Dereference(x) => PrefixedReads(Indirection, x, ps, ss, after, rest);
    case Conversion(T, x) => PrefixedReads(CastTo(T), x, ps, ss, after, rest);
    case Access(a, byPointer, field) =>
      MemberFollows(byPointer, field, after, ss, rest);
      LayoutReads(a, ps, [MemberSuffix(byPointer, field)] + ss,
                  [if byPointer then Arrow else Dot, Word(field)] + after, rest);
    case Call(f, bare, args) =>
      ArgumentsRead(bare, args, after);
      CallFollows(LayoutArguments(bare, args, after), Given(bare, RereadAll(args)), after, ss, rest);
      LayoutReads(f, ps, [CallSuffix(Given(bare, RereadAll(args)))] + ss, [Open] + LayoutArguments(bare, args, after),
                  rest);
    case Element(T, v, i) =>
      var second := Layout(i, [Close] + after);
      InnerReads(v, [Comma] + second);
      InnerReads(i, [Close] + after);
      var call := Opened("ey_vector_access", Layout(v, [Comma] + second));
      SignsTwo(ps, Indirection, CastTo(T + "*"), call);
      RuntimeReads(ps + [Indirection, CastTo(T + "*")], "ey_vector_access", Layout(v, [Comma] + second),
                   Reread(v, [], []), second, Reread(i, [], []), after, ss, rest);
    case Character(s, i) =>
      var second := Layout(i, [Close] + after);
      InnerReads(s, [Comma] + second);
      InnerReads(i, [Close] + after);
      RuntimeReads(ps, "ey_runtime_string_get_character", Layout(s, [Comma] + second),
                   Reread(s, [], []), second, Reread(i, [], []), after, ss, rest);
    case StructLiteral(T, pairs) =>
      PairsRead([], pairs, after);
      assert [] + RereadPairs(pairs) == RereadPairs(pairs);
      LiteralReads(ps, T, LayoutPairs(pairs, true, after), RereadPairs(pairs), after, ss, rest);
  }

  lemma LiteralReads(ps: seq<Prefix>, T: string, body: seq<Token>, fields: seq<Field>, after: seq<Token>,
                     ss: seq<Suffix>, rest: seq<Token>)
    requires Fields([], body) == Read(fields, after) && Follows(after, ss, rest)
    requires Stops(rest, Grammar.TOP)
    ensures Expression(Signs(ps, LiteralHead(T, body))) == Read(Wrap(ps, ExtendAll(Compound(T, fields), ss)), rest)
  {
    hide Fields, Suffixes, Wrap, ExtendAll, Signs;
    var ts, t := LiteralHead(T, body), ExtendAll(Compound(T, fields), ss);
    Behead(OpenBrace, body);
    assert ts[3..] == [OpenBrace] + body && ts[4..] == body;
    assert Literal(ts) == Read(Compound(T, fields), after);
    assert Postfix(ts) == Suffixes(Compound(T, fields), after);
    assert UnaryExpression(ts) == Postfix(ts);
    assert Cast(ts) == UnaryExpression(ts);
    hide *;
    FollowsRead(after, ss, rest, Compound(T, fields));
    SignsRead(ps, ts, t, rest);
    ClimbUp(Grammar.TOP, Signs(ps, ts), Wrap(ps, t), rest);
    Whole(Signs(ps, ts));
  }

  lemma FollowsRead(after: seq<Token>, ss: seq<Suffix>, rest: seq<Token>, t: Tree)
    requires Follows(after, ss, rest)
    ensures Suffixes(t, after) == Read(ExtendAll(t, ss), rest)
  {
  }

  lemma {:induction false} PairsRead(done: seq<Field>, pairs: seq<Pair>, after: seq<Token>)
    ensures Fields(done, LayoutPairs(pairs, true, after)) == Read(done + RereadPairs(pairs), after)
    decreases pairs
  {
    hide Expression, Layout, NamedField, Fields, LayoutPairs, Reread;
    PairsLaidOut(pairs, after);
    if pairs == [] {
      NoField(done, after);
      assert done + [] == done;
    } else {
      var next := LayoutPairs(pairs[1..], false, after);
      var t := Reread(pairs[0].value, [], []);
      var field := Field(pairs[0].field, t);
      PairsLaidOut(pairs[1..], after);
      InnerReads(pairs[0].value, next);
      FieldStep(done, pairs[0].field, Layout(pairs[0].value, next), t, next);
      Assoc(done, [field], RereadPairs(pairs[1..]));
      if pairs[1..] == [] {
        Behead(CloseBrace, after);
        assert done + [field] + [] == done + [field];
      } else {
        Behead(Comma, LayoutPairs(pairs[1..], true, after));
        PairsRead(done + [field], pairs[1..], after);
      }
    }
  }

  lemma PairsLaidOut(pairs: seq<Pair>, after: seq<Token>)
    ensures var all := LayoutPairs(pairs, true, after);
            if pairs == [] then all == LayoutPairs(pairs, false, after) == [CloseBrace] + after
            else LayoutPairs(pairs, false, after) == [Comma] + all
                 && all == NamedField(pairs[0].field,
                                      Layout(pairs[0].value, LayoutPairs(pairs[1..], false, after)))
  {
    hide Layout, NamedField;
  }

  lemma NoField(done: seq<Field>, after: seq<Token>)
    ensures Fields(done, [CloseBrace] + after) == Read(done, after)
  {
    Behead(CloseBrace, after);
  }

  lemma FieldStep(done: seq<Field>, name: string, value: seq<Token>, t: Tree, next: seq<Token>)
    requires Expression(value) == Read(t, next) && (HeadIs(next, CloseBrace) || HeadIs(next, Comma))
    ensures Fields(done, NamedField(name, value))
         == if HeadIs(next, CloseBrace) then Read(done + [Field(name, t)], next[1..])
            else Fields(done + [Field(name, t)], next[1..])
  {
    hide Expression;
    assert NamedField(name, value)[3..] == value;
  }

  lemma IntegerReads(ps: seq<Prefix>, v: nat, ss: seq<Suffix>, after: seq<Token>, rest: seq<Token>)
    requires Follows(after, ss, rest) && Stops(rest, Grammar.TOP)
    ensures Expression(Signs(ps, [Digits(v)] + after)) == Read(Wrap(ps, ExtendAll(Constant(v), ss)), rest)
  {
    Behead(Digits(v), after);
    SignedReads(ps, [Digits(v)] + after, Constant(v), after, ss, rest);
  }

  /** An expression in brackets of some kind, up to what delimits it. */
  lemma {:induction false} InnerReads(e: Expr, rest: seq<Token>)
    requires Delimits(rest)
    ensures Expression(Layout(e, rest)) == Read(Reread(e, [], []), rest)
    decreases e, 3
  {
    NothingFollows(rest);
    LayoutReads(e, [], [], rest, rest);
  }

  lemma {:induction false} PrefixedReads(p: Prefix, x: Expr, ps: seq<Prefix>, ss: seq<Suffix>, after: seq<Token>,
                                         rest: seq<Token>)
    requires Follows(after, ss, rest) && Stops(rest, Grammar.TOP)
    ensures Expression(Signs(ps, PrefixToken(p, Layout(x, after)))) == Read(Reread(x, ps + [p], ss), rest)
    decreases x, 3
  {
    SignsOne(ps, p, Layout(x, after));
    LayoutReads(x, ps + [p], ss, after, rest);
  }

  lemma {:induction false} StringsRead(e: Expr, ps: seq<Prefix>, ss: seq<Suffix>, after: seq<Token>,
                                       rest: seq<Token>)
    requires e.Strings? && Follows(after, ss, rest) && Stops(rest, Grammar.TOP)
    ensures Expression(Signs(ps, Layout(e, after))) == Read(Reread(e, ps, ss), rest)
    decreases e, 1
  {
    hide Primary, Cast, Wrap, ExtendAll, Signs, Expression, Follows, Runtime, Stops;
    var Strings(l, how, r) := e;
    var close := [Close] + after;
    var second := Layout(r, [Close] + close);
    InnerReads(l, [Comma] + second);
    InnerReads(r, [Close] + close);
    var call := Opened(StringFunction(how), Layout(l, [Comma] + second));
    var inner := if how.Different? then PrefixToken(Complement, call) else call;
    var t := Stringed(how, Reread(l, [], []), Reread(r, [], []));
    StringedReads(how, Layout(l, [Comma] + second), Reread(l, [], []), second, Reread(r, [], []), close);
    BracketReads(inner, t, after);
    SignedReads(ps, [Open] + inner, t, after, ss, rest);
  }

  lemma StringedReads(how: StringOperator, first: seq<Token>, a: Tree, second: seq<Token>, b: Tree, rest: seq<Token>)
    requires Expression(first) == Read(a, [Comma] + second) && Expression(second) == Read(b, [Close] + rest)
    requires HeadIs(rest, Close)
    ensures var call := Opened(StringFunction(how), first);
            var inner := if how.Different? then PrefixToken(Complement, call) else call;
            Starts(inner) && Expression(inner) == Read(Stringed(how, a, b), rest)
  {
    hide Expression, Runtime, Signs, Wrap, ExtendAll;
    var name := StringFunction(how);
    var ps := if how.Different? then [Complement] else [];
    NothingFollows(rest);
    RuntimeReads(ps, name, first, a, second, b, rest, [], rest);
    NoneAttached(Runtime(name, a, b));
    var call := Opened(name, first);
    assert Signs(ps, call) == if how.Different? then PrefixToken(Complement, call) else call by {
      SignsNone(Complement, call);
    }
    assert Wrap(ps, Runtime(name, a, b)) == Stringed(how, a, b) by {
      WrapOne([], Complement, Runtime(name, a, b));
      NoneAttached(Prefixed(Complement, Runtime(name, a, b)));
      assert [] + [Complement] == [Complement];
    }
  }

  lemma SignsNone(p: Prefix, ts: seq<Token>)
    ensures Signs([], ts) == ts && Signs([p], ts) == PrefixToken(p, ts)
  {
    assert [p][1..] == [];
  }

  lemma {:induction false} ArgumentsRead(bare: bool, args: seq<Expr>, after: seq<Token>)
    ensures Arguments(LayoutArguments(bare, args, after)) == Read(Given(bare, RereadAll(args)), after)
    decreases args, 1
  {
    hide Expression, Layout, Reread;
    if !bare {
      var ts := [Word(CONTEXT)] + LayoutMore(args, after);
      WordAlone(CONTEXT, LayoutMore(args, after));
      MoreRead([], ts, Id(CONTEXT), args, after);
      assert [] + [Id(CONTEXT)] == [Id(CONTEXT)];
      assert Arguments(ts) == MoreArguments([], ts);
    } else if args != [] {
      var ts := Layout(args[0], LayoutMore(args[1..], after));
      LayoutStarts(args[0], LayoutMore(args[1..], after));
      InnerReads(args[0], LayoutMore(args[1..], after));
      var t := Reread(args[0], [], []);
      MoreRead([], ts, t, args[1..], after);
      assert [] + [t] == [t];
      assert Arguments(ts) == MoreArguments([], ts);
    } else {
      Behead(Close, after);
    }
  }

  /** One argument read, and those that are still to come. */
  lemma {:induction false} MoreRead(done: seq<Tree>, ts: seq<Token>, t: Tree, args: seq<Expr>, after: seq<Token>)
    requires Expression(ts) == Read(t, LayoutMore(args, after))
    ensures MoreArguments(done, ts) == Read(done + [t] + RereadAll(args), after)
    decreases args, 0
  {
    hide Expression, Layout, Reread;
    if args == [] {
      Behead(Close, after);
      assert done + [t] + [] == done + [t];
    } else {
      var next := LayoutMore(args[1..], after);
      var u := Reread(args[0], [], []);
      Behead(Comma, Layout(args[0], next));
      InnerReads(args[0], next);
      MoreRead(done + [t], Layout(args[0], next), u, args[1..], after);
      Assoc(done + [t], [u], RereadAll(args[1..]));
    }
  }

  // ---------------------------------------------------------------- signs that run together

  predicate Glued(ts: seq<Token>) {
    |ts| >= 2 && (Merges(ts[0], ts[1]) || Glued(ts[1..]))
  }

  lemma {:induction false} LexLeaves(ts: seq<Token>)
    requires !Glued(ts)
    ensures Lex(ts) == ts
  {
    if |ts| >= 2 {
      LexLeaves(ts[1..]);
      assert [ts[0]] + ts[1..] == ts;
    }
  }

  /** Running together makes doubled signs and loses none. */
  lemma {:induction false} LexDoubles(ts: seq<Token>)
    ensures DoubledTokens(Lex(ts)) >= DoubledTokens(ts) + if Glued(ts) then 1 else 0
  {
    if |ts| >= 2 {
      var rest := ts[1..];
      assert rest[1..] == ts[2..] && rest[0] == ts[1];
      if Merges(ts[0], ts[1]) {
        LexDoubles(ts[2..]);
        assert DoubledTokens(rest) == DoubledTokens(ts[2..]);
        Behead(if ts[0] == MinusSign then MinusMinus else Sign(Grammar.OpAnd), Lex(ts[2..]));
      } else {
        LexDoubles(rest);
        Behead(ts[0], Lex(rest));
      }
    }
  }

  lemma DoubledNext(t: Token, rest: seq<Token>)
    ensures DoubledTokens([t] + rest) == DoubledToken(t) + DoubledTokens(rest)
  {
    Behead(t, rest);
  }

  lemma DoubledPrefix(p: Prefix, rest: seq<Token>)
    ensures DoubledTokens(PrefixToken(p, rest)) == DoubledTokens(rest)
  {
    hide DoubledTokens;
    if p.CastTo? {
      DoubledNext(Close, rest);
      DoubledNext(TypeName(p.typeName), [Close] + rest);
      DoubledNext(Open, [TypeName(p.typeName)] + ([Close] + rest));
      OneByOne(Open, TypeName(p.typeName), Close, rest);
    } else {
      DoubledNext(MinusSign, rest);
      DoubledNext(Bang, rest);
      DoubledNext(Star, rest);
      DoubledNext(Ampersand, rest);
    }
  }

  lemma DoubledOpened(name: string, rest: seq<Token>)
    ensures DoubledTokens(Opened(name, rest)) == DoubledTokens(rest)
  {
    DoubledNext(Comma, rest);
    DoubledNext(Word(CONTEXT), [Comma] + rest);
    DoubledNext(Open, [Word(CONTEXT)] + ([Comma] + rest));
    DoubledNext(Word(name), [Open] + ([Word(CONTEXT)] + ([Comma] + rest)));
  }

  lemma DoubledMember(byPointer: bool, field: string, rest: seq<Token>)
    ensures DoubledTokens([if byPointer then Arrow else Dot, Word(field)] + rest) == DoubledTokens(rest)
  {
    DoubledNext(Word(field), rest);
    DoubledNext(if byPointer then Arrow else Dot, [Word(field)] + rest);
    assert [if byPointer then Arrow else Dot, Word(field)] + rest
        == [if byPointer then Arrow else Dot] + ([Word(field)] + rest);
  }

  /** The layout has the doubled signs that are meant. */
  lemma {:induction false} LayoutDoubles(e: Expr, rest: seq<Token>)
    ensures DoubledTokens(Layout(e, rest)) == Doubled(Lower(e)) + DoubledTokens(rest)
    decreases e, 2
  {
    hide DoubledTokens, PrefixToken, Opened, LayoutArguments, Given, LowerAll, Runtime, Stringed;
    match e
    case Integer(v) => DoubledNext(Digits(v), rest);
    case Boolean(b) => DoubledNext(Word(TruthName(b)), rest);
    case Name(x) => DoubledNext(Word(x), rest);
    case Unary(sign, x) =>
      LayoutDoubles(x, rest);
      DoubledPrefix(PrefixFor(sign), Layout(x, rest));
    case AddressOf(x) =>
      LayoutDoubles(x, rest);
      DoubledPrefix(Address, Layout(x, rest));
    case Dereference(x) =>
      LayoutDoubles(x, rest);
      DoubledPrefix(Indirection, Layout(x, rest));
    case Conversion(T, x) =>
      LayoutDoubles(x, rest);
      DoubledPrefix(CastTo(T), Layout(x, rest));
    case Access(a, byPointer, field) =>
      LayoutDoubles(a, [if byPointer then Arrow else Dot, Word(field)] + rest);
      DoubledMember(byPointer, field, rest);
    case Call(f, bare, args) =>
      LayoutDoubles(f, [Open] + LayoutArguments(bare, args, rest));
      DoubledNext(Open, LayoutArguments(bare, args, rest));
      ArgumentsDoubles(bare, args, rest);
    case StructLiteral(T, pairs) =>
      DoubledHead(T, LayoutPairs(pairs, true, rest));
      PairsDouble(pairs, true, rest);
    case _ => OperandsDouble(e, rest);
  }

  lemma DoubledHead(T: string, rest: seq<Token>)
    ensures DoubledTokens(LiteralHead(T, rest)) == DoubledTokens(rest)
  {
    DoubledPrefix(CastTo(T), [OpenBrace] + rest);
    DoubledNext(OpenBrace, rest);
  }

  lemma DoubledField(name: string, rest: seq<Token>)
    ensures DoubledTokens(NamedField(name, rest)) == DoubledTokens(rest)
  {
    DoubledNext(Assign, rest);
    DoubledNext(Word(name), [Assign] + rest);
    DoubledNext(Dot, [Word(name)] + ([Assign] + rest));
    OneByOne(Dot, Word(name), Assign, rest);
  }

  lemma {:induction false} PairsDouble(pairs: seq<Pair>, first: bool, rest: seq<Token>)
    ensures DoubledTokens(LayoutPairs(pairs, first, rest)) == DoubledInFields(LowerPairs(pairs)) + DoubledTokens(rest)
    decreases pairs
  {
    hide Layout, Lower, DoubledTokens, NamedField;
    if pairs == [] {
      DoubledNext(CloseBrace, rest);
    } else {
      var next := LayoutPairs(pairs[1..], false, rest);
      PairsDouble(pairs[1..], false, rest);
      LayoutDoubles(pairs[0].value, next);
      DoubledField(pairs[0].field, Layout(pairs[0].value, next));
      DoubledNext(Comma, NamedField(pairs[0].field, Layout(pairs[0].value, next)));
      assert LowerPairs(pairs)[1..] == LowerPairs(pairs[1..]);
    }
  }

  /** With two operands. */
  lemma {:induction false} OperandsDouble(e: Expr, rest: seq<Token>)
    requires e.Binary? || e.Strings? || e.Element? || e.Character?
    ensures DoubledTokens(Layout(e, rest)) == Doubled(Lower(e)) + DoubledTokens(rest)
    decreases e, 1
  {
    hide DoubledTokens, PrefixToken, Opened, Runtime, Stringed;
    match e
    case Binary(l, op, r) =>
      var second := Layout(r, [Close] + rest);
      LayoutDoubles(l, [Close] + ([Sign(op)] + ([Open] + second)));
      LayoutDoubles(r, [Close] + rest);
      DoubledNext(Close, rest);
      DoubledOperator(op, second);
      DoubledNext(Open, Layout(l, [Close] + ([Sign(op)] + ([Open] + second))));
    case Strings(l, how, r) =>
      var close := [Close] + rest;
      LayoutDoubles(r, [Close] + close);
      LayoutDoubles(l, [Comma] + Layout(r, [Close] + close));
      var second := Layout(r, [Close] + close);
      DoubledStrings(how, Layout(l, [Comma] + second), Lower(l), second, Lower(r), rest);
    case Element(T, v, i) =>
      LayoutDoubles(i, [Close] + rest);
      LayoutDoubles(v, [Comma] + Layout(i, [Close] + rest));
      var second := Layout(i, [Close] + rest);
      var call := Opened("ey_vector_access", Layout(v, [Comma] + second));
      DoubledCall("ey_vector_access", Layout(v, [Comma] + second), Lower(v), second, Lower(i), rest);
      DoubledPrefix(CastTo(T + "*"), call);
      DoubledPrefix(Indirection, PrefixToken(CastTo(T + "*"), call));
    case Character(s, i) =>
      LayoutDoubles(i, [Close] + rest);
      LayoutDoubles(s, [Comma] + Layout(i, [Close] + rest));
      DoubledCall("ey_runtime_string_get_character", Layout(s, [Comma] + Layout(i, [Close] + rest)), Lower(s),
                  Layout(i, [Close] + rest), Lower(i), rest);
  }

  /** A runtime call with the arguments `first` and `second`, whose doubled signs are those of `a` and `b`. */
  lemma DoubledCall(name: string, first: seq<Token>, a: Tree, second: seq<Token>, b: Tree, rest: seq<Token>)
    requires DoubledTokens(first) == Doubled(a) + DoubledTokens([Comma] + second)
    requires DoubledTokens(second) == Doubled(b) + DoubledTokens([Close] + rest)
    ensures DoubledTokens(Opened(name, first)) == Doubled(Runtime(name, a, b)) + DoubledTokens(rest)
  {
    hide Opened, Runtime, DoubledTokens, Doubled;
    DoubledNext(Close, rest);
    DoubledNext(Comma, second);
    DoubledOpened(name, first);
    DoubledRuntime(name, a, b);
  }

  lemma DoubledOperator(op: Operator, rest: seq<Token>)
    ensures DoubledTokens([Close] + ([Sign(op)] + ([Open] + rest))) == DoubledToken(Sign(op)) + DoubledTokens(rest)
  {
    DoubledNext(Open, rest);
    DoubledNext(Sign(op), [Open] + rest);
    DoubledNext(Close, [Sign(op)] + ([Open] + rest));
  }

  lemma DoubledStrings(how: StringOperator, first: seq<Token>, a: Tree, second: seq<Token>, b: Tree, rest: seq<Token>)
    requires DoubledTokens(first) == Doubled(a) + DoubledTokens([Comma] + second)
    requires DoubledTokens(second) == Doubled(b) + DoubledTokens([Close] + ([Close] + rest))
    ensures var call := Opened(StringFunction(how), first);
            var inner := if how.Different? then PrefixToken(Complement, call) else call;
            DoubledTokens([Open] + inner) == Doubled(Stringed(how, a, b)) + DoubledTokens(rest)
  {
    hide PrefixToken, Opened, Runtime, DoubledTokens;
    var call := Opened(StringFunction(how), first);
    DoubledNext(Close, rest);
    DoubledCall(StringFunction(how), first, a, second, b, [Close] + rest);
    DoubledPrefix(Complement, call);
    DoubledNext(Open, if how.Different? then PrefixToken(Complement, call) else call);
  }

  lemma DoubledRuntime(name: string, a: Tree, b: Tree)
    ensures Doubled(Runtime(name, a, b)) == Doubled(a) + Doubled(b)
  {
    DoubledInContext([a, b]);
    assert [Id(CONTEXT)] + [a, b] == [Id(CONTEXT), a, b];
    DoubledInSnoc([], a);
    DoubledInSnoc([a], b);
    assert [] + [a] == [a] && [a] + [b] == [a, b];
  }

  lemma DoubledInContext(ts: seq<Tree>)
    ensures DoubledIn([Id(CONTEXT)] + ts) == DoubledIn(ts)
  {
    assert ([Id(CONTEXT)] + ts)[1..] == ts;
  }

  lemma {:induction false} ArgumentsDoubles(bare: bool, args: seq<Expr>, rest: seq<Token>)
    ensures DoubledTokens(LayoutArguments(bare, args, rest))
         == DoubledIn(Given(bare, LowerAll(args))) + DoubledTokens(rest)
    decreases args, 1
  {
    hide Layout, Lower, DoubledTokens;
    if !bare {
      MoreDoubles(args, rest);
      DoubledNext(Word(CONTEXT), LayoutMore(args, rest));
      DoubledInContext(LowerAll(args));
    } else if args == [] {
      DoubledNext(Close, rest);
    } else {
      MoreDoubles(args[1..], rest);
      LayoutDoubles(args[0], LayoutMore(args[1..], rest));
      assert LowerAll(args)[1..] == LowerAll(args[1..]);
    }
  }

  lemma {:induction false} MoreDoubles(args: seq<Expr>, rest: seq<Token>)
    ensures DoubledTokens(LayoutMore(args, rest)) == DoubledIn(LowerAll(args)) + DoubledTokens(rest)
    decreases args, 0
  {
    hide Layout, Lower, DoubledTokens;
    if args == [] {
      DoubledNext(Close, rest);
    } else {
      MoreDoubles(args[1..], rest);
      LayoutDoubles(args[0], LayoutMore(args[1..], rest));
      DoubledNext(Comma, Layout(args[0], LayoutMore(args[1..], rest)));
      assert LowerAll(args)[1..] == LowerAll(args[1..]);
    }
  }

  lemma GluedNext(t: Token, rest: seq<Token>)
    ensures Glued([t] + rest) <==> (rest != [] && Merges(t, rest[0])) || Glued(rest)
  {
    Behead(t, rest);
  }

  lemma GluedPrefix(p: Prefix, rest: seq<Token>)
    ensures (Glued(PrefixToken(p, rest))
             <==> (p.Negation? && HeadIs(rest, MinusSign)) || (p.Address? && HeadIs(rest, Ampersand)) || Glued(rest))
    ensures HeadIs(PrefixToken(p, rest), MinusSign) <==> p.Negation?
    ensures HeadIs(PrefixToken(p, rest), Ampersand) <==> p.Address?
  {
    hide Glued;
    if p.CastTo? {
      GluedNext(Close, rest);
      GluedNext(TypeName(p.typeName), [Close] + rest);
      GluedNext(Open, [TypeName(p.typeName)] + ([Close] + rest));
      OneByOne(Open, TypeName(p.typeName), Close, rest);
    } else {
      GluedNext(MinusSign, rest);
      GluedNext(Bang, rest);
      GluedNext(Star, rest);
      GluedNext(Ampersand, rest);
    }
  }

  lemma GluedOpened(name: string, rest: seq<Token>)
    ensures Glued(Opened(name, rest)) <==> Glued(rest)
    ensures !HeadIs(Opened(name, rest), MinusSign) && !HeadIs(Opened(name, rest), Ampersand)
  {
    GluedNext(Comma, rest);
    GluedNext(Word(CONTEXT), [Comma] + rest);
    GluedNext(Open, [Word(CONTEXT)] + ([Comma] + rest));
    GluedNext(Word(name), [Open] + ([Word(CONTEXT)] + ([Comma] + rest)));
  }

  lemma GluedMember(byPointer: bool, field: string, rest: seq<Token>)
    ensures Glued([if byPointer then Arrow else Dot, Word(field)] + rest) <==> Glued(rest)
  {
    GluedNext(Word(field), rest);
    GluedNext(if byPointer then Arrow else Dot, [Word(field)] + rest);
    assert [if byPointer then Arrow else Dot, Word(field)] + rest
        == [if byPointer then Arrow else Dot] + ([Word(field)] + rest);
  }

  lemma GluedOperator(op: Operator, rest: seq<Token>)
    ensures Glued([Close] + ([Sign(op)] + ([Open] + rest))) <==> Glued(rest)
  {
    GluedNext(Open, rest);
    GluedNext(Sign(op), [Open] + rest);
    GluedNext(Close, [Sign(op)] + ([Open] + rest));
  }

  /** Where no signs run together, no negation is directly under another and no address under another. */
  lemma {:induction false} ApartIfNotGlued(e: Expr, rest: seq<Token>)
    requires !Glued(Layout(e, rest))
    ensures SignsApart(e) && !Glued(rest)
    decreases e, 0
  {
    hide Glued, PrefixToken, Opened;
    match e
    case Integer(v) => GluedNext(Digits(v), rest);
    case Boolean(b) => GluedNext(Word(TruthName(b)), rest);
    case Name(x) => GluedNext(Word(x), rest);
    case Binary(l, op, r) =>
      var second := Layout(r, [Close] + rest);
      GluedNext(Open, Layout(l, [Close] + ([Sign(op)] + ([Open] + second))));
      ApartIfNotGlued(l, [Close] + ([Sign(op)] + ([Open] + second)));
      GluedOperator(op, second);
      ApartIfNotGlued(r, [Close] + rest);
      GluedNext(Close, rest);
    case Strings(l, how, r) =>
      var close := [Close] + rest;
      var second := Layout(r, [Close] + close);
      var call := Opened(StringFunction(how), Layout(l, [Comma] + second));
      GluedNext(Open, if how.Different? then PrefixToken(Complement, call) else call);
      GluedPrefix(Complement, call);
      GluedOpened(StringFunction(how), Layout(l, [Comma] + second));
      ApartIfNotGlued(l, [Comma] + Layout(r, [Close] + close));
      GluedNext(Comma, Layout(r, [Close] + close));
      ApartIfNotGlued(r, [Close] + close);
      GluedNext(Close, close);
      GluedNext(Close, rest);
    case Unary(sign, x) =>
      GluedPrefix(PrefixFor(sign), Layout(x, rest));
      ApartIfNotGlued(x, rest);
      if x.Unary? {
        GluedPrefix(PrefixFor(x.sign), Layout(x.operand, rest));
      }
    case AddressOf(x) =>
      GluedPrefix(Address, Layout(x, rest));
      ApartIfNotGlued(x, rest);
      if x.AddressOf? {
        GluedPrefix(Address, Layout(x.addressed, rest));
      }
    case Dereference(x) =>
      GluedPrefix(Indirection, Layout(x, rest));
      ApartIfNotGlued(x, rest);
    case Conversion(T, x) =>
      GluedPrefix(CastTo(T), Layout(x, rest));
      ApartIfNotGlued(x, rest);
    case Access(a, byPointer, field) =>
      ApartIfNotGlued(a, [if byPointer then Arrow else Dot, Word(field)] + rest);
      GluedMember(byPointer, field, rest);
    case Call(f, bare, args) =>
      ApartIfNotGlued(f, [Open] + LayoutArguments(bare, args, rest));
      GluedNext(Open, LayoutArguments(bare, args, rest));
      ArgumentsApart(bare, args, rest);
    case Element(T, v, i) =>
      var all := Layout(v, [Comma] + Layout(i, [Close] + rest));
      GluedPrefix(Indirection, PrefixToken(CastTo(T + "*"), Opened("ey_vector_access", all)));
      GluedPrefix(CastTo(T + "*"), Opened("ey_vector_access", all));
      GluedOpened("ey_vector_access", all);
      ApartIfNotGlued(v, [Comma] + Layout(i, [Close] + rest));
      GluedNext(Comma, Layout(i, [Close] + rest));
      ApartIfNotGlued(i, [Close] + rest);
      GluedNext(Close, rest);
    case Character(s, i) =>
      GluedOpened("ey_runtime_string_get_character", Layout(s, [Comma] + Layout(i, [Close] + rest)));
      ApartIfNotGlued(s, [Comma] + Layout(i, [Close] + rest));
      GluedNext(Comma, Layout(i, [Close] + rest));
      ApartIfNotGlued(i, [Close] + rest);
      GluedNext(Close, rest);
    case StructLiteral(T, pairs) =>
      GluedHead(T, LayoutPairs(pairs, true, rest));
      PairsApartIfNotGlued(pairs, true, rest);
  }

  lemma GluedHead(T: string, rest: seq<Token>)
    ensures Glued(LiteralHead(T, rest)) <==> Glued(rest)
    ensures !HeadIs(LiteralHead(T, rest), MinusSign) && !HeadIs(LiteralHead(T, rest), Ampersand)
  {
    GluedPrefix(CastTo(T), [OpenBrace] + rest);
    GluedNext(OpenBrace, rest);
  }

  lemma GluedField(name: string, rest: seq<Token>)
    ensures Glued(NamedField(name, rest)) <==> Glued(rest)
    ensures HeadIs(NamedField(name, rest), Dot)
  {
    GluedNext(Assign, rest);
    GluedNext(Word(name), [Assign] + rest);
    GluedNext(Dot, [Word(name)] + ([Assign] + rest));
    OneByOne(Dot, Word(name), Assign, rest);
  }

  lemma {:induction false} PairsApartIfNotGlued(pairs: seq<Pair>, first: bool, rest: seq<Token>)
    requires !Glued(LayoutPairs(pairs, first, rest))
    ensures PairsApart(pairs) && !Glued(rest)
    decreases pairs
  {
    hide Layout, Glued, NamedField;
    if pairs == [] {
      GluedNext(CloseBrace, rest);
    } else {
      var next := LayoutPairs(pairs[1..], false, rest);
      GluedNext(Comma, NamedField(pairs[0].field, Layout(pairs[0].value, next)));
      GluedField(pairs[0].field, Layout(pairs[0].value, next));
      ApartIfNotGlued(pairs[0].value, next);
      PairsApartIfNotGlued(pairs[1..], false, rest);
    }
  }

  lemma {:induction false} ArgumentsApart(bare: bool, args: seq<Expr>, rest: seq<Token>)
    requires !Glued(LayoutArguments(bare, args, rest))
    ensures AllSignsApart(args) && !Glued(rest)
    decreases args, 1
  {
    hide Layout, Glued;
    if !bare {
      GluedNext(Word(CONTEXT), LayoutMore(args, rest));
      MoreApart(args, rest);
    } else if args == [] {
      GluedNext(Close, rest);
    } else {
      ApartIfNotGlued(args[0], LayoutMore(args[1..], rest));
      MoreApart(args[1..], rest);
    }
  }

  lemma {:induction false} MoreApart(args: seq<Expr>, rest: seq<Token>)
    requires !Glued(LayoutMore(args, rest))
    ensures AllSignsApart(args) && !Glued(rest)
    decreases args, 0
  {
    hide Layout, Glued;
    if args == [] {
      GluedNext(Close, rest);
    } else {
      GluedNext(Comma, Layout(args[0], LayoutMore(args[1..], rest)));
      ApartIfNotGlued(args[0], LayoutMore(args[1..], rest));
      MoreApart(args[1..], rest);
    }
  }

  /** The other way, for an attached expression: only a negation begins with a minus sign, and only an address with
      an ampersand. */
  lemma {:induction false} NotGluedIfApart(e: Expr, rest: seq<Token>)
    requires Attached(e) && SignsApart(e) && !Glued(rest)
    ensures !Glued(Layout(e, rest))
    ensures HeadIs(Layout(e, rest), MinusSign) <==> Negated(e)
    ensures HeadIs(Layout(e, rest), Ampersand) <==> e.AddressOf?
    decreases e, 0
  {
    hide Glued, PrefixToken, Opened;
    match e
    case Integer(v) => GluedNext(Digits(v), rest);
    case Boolean(b) => GluedNext(Word(TruthName(b)), rest);
    case Name(x) => GluedNext(Word(x), rest);
    case Binary(l, op, r) =>
      var second := Layout(r, [Close] + rest);
      GluedNext(Close, rest);
      NotGluedIfApart(r, [Close] + rest);
      GluedOperator(op, second);
      NotGluedIfApart(l, [Close] + ([Sign(op)] + ([Open] + second)));
      GluedNext(Open, Layout(l, [Close] + ([Sign(op)] + ([Open] + second))));
    case Strings(l, how, r) =>
      var close := [Close] + rest;
      var second := Layout(r, [Close] + close);
      var call := Opened(StringFunction(how), Layout(l, [Comma] + second));
      GluedNext(Close, rest);
      GluedNext(Close, close);
      NotGluedIfApart(r, [Close] + close);
      GluedNext(Comma, Layout(r, [Close] + close));
      NotGluedIfApart(l, [Comma] + Layout(r, [Close] + close));
      GluedOpened(StringFunction(how), Layout(l, [Comma] + second));
      GluedPrefix(Complement, call);
      GluedNext(Open, if how.Different? then PrefixToken(Complement, call) else call);
    case Unary(sign, x) =>
      NotGluedIfApart(x, rest);
      GluedPrefix(PrefixFor(sign), Layout(x, rest));
    case AddressOf(x) =>
      NotGluedIfApart(x, rest);
      GluedPrefix(Address, Layout(x, rest));
    case Dereference(x) =>
      NotGluedIfApart(x, rest);
      GluedPrefix(Indirection, Layout(x, rest));
    case Conversion(T, x) =>
      NotGluedIfApart(x, rest);
      GluedPrefix(CastTo(T), Layout(x, rest));
    case Access(a, byPointer, field) =>
      GluedMember(byPointer, field, rest);
      NotGluedIfApart(a, [if byPointer then Arrow else Dot, Word(field)] + rest);
    case Call(f, bare, args) =>
      ArgumentsNotGlued(bare, args, rest);
      GluedNext(Open, LayoutArguments(bare, args, rest));
      NotGluedIfApart(f, [Open] + LayoutArguments(bare, args, rest));
    case Element(T, v, i) =>
      var all := Layout(v, [Comma] + Layout(i, [Close] + rest));
      GluedNext(Close, rest);
      NotGluedIfApart(i, [Close] + rest);
      GluedNext(Comma, Layout(i, [Close] + rest));
      NotGluedIfApart(v, [Comma] + Layout(i, [Close] + rest));
      GluedOpened("ey_vector_access", all);
      GluedPrefix(CastTo(T + "*"), Opened("ey_vector_access", all));
      GluedPrefix(Indirection, PrefixToken(CastTo(T + "*"), Opened("ey_vector_access", all)));
    case Character(s, i) =>
      GluedNext(Close, rest);
      NotGluedIfApart(i, [Close] + rest);
      GluedNext(Comma, Layout(i, [Close] + rest));
      NotGluedIfApart(s, [Comma] + Layout(i, [Close] + rest));
      GluedOpened("ey_runtime_string_get_character", Layout(s, [Comma] + Layout(i, [Close] + rest)));
    case StructLiteral(T, pairs) =>
      PairsNotGlued(pairs, true, rest);
      GluedHead(T, LayoutPairs(pairs, true, rest));
  }

  lemma {:induction false} PairsNotGlued(pairs: seq<Pair>, first: bool, rest: seq<Token>)
    requires PairsAttached(pairs) && PairsApart(pairs) && !Glued(rest)
    ensures !Glued(LayoutPairs(pairs, first, rest))
    decreases pairs
  {
    hide Layout, Glued, NamedField;
    if pairs == [] {
      GluedNext(CloseBrace, rest);
    } else {
      var next := LayoutPairs(pairs[1..], false, rest);
      PairsNotGlued(pairs[1..], false, rest);
      NotGluedIfApart(pairs[0].value, next);
      GluedField(pairs[0].field, Layout(pairs[0].value, next));
      GluedNext(Comma, NamedField(pairs[0].field, Layout(pairs[0].value, next)));
    }
  }

  lemma {:induction false} ArgumentsNotGlued(bare: bool, args: seq<Expr>, rest: seq<Token>)
    requires AllAttached(args) && AllSignsApart(args) && !Glued(rest)
    ensures !Glued(LayoutArguments(bare, args, rest))
    decreases args, 1
  {
    hide Layout, Glued;
    if !bare {
      MoreNotGlued(args, rest);
      GluedNext(Word(CONTEXT), LayoutMore(args, rest));
    } else if args == [] {
      GluedNext(Close, rest);
    } else {
      MoreNotGlued(args[1..], rest);
      NotGluedIfApart(args[0], LayoutMore(args[1..], rest));
    }
  }

  lemma {:induction false} MoreNotGlued(args: seq<Expr>, rest: seq<Token>)
    requires AllAttached(args) && AllSignsApart(args) && !Glued(rest)
    ensures !Glued(LayoutMore(args, rest))
    decreases args, 0
  {
    hide Layout, Glued;
    if args == [] {
      GluedNext(Close, rest);
    } else {
      MoreNotGlued(args[1..], rest);
      NotGluedIfApart(args[0], LayoutMore(args[1..], rest));
      GluedNext(Comma, Layout(args[0], LayoutMore(args[1..], rest)));
    }
  }

  // ---------------------------------------------------------------- whole expressions

  /** C reads the expression that was meant exactly when nothing comes apart and no signs run together. */
  lemma {:induction false} ReadsBackExactlyWhenFlat(e: Expr)
    ensures Meaning(Layout(e, [])) == Read(Lower(e), []) <==> Attached(e) && SignsApart(e)
  {
    var ts := Layout(e, []);
    hide Layout, Glued, Lex, Expression, Doubled, DoubledTokens;
    if Glued(ts) {
      LayoutDoubles(e, []);
      LexDoubles(ts);
      DoublesStay(Lex(ts));
      NoTokens();
      if Attached(e) && SignsApart(e) {
        NoneGlued();
        NotGluedIfApart(e, []);
      }
    } else {
      LexLeaves(ts);
      InnerReads(e, []);
      ApartIfNotGlued(e, []);
      if Attached(e) {
        OperandIsMeant(e);
      } else if Reread(e, [], []) == Lower(e) {
        OperandIsAttached(e);
      }
    }
  }

  lemma DoublesStay(ts: seq<Token>)
    ensures var r := Expression(ts); r.Read? ==> Doubled(r.value) + DoubledTokens(r.rest) == DoubledTokens(ts)
  {
  }

  lemma NoTokens()
    ensures DoubledTokens([]) == 0
  {
  }

  lemma NoneGlued()
    ensures !Glued([])
  {
  }

  // ---------------------------------------------------------------- five that are not read back

  function Sum(a: string, b: string): Expr {
    Binary(Name(a), Grammar.OpAdd, Name(b))
  }

  lemma ReadsAs(e: Expr, t: Tree)
    requires !Glued(Layout(e, [])) && Reread(e, [], []) == t
    ensures Meaning(Layout(e, [])) == Read(t, [])
  {
    LexLeaves(Layout(e, []));
    InnerReads(e, []);
  }

  /** A sum under a prefix operator. */
  lemma {:induction false} SumComesApart(p: Prefix, a: string, b: string)
    ensures Meaning(PrefixToken(p, Layout(Sum(a, b), [])))
         == Read(Infix(Prefixed(p, Id(a)), Grammar.OpAdd, Id(b)), [])
  {
    hide Layout, PrefixToken, Lex, Expression, Glued;
    NoneGlued();
    NotGluedIfApart(Sum(a, b), []);
    GluedPrefix(p, Layout(Sum(a, b), []));
    LexLeaves(PrefixToken(p, Layout(Sum(a, b), [])));
    NothingFollows([]);
    PrefixedReads(p, Sum(a, b), [], [], [], []);
    SignsNone(p, PrefixToken(p, Layout(Sum(a, b), [])));
    WrapOne([], p, Id(a));
    NoneAttached(Prefixed(p, Id(a)));
    NoneAttached(Id(a));
    NoneAttached(Id(b));
  }

  /** The negation of a sum is read as the sum of a negation. */
  lemma {:induction false} NegatedSumComesApart(a: string, b: string)
    ensures Meaning(Layout(Unary(Grammar.OpNegate, Sum(a, b)), []))
         == Read(Infix(Prefixed(Negation, Id(a)), Grammar.OpAdd, Id(b)), [])
  {
    SumComesApart(Negation, a, b);
  }

  /** So is the conversion of a sum read as the sum of a conversion. */
  lemma {:induction false} ConvertedSumComesApart(T: string, a: string, b: string)
    ensures Meaning(Layout(Conversion(T, Sum(a, b)), []))
         == Read(Infix(Prefixed(CastTo(T), Id(a)), Grammar.OpAdd, Id(b)), [])
  {
    SumComesApart(CastTo(T), a, b);
  }

  /** A field of a vector's element is read as the element behind a field of the pointer. */
  lemma {:induction false} FieldOfElementComesApart(T: string, v: string, i: nat, field: string)
    ensures Meaning(Layout(Access(Element(T, Name(v), Integer(i)), false, field), []))
         == Read(Prefixed(Indirection, Prefixed(CastTo(T + "*"),
                   Member(Runtime("ey_vector_access", Id(v), Constant(i)), false, field))), [])
  {
    var element := Element(T, Name(v), Integer(i));
    var e := Access(element, false, field);
    NoneGlued();
    GluedMember(false, field, []);
    NotGluedIfApart(element, [Dot, Word(field)]);
    assert [Dot, Word(field)] + [] == [Dot, Word(field)];
    assert Layout(e, []) == Layout(element, [Dot, Word(field)]);
    NoneAttached(Id(v));
    NoneAttached(Constant(i));
    var call := Runtime("ey_vector_access", Id(v), Constant(i));
    ExtendFirst(call, MemberSuffix(false, field), []);
    NoneAttached(Member(call, false, field));
    WrapTwo([], Indirection, CastTo(T + "*"), Member(call, false, field));
    NoneAttached(Prefixed(Indirection, Prefixed(CastTo(T + "*"), Member(call, false, field))));
    assert [] + [Indirection, CastTo(T + "*")] == [Indirection, CastTo(T + "*")];
    assert Reread(Name(v), [], []) == Id(v) && Reread(Integer(i), [], []) == Constant(i);
    assert [MemberSuffix(false, field)] + [] == [MemberSuffix(false, field)];
    assert Reread(e, [], []) == Reread(element, [], [MemberSuffix(false, field)]);
    ReadsAs(e, Prefixed(Indirection, Prefixed(CastTo(T + "*"), Member(call, false, field))));
  }

  lemma NotCast(ts: seq<Token>)
    requires !CastAhead(ts)
    ensures Cast(ts) == UnaryExpression(ts)
  {
  }

  lemma WordUnary(x: string)
    ensures UnaryExpression([Word(x)]) == Read(Id(x), [])
  {
    var ts := [Word(x)];
    assert ts[1..] == [];
    assert Primary(ts) == Read(Id(x), []);
    assert Suffixes(Id(x), []) == Read(Id(x), []);
    assert Postfix(ts) == Read(Id(x), []);
  }

  /** A prefix operator written twice. */
  lemma LayoutTwice(p: Prefix, x: string, e: Expr, inner: Expr)
    requires Layout(e, []) == PrefixToken(p, Layout(inner, []))
    requires Layout(inner, []) == PrefixToken(p, Layout(Name(x), []))
    ensures Layout(e, []) == PrefixToken(p, PrefixToken(p, [Word(x)]))
  {
    assert [Word(x)] + [] == [Word(x)];
    assert Layout(Name(x), []) == [Word(x)];
  }

  lemma LexTwice(t: Token, x: string)
    requires t == MinusSign || t == Ampersand
    ensures Lex([t] + ([t] + [Word(x)]))
         == [if t == MinusSign then MinusMinus else Sign(Grammar.OpAnd)] + [Word(x)]
  {
    var ts := [t] + ([t] + [Word(x)]);
    assert ts[0] == t && ts[1] == t && ts[2..] == [Word(x)];
  }

  lemma DecrementReads(x: string)
    ensures Expression([MinusMinus] + [Word(x)]) == Read(PreDecrement(Id(x)), [])
  {
    hide Postfix, Cast, Rung;
    var ts := [MinusMinus] + [Word(x)];
    WordUnary(x);
    Behead(MinusMinus, [Word(x)]);
    assert UnaryExpression(ts) == Decremented(UnaryExpression(ts[1..]));
    NotCast(ts);
    ClimbUp(Grammar.TOP, ts, PreDecrement(Id(x)), []);
    Whole(ts);
  }

  /** The negation of a negation is read as a decrement. */
  lemma {:induction false} DoubleNegationDecrements(x: string)
    ensures Meaning(Layout(Unary(Grammar.OpNegate, Unary(Grammar.OpNegate, Name(x))), []))
         == Read(PreDecrement(Id(x)), [])
  {
    var inner := Unary(Grammar.OpNegate, Name(x));
    LayoutTwice(Negation, x, Unary(Grammar.OpNegate, inner), inner);
    hide Layout, Lex, Expression;
    LexTwice(MinusSign, x);
    DecrementReads(x);
  }

  /** The address of an address is not read at all. */
  lemma {:induction false} DoubleAddressIsWrong(x: string)
    ensures Meaning(Layout(AddressOf(AddressOf(Name(x))), [])) == Wrong
  {
    LayoutTwice(Address, x, AddressOf(AddressOf(Name(x))), AddressOf(Name(x)));
    LexTwice(Ampersand, x);
    NothingStarts([Sign(Grammar.OpAnd)] + [Word(x)]);
  }

  lemma NothingStarts(ts: seq<Token>)
    requires HeadIs(ts, Sign(Grammar.OpAnd))
    ensures Expression(ts) == Wrong
  {
    assert Primary(ts) == Wrong;
    assert Postfix(ts) == Wrong;
    assert Cast(ts) == Wrong;
    NoRung(Grammar.TOP, ts);
  }

  lemma {:induction false} NoRung(level: nat, ts: seq<Token>)
    requires Cast(ts) == Wrong
    ensures Rung(level, ts) == Wrong
  {
    hide Cast;
    if level >= 2 {
      NoRung(level - 1, ts);
    }
  }
}
