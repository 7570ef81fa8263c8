/**
  Every path through a generated function, and what it does to the collector's stack roots.
  Conditions are not interpreted: each branch may be taken, each loop may turn any number of
  times, and a path may stop anywhere.  An unpin names a variable, and C takes the name for the
  innermost declaration in sight.
*/
module PinRuns {
  import opened Wrappers
  import opened Sequences
  import opened RootTable
  import opened Pins

  // ---------------------------------------------------------------- paths

  /** The choices made along one path; each executed statement takes one step.  `Stop` ends the path before a
      statement or a closing brace, `Value` where the value of a return is evaluated. */
  datatype Step =
    | Simple
    | Skip
    | Take(branch: nat, path: Path)
    | Iterate(turns: seq<Path>)
    | Stop
    | Value

  datatype Path = Path(steps: seq<Step>)

  /** How a path ends; where it stops, `held` are the pinned variables of the scopes open there. */
  datatype How = Normal | Broke | Returned | Stopped(held: seq<Address>)

  datatype Run = Run(ops: seq<Op>, how: How)

  /** What is in sight: each name's innermost variable, and the pinned variables of the open scopes. */
  datatype Scope = Scope(env: map<Name, Address>, held: seq<Address>)

  /** Unpins by name.  A name that is not in sight does not compile, and `Placed` rules it out. */
  function Forgets(xs: seq<Name>, env: map<Name, Address>): seq<Op> {
    if xs == [] then []
    else (if xs[0] in env then [Forget(env[xs[0]])] else []) + Forgets(xs[1..], env)
  }

  function Then(first: Run, rest: Option<Run>): Option<Run> {
    match rest
    case None => None
    case Some(r) => Some(Run(first.ops + r.ops, r.how))
  }

  function Declared(scope: Scope, x: Name, at: Address, pinned: bool): Scope {
    Scope(scope.env[x := at], if pinned then scope.held + [at] else scope.held)
  }

  /** What is in sight inside a loop. */
  function Entered(scope: Scope, variable: Option<LoopVariable>): Scope {
    if variable.Some? then Declared(scope, variable.value.name, variable.value.at, false) else scope
  }

  /** What is in sight after a statement. */
  function After(c: C, scope: Scope): Scope {
    if c.DeclareC? then Declared(scope, c.x, c.at, c.pinned) else scope
  }

  /** What a statement does along a path; `None` when the path does not fit it. */
  function RunStmt(c: C, step: Step, scope: Scope): Option<Run>
    decreases step
  {
    match c
    case PlainC => if step.Simple? then Some(Run([], Normal)) else None
    case DeclareC(_, at, pinned) =>
      if step.Simple? then Some(Run(if pinned then [Remember(at)] else [], Normal)) else None
    case BreakC => if step.Simple? then Some(Run([], Broke)) else None
    case ReturnC(unpins, value) =>
      if step.Simple? then Some(Run(Forgets(unpins, scope.env), Returned))
      else if step.Value? && value then Some(Run(Forgets(unpins, scope.env), Stopped(scope.held)))
      else None
    case IfC(branches, hasElse) =>
      if step.Skip? && !hasElse then Some(Run([], Normal))
      else if step.Take? && step.branch < |branches| then RunCode(branches[step.branch], step.path, scope)
      else None
    case LoopC(variable, body) => if step.Iterate? then RunTurns(body, step.turns, Entered(scope, variable)) else None
  }

  /** The rest of a block, which unpins `closing` before its brace. */
  function RunStmts(cs: seq<C>, closing: seq<Name>, steps: seq<Step>, scope: Scope): Option<Run>
    decreases steps
  {
    if steps == [Stop] then Some(Run([], Stopped(scope.held)))
    else if cs == [] then if steps == [] then Some(Run(Forgets(closing, scope.env), Normal)) else None
    else if steps == [] then None
    else match RunStmt(cs[0], steps[0], scope)
      case None => None
      case Some(first) =>
        if first.how.Normal? then Then(first, RunStmts(cs[1..], closing, steps[1..], After(cs[0], scope)))
        else if |steps| == 1 then Some(first) else None
  }

  function RunCode(code: Code, path: Path, scope: Scope): Option<Run>
    decreases path
  {
    RunStmts(code.body, code.closing, path.steps, scope)
  }

  function RunTurns(body: Code, turns: seq<Path>, scope: Scope): Option<Run>
    decreases turns
  {
    if turns == [] then Some(Run([], Normal))
    else match RunCode(body, turns[0], scope)
      case None => None
      case Some(first) =>
        if first.how.Normal? then Then(first, RunTurns(body, turns[1..], scope))
        else if |turns| > 1 then None
        else Some(first.(how := if first.how.Broke? then Normal else first.how))
  }

  // ---------------------------------------------------------------- conditions on the source

  /** A variable has an address of its own while it is in scope, and no name is declared twice in one block. */
  predicate WellPlaced(ss: seq<Stmt>, used: set<Address>, here: set<Name>)
    decreases ss
  {
    ss == [] || (WellPlacedStmt(ss[0], used, here)
      && if ss[0].Declare? then WellPlaced(ss[1..], used + {ss[0].at}, here + {ss[0].x})
         else WellPlaced(ss[1..], used, here))
  }

  predicate WellPlacedStmt(s: Stmt, used: set<Address>, here: set<Name>)
    decreases s
  {
    match s
    case Declare(x, at, _) => at !in used && x !in here
    case If(branches, _) => forall i :: 0 <= i < |branches| ==> WellPlacedBlock(branches[i], used)
    case Loop(variable, body) =>
      (variable.Some? ==> variable.value.at !in used) && WellPlacedBlock(body, used + AddressOf(variable))
    case _ => true
  }

  function AddressOf(variable: Option<LoopVariable>): set<Address> {
    if variable.Some? then {variable.value.at} else {}
  }

  predicate WellPlacedBlock(b: Block, used: set<Address>)
    decreases b
  {
    WellPlaced(b.stmts, used, {})
  }

  /** Control can come out at the end. */
  predicate Completes(ss: seq<Stmt>)
    decreases ss
  {
    ss == [] || (CompletesStmt(ss[0]) && Completes(ss[1..]))
  }

  predicate CompletesStmt(s: Stmt)
    decreases s
  {
    match s
    case Break => false
    case Return(_) => false
    case If(branches, hasElse) => !hasElse || exists i :: 0 <= i < |branches| && CompletesBlock(branches[i])
    case _ => true
  }

  predicate CompletesBlock(b: Block)
    decreases b
  {
    Completes(b.stmts)
  }

  /** No break is reachable while something is pinned since its loop body started. */
  predicate Safe(ss: seq<Stmt>, pinned: bool)
    decreases ss
  {
    ss == [] || (SafeStmt(ss[0], pinned)
      && (CompletesStmt(ss[0]) ==> Safe(ss[1..], pinned || PinsOf(ss[0], false) != [])))
  }

  predicate SafeStmt(s: Stmt, pinned: bool)
    decreases s
  {
    match s
    case Break => !pinned
    case If(branches, _) => forall i :: 0 <= i < |branches| ==> SafeBlock(branches[i], pinned)
    case Loop(_, body) => SafeBlock(body, false)
    case _ => true
  }

  predicate SafeBlock(b: Block, pinned: bool)
    decreases b
  {
    Safe(b.stmts, pinned)
  }

  /** No return is reachable where the name of a pinned variable has been declared again; `names` are the names
      pinned in the open scopes and `hidden` says that one of them has been.  With `quiet`, neither is a return with
      a value where something is pinned. */
  predicate Shown(ss: seq<Stmt>, names: set<Name>, hidden: bool, quiet: bool)
    decreases ss
  {
    ss == [] || (ShownStmt(ss[0], names, hidden, quiet)
      && (CompletesStmt(ss[0]) ==>
            Shown(ss[1..], names + Elements(PinsOf(ss[0], false)), Hides(ss[0], names, hidden), quiet)))
  }

  predicate ShownStmt(s: Stmt, names: set<Name>, hidden: bool, quiet: bool)
    decreases s
  {
    match s
    case Return(value) => !hidden && (quiet && value ==> names == {})
    case If(branches, _) => forall i :: 0 <= i < |branches| ==> ShownBlock(branches[i], names, hidden, quiet)
    case Loop(variable, body) => ShownBlock(body, names, LoopHides(variable, names, hidden), quiet)
    case _ => true
  }

  predicate ShownBlock(b: Block, names: set<Name>, hidden: bool, quiet: bool)
    decreases b
  {
    Shown(b.stmts, names, hidden, quiet)
  }

  predicate Hides(s: Stmt, names: set<Name>, hidden: bool) {
    hidden || (s.Declare? && s.x in names)
  }

  predicate LoopHides(variable: Option<LoopVariable>, names: set<Name>, hidden: bool) {
    hidden || (variable.Some? && variable.value.name in names)
  }

  function Elements<T>(xs: seq<T>): set<T> {
    set x | x in xs
  }

  // ---------------------------------------------------------------- a place in a function

  /** A point between two statements: what is in sight, the names pinned in the open scopes, the addresses in use,
      the names declared in this block, and how many pins came before this block and before this loop body. */
  datatype Place = Place(scope: Scope, open: seq<Name>, used: set<Address>, here: set<Name>, mark: nat, loop: nat)

  function Next(p: Place, s: Stmt): Place {
    if s.Declare? then
      p.(scope := Declared(p.scope, s.x, s.at, s.pinned), open := p.open + PinsOf(s, false),
         used := p.used + {s.at}, here := p.here + {s.x})
    else p
  }

  function Inside(p: Place): Place {
    p.(here := {}, mark := |p.open|)
  }

  function InLoop(p: Place, variable: Option<LoopVariable>): Place {
    Inside(p).(scope := Entered(p.scope, variable), used := p.used + AddressOf(variable), loop := |p.open|)
  }

  /** `held` holds each of its addresses once, and none of `base`. */
  ghost predicate Apart(base: set<Address>, held: seq<Address>) {
    && (forall i :: 0 <= i < |held| ==> held[i] !in base)
    && (forall i, j :: 0 <= i < j < |held| ==> held[i] != held[j])
  }

  ghost predicate Seen(p: Place, i: nat)
    requires i < |p.open|
  {
    i < |p.scope.held| && p.open[i] in p.scope.env && p.scope.env[p.open[i]] == p.scope.held[i]
  }

  ghost predicate Hidden(p: Place) {
    exists i :: 0 <= i < |p.open| && !Seen(p, i)
  }

  /** A place that can be reached: pinned variables are in memory once each, no other variable is where one of them
      is, and this block's own are in sight. */
  ghost predicate Placed(p: Place, base: set<Address>) {
    var env, held := p.scope.env, p.scope.held;
    && |p.open| == |held| && p.loop <= p.mark <= |held|
    && Apart(base, held)
    && base <= p.used
    && (forall i :: 0 <= i < |held| ==> held[i] in p.used && p.open[i] in env)
    && (forall y :: y in env ==> env[y] in p.used)
    && (forall y, i :: y in env && 0 <= i < |held| && env[y] == held[i] ==> y == p.open[i])
    && (forall i :: p.mark <= i < |held| ==> p.open[i] in p.here && Seen(p, i))
  }

  /** What the source promises of the statements from here on. */
  ghost predicate Fits(ss: seq<Stmt>, p: Place, base: set<Address>, quiet: bool) {
    && Placed(p, base)
    && WellPlaced(ss, p.used, p.here)
    && Safe(ss, |p.open| > p.loop)
    && Shown(ss, Elements(p.open), Hidden(p), quiet)
  }

  ghost predicate FitsStmt(s: Stmt, p: Place, base: set<Address>, quiet: bool) {
    && Placed(p, base)
    && WellPlacedStmt(s, p.used, p.here)
    && SafeStmt(s, |p.open| > p.loop)
    && ShownStmt(s, Elements(p.open), Hidden(p), quiet)
  }

  lemma NextPlaced(s: Stmt, p: Place, base: set<Address>)
    requires Placed(p, base) && WellPlacedStmt(s, p.used, p.here)
    ensures Placed(Next(p, s), base)
    ensures Hidden(Next(p, s)) <==> Hides(s, Elements(p.open), Hidden(p))
  {
    if s.Declare? {
      var q := Next(p, s);
      forall i | 0 <= i < |p.open|
        ensures Seen(q, i) <==> Seen(p, i) && p.open[i] != s.x
      {
      }
      assert s.pinned ==> Seen(q, |p.open|);
      if s.x in p.open {
        var i :| 0 <= i < |p.open| && p.open[i] == s.x;
        assert !Seen(q, i);
      }
      if Hidden(p) {
        var i :| 0 <= i < |p.open| && !Seen(p, i);
        assert !Seen(q, i);
      }
    }
  }

  lemma NextElements(s: Stmt, p: Place)
    ensures Elements(Next(p, s).open) == Elements(p.open) + Elements(PinsOf(s, false))
  {
  }

  lemma NextFits(ss: seq<Stmt>, p: Place, base: set<Address>, quiet: bool)
    requires ss != [] && Fits(ss, p, base, quiet)
    ensures FitsStmt(ss[0], p, base, quiet)
    ensures CompletesStmt(ss[0]) ==> Fits(ss[1..], Next(p, ss[0]), base, quiet)
  {
    hide Hidden;
    NextPlaced(ss[0], p, base);
    NextElements(ss[0], p);
    hide Placed;
    NextOpen(p, ss[0]);
  }

  lemma InsidePlaced(p: Place, base: set<Address>)
    requires Placed(p, base)
    ensures Placed(Inside(p), base) && Hidden(Inside(p)) == Hidden(p)
  {
    var q := Inside(p);
    assert forall i :: 0 <= i < |p.open| ==> Seen(q, i) == Seen(p, i);
  }

  /** A loop variable is declared as any other that is not pinned, around the body. */
  lemma InLoopPlaced(p: Place, variable: Option<LoopVariable>, base: set<Address>)
    requires Placed(p, base) && (variable.Some? ==> variable.value.at !in p.used)
    ensures Placed(InLoop(p, variable), base)
    ensures Hidden(InLoop(p, variable)) <==> LoopHides(variable, Elements(p.open), Hidden(p))
    ensures RootsAt(InLoop(p, variable), base) == RootsAt(p, base) && p.loop <= |p.scope.held|
  {
    InsidePlaced(p, base);
    hide Placed, Hidden, Elements;
    if variable.Some? {
      var s := Declare(variable.value.name, variable.value.at, false);
      NextPlaced(s, Inside(p), base);
      NextOpen(Inside(p), s);
      assert p.open + [] == p.open;
      assert Next(Inside(p), s).(here := {}, loop := |p.open|) == InLoop(p, variable);
      LoopPlaced(Next(Inside(p), s), base);
    } else {
      assert p.used + {} == p.used;
      LoopPlaced(Inside(p), base);
    }
  }

  lemma LoopPlaced(q: Place, base: set<Address>)
    requires Placed(q, base) && q.mark == |q.open|
    ensures var r := q.(here := {}, loop := |q.open|);
            Placed(r, base) && Hidden(r) == Hidden(q)
  {
    var r := q.(here := {}, loop := |q.open|);
    assert forall i :: 0 <= i < |q.open| ==> Seen(r, i) == Seen(q, i);
  }

  /** The tail of a list, written after its head. */
  lemma WriteTail(ss: seq<Stmt>, p: Place)
    requires ss != []
    ensures var cs := WriteStmts(ss, p.open, false);
            && cs != [] && cs[0] == WriteStmt(ss[0], p.open, false)
            && cs[1..] == WriteStmts(ss[1..], Next(p, ss[0]).open, false)
            && After(cs[0], p.scope) == Next(p, ss[0]).scope
    ensures |PinsIn(ss, false)| == |PinsOf(ss[0], false)| + |PinsIn(ss[1..], false)|
  {
    assert p.open + [] == p.open;
  }

  // ---------------------------------------------------------------- safe code keeps its roots

  /** What a run must do: `base` are the roots on entry to the function, `normal` those at the end and `broke` those
      after a break.  With `quiet`, the roots where a path stops are those of the open scopes. */
  ghost predicate Keeps(r: Run, live: set<Address>, normal: set<Address>, broke: set<Address>, base: set<Address>,
                        quiet: bool) {
    Disciplined(r.ops, live) &&
    match r.how
    case Normal => RunSet(r.ops, live) == normal
    case Broke => RunSet(r.ops, live) == broke
    case Returned => RunSet(r.ops, live) == base
    case Stopped(held) => quiet ==> RunSet(r.ops, live) == base + Elements(held)
  }

  /** Names in sight of their own variables unpin exactly those. */
  lemma {:induction false} ForgetsAll(xs: seq<Name>, ats: seq<Address>, env: map<Name, Address>, base: set<Address>)
    requires Apart(base, ats) && |xs| == |ats|
    requires forall i :: 0 <= i < |xs| ==> xs[i] in env && env[xs[i]] == ats[i]
    ensures Disciplined(Forgets(xs, env), base + Elements(ats))
    ensures RunSet(Forgets(xs, env), base + Elements(ats)) == base
  {
    if xs != [] {
      ForgetsAll(xs[1..], ats[1..], env, base);
      assert env[xs[0]] == ats[0];
      assert base + Elements(ats) - {ats[0]} == base + Elements(ats[1..]);
      assert Forgets(xs, env)[1..] == Forgets(xs[1..], env);
    } else {
      assert base + Elements(ats) == base;
    }
  }

  lemma ClosingKeeps(p: Place, base: set<Address>)
    requires Placed(p, base)
    ensures var ops, live := Forgets(p.open[p.mark..], p.scope.env), base + Elements(p.scope.held);
            Disciplined(ops, live) && RunSet(ops, live) == base + Elements(p.scope.held[..p.mark])
  {
    var held, mark := p.scope.held, p.mark;
    var outer := base + Elements(held[..mark]);
    forall i | 0 <= i < |held| - mark
      ensures p.open[mark..][i] in p.scope.env && p.scope.env[p.open[mark..][i]] == held[mark..][i]
    {
      assert Seen(p, mark + i);
    }
    assert outer + Elements(held[mark..]) == base + Elements(held);
    ForgetsAll(p.open[mark..], held[mark..], p.scope.env, outer);
  }

  lemma ReturnKeeps(p: Place, base: set<Address>)
    requires Placed(p, base) && !Hidden(p)
    ensures var ops, live := Forgets(p.open, p.scope.env), base + Elements(p.scope.held);
            Disciplined(ops, live) && RunSet(ops, live) == base
  {
    forall i | 0 <= i < |p.open|
      ensures p.open[i] in p.scope.env && p.scope.env[p.open[i]] == p.scope.held[i]
    {
      assert Seen(p, i);
    }
    ForgetsAll(p.open, p.scope.held, p.scope.env, base);
  }

  lemma ThenKeeps(first: Run, rest: Run, live: set<Address>, mid: set<Address>, normal: set<Address>,
                  broke: set<Address>, base: set<Address>, quiet: bool)
    requires first.how.Normal? && Keeps(first, live, mid, broke, base, quiet)
    requires Keeps(rest, mid, normal, broke, base, quiet)
    ensures Keeps(Run(first.ops + rest.ops, rest.how), live, normal, broke, base, quiet)
  {
    RunSetAppend(first.ops, rest.ops, live);
  }

  /** The roots at a place, with `n` of the pins of its open scopes. */
  function Roots(p: Place, base: set<Address>, n: nat): set<Address>
    requires n <= |p.scope.held|
  {
    base + Elements(p.scope.held[..n])
  }

  function RootsAt(p: Place, base: set<Address>): (roots: set<Address>)
    ensures roots == Roots(p, base, |p.scope.held|)
  {
    assert p.scope.held[..|p.scope.held|] == p.scope.held;
    base + Elements(p.scope.held)
  }

  lemma StmtKeeps(s: Stmt, step: Step, p: Place, base: set<Address>, quiet: bool)
    requires FitsStmt(s, p, base, quiet)
    requires RunStmt(WriteStmt(s, p.open, false), step, p.scope).Some?
    ensures Keeps(RunStmt(WriteStmt(s, p.open, false), step, p.scope).value, RootsAt(p, base),
                  RootsAt(Next(p, s), base), Roots(p, base, p.loop), base, quiet)
    decreases step
  {
    hide Placed, Hidden, RunTurns, RunStmts, WriteStmts, Elements, PinsIn, WellPlaced, Safe, Shown;
    match s
    case If(branches, hasElse) =>
      if step.Take? {
        var b := branches[step.branch];
        InsidePlaced(p, base);
        assert WellPlacedBlock(b, p.used) && SafeBlock(b, |p.open| > p.loop);
        assert ShownBlock(b, Elements(p.open), Hidden(p), quiet);
        CodeKeeps(b, step.path, Inside(p), base, quiet);
      }
    case Loop(variable, body) =>
      InLoopPlaced(p, variable, base);
      var q := InLoop(p, variable);
      assert WellPlacedBlock(body, q.used) && SafeBlock(body, false);
      assert ShownBlock(body, Elements(p.open), Hidden(q), quiet);
      TurnsKeep(body, step.turns, q, base, Roots(p, base, p.loop), quiet);
    case _ => SimpleKeeps(s, step, p, base, quiet);
  }

  lemma SimpleKeeps(s: Stmt, step: Step, p: Place, base: set<Address>, quiet: bool)
    requires FitsStmt(s, p, base, quiet) && !s.If? && !s.Loop?
    requires RunStmt(WriteStmt(s, p.open, false), step, p.scope).Some?
    ensures Keeps(RunStmt(WriteStmt(s, p.open, false), step, p.scope).value, RootsAt(p, base),
                  RootsAt(Next(p, s), base), Roots(p, base, p.loop), base, quiet)
  {
    hide Apart, Hidden;
    match s
    case Plain =>
    case Declare(x, at, pinned) =>
      if pinned {
        assert base + Elements(p.scope.held + [at]) == base + Elements(p.scope.held) + {at};
        var ops := [Remember(at)];
        assert ops[1..] == [];
        assert at !in RootsAt(p, base);
        assert Disciplined(ops, RootsAt(p, base));
        assert RunSet(ops, RootsAt(p, base)) == RootsAt(p, base) + {at};
        assert Next(p, s).scope.held == p.scope.held + [at];
      } else {
        assert Next(p, s).scope.held == p.scope.held;
      }
    case Break => assert p.scope.held[..p.loop] == p.scope.held;
    case Return(value) =>
      ReturnKeeps(p, base);
      if quiet && value {
        NothingHeld(p);
        assert p.scope.held == [];
      }
  }

  lemma NothingHeld(p: Place)
    ensures p.open != [] ==> p.open[0] in Elements(p.open)
  {
  }

  /** Wherever a path through a list of statements ends, the roots are as they should be. */
  lemma StmtsKeep(ss: seq<Stmt>, steps: seq<Step>, closing: seq<Name>, p: Place, base: set<Address>, quiet: bool)
    requires Fits(ss, p, base, quiet) && closing == p.open[p.mark..] + PinsIn(ss, false)
    requires RunStmts(WriteStmts(ss, p.open, false), closing, steps, p.scope).Some?
    ensures Keeps(RunStmts(WriteStmts(ss, p.open, false), closing, steps, p.scope).value, RootsAt(p, base),
                  Roots(p, base, p.mark), Roots(p, base, p.loop), base, quiet)
    decreases steps
  {
    if steps == [Stop] {
    } else if ss == [] {
      assert closing == p.open[p.mark..];
      ClosingKeeps(p, base);
    } else {
      hide Disciplined, RunSet, Keeps, Placed, Elements, PinsOf, PinsIn, WriteStmt, WriteStmts, RunStmt, Hidden,
        WellPlaced, Safe, Shown, WellPlacedStmt, SafeStmt, ShownStmt;
      var cs, q := WriteStmts(ss, p.open, false), Next(p, ss[0]);
      WriteTail(ss, p);
      NextFits(ss, p, base, quiet);
      var first := RunStmt(cs[0], steps[0], p.scope).value;
      StmtKeeps(ss[0], steps[0], p, base, quiet);
      NextRoots(ss, p, base);
      if first.how.Normal? {
        NormalCompletes(ss[0], steps[0], p);
        StmtsKeep(ss[1..], steps[1..], closing, q, base, quiet);
        var rest := RunStmts(cs[1..], closing, steps[1..], q.scope).value;
        ThenKeeps(first, rest, RootsAt(p, base), RootsAt(q, base), Roots(p, base, p.mark), Roots(p, base, p.loop),
                  base, quiet);
      } else {
        AbnormalKeeps(first, RootsAt(p, base), RootsAt(q, base), Roots(p, base, p.mark), Roots(p, base, p.loop), base,
                      quiet);
      }
    }
  }

  lemma AbnormalKeeps(r: Run, live: set<Address>, mid: set<Address>, normal: set<Address>, broke: set<Address>,
                      base: set<Address>, quiet: bool)
    requires !r.how.Normal? && Keeps(r, live, mid, broke, base, quiet)
    ensures Keeps(r, live, normal, broke, base, quiet)
  {
  }

  /** A statement changes none of the pins before its block or its loop. */
  lemma NextRoots(ss: seq<Stmt>, p: Place, base: set<Address>)
    requires ss != [] && Placed(p, base)
    ensures var q := Next(p, ss[0]);
            && q.mark == p.mark <= |p.scope.held| <= |q.scope.held| && q.loop == p.loop <= p.mark
            && Roots(q, base, q.mark) == Roots(p, base, p.mark)
            && Roots(q, base, q.loop) == Roots(p, base, p.loop)
            && q.open[q.mark..] + PinsIn(ss[1..], false) == p.open[p.mark..] + PinsIn(ss, false)
  {
    var q := Next(p, ss[0]);
    assert q.scope.held[..p.mark] == p.scope.held[..p.mark];
    assert q.scope.held[..p.loop] == p.scope.held[..p.loop];
    assert q.open[q.mark..] == p.open[p.mark..] + PinsOf(ss[0], false);
    Assoc(p.open[p.mark..], PinsOf(ss[0], false), PinsIn(ss[1..], false));
  }

  lemma CodeKeeps(b: Block, path: Path, p: Place, base: set<Address>, quiet: bool)
    requires p.mark == |p.open| && p.here == {}
    requires Fits(b.stmts, p, base, quiet)
    requires RunCode(WriteBlock(b, p.open, false), path, p.scope).Some?
    ensures Keeps(RunCode(WriteBlock(b, p.open, false), path, p.scope).value, RootsAt(p, base), RootsAt(p, base),
                  Roots(p, base, p.loop), base, quiet)
    decreases path
  {
    assert p.open[p.mark..] + PinsIn(b.stmts, false) == PinsIn(b.stmts, false);
    StmtsKeep(b.stmts, path.steps, PinsIn(b.stmts, false), p, base, quiet);
  }

  lemma TurnsKeep(b: Block, turns: seq<Path>, p: Place, base: set<Address>, broke: set<Address>, quiet: bool)
    requires p.loop == p.mark == |p.open| && p.here == {}
    requires Fits(b.stmts, p, base, quiet)
    requires RunTurns(WriteBlock(b, p.open, false), turns, p.scope).Some?
    ensures Keeps(RunTurns(WriteBlock(b, p.open, false), turns, p.scope).value, RootsAt(p, base), RootsAt(p, base),
                  broke, base, quiet)
    decreases turns
  {
    if turns != [] {
      hide Placed;
      var live := RootsAt(p, base);
      var first := RunCode(WriteBlock(b, p.open, false), turns[0], p.scope).value;
      CodeKeeps(b, turns[0], p, base, quiet);
      if first.how.Normal? {
        TurnsKeep(b, turns[1..], p, base, broke, quiet);
        var rest := RunTurns(WriteBlock(b, p.open, false), turns[1..], p.scope).value;
        ThenKeeps(first, rest, live, live, live, broke, base, quiet);
      }
    }
  }

  /** A statement that control left at the end is one that completes. */
  lemma NormalCompletes(s: Stmt, step: Step, p: Place)
    requires RunStmt(WriteStmt(s, p.open, false), step, p.scope).Some?
    requires RunStmt(WriteStmt(s, p.open, false), step, p.scope).value.how.Normal?
    ensures CompletesStmt(s)
    decreases step
  {
    if s.If? && s.hasElse {
      var b := s.branches[step.branch];
      NormalCompletesAll(b.stmts, step.path.steps, PinsIn(b.stmts, false), p);
      assert CompletesBlock(b);
    }
  }

  lemma NormalCompletesAll(ss: seq<Stmt>, steps: seq<Step>, closing: seq<Name>, p: Place)
    requires RunStmts(WriteStmts(ss, p.open, false), closing, steps, p.scope).Some?
    requires RunStmts(WriteStmts(ss, p.open, false), closing, steps, p.scope).value.how.Normal?
    ensures Completes(ss)
    decreases steps
  {
    if ss != [] {
      WriteTail(ss, p);
      NormalCompletes(ss[0], steps[0], p);
      NormalCompletesAll(ss[1..], steps[1..], closing, Next(p, ss[0]));
    }
  }

  // ---------------------------------------------------------------- unsafe code leaks a root

  /** An `else` follows at least one condition. */
  predicate Formed(ss: seq<Stmt>)
    decreases ss
  {
    ss == [] || (FormedStmt(ss[0]) && Formed(ss[1..]))
  }

  predicate FormedStmt(s: Stmt)
    decreases s
  {
    match s
    case If(branches, hasElse) =>
      && (hasElse ==> branches != [])
      && (forall i :: 0 <= i < |branches| ==> FormedBlock(branches[i]))
    case Loop(_, body) => FormedBlock(body)
    case _ => true
  }

  predicate FormedBlock(b: Block)
    decreases b
  {
    Formed(b.stmts)
  }

  /** The fewest registrations, less forgets, that a run can end with. */
  function Least(how: How, open: nat, pins: int): int {
    match how
    case Normal => pins
    case Broke => 0
    case Returned => 0 - open
    case Stopped(_) => 0 - open
  }

  lemma {:induction false} ForgetsBalance(xs: seq<Name>, env: map<Name, Address>)
    ensures Balance(Forgets(xs, env)) >= -|xs|
  {
    if xs != [] {
      ForgetsBalance(xs[1..], env);
      BalanceAppend(if xs[0] in env then [Forget(env[xs[0]])] else [], Forgets(xs[1..], env));
    }
  }

  lemma StmtBalance(s: Stmt, step: Step, p: Place)
    requires RunStmt(WriteStmt(s, p.open, false), step, p.scope).Some?
    ensures var r := RunStmt(WriteStmt(s, p.open, false), step, p.scope).value;
            Balance(r.ops) >= Least(r.how, |p.open|, |PinsOf(s, false)|)
    decreases step
  {
    match s
    case Return(_) => ForgetsBalance(p.open, p.scope.env);
    case If(branches, _) =>
      if step.Take? {
        CodeBalance(branches[step.branch], step.path, p);
      }
    case Loop(variable, body) => TurnsBalance(body, step.turns, InLoop(p, variable));
    case _ =>
  }

  /** No path through a list of statements unpins more than is pinned. */
  lemma StmtsBalance(ss: seq<Stmt>, steps: seq<Step>, closing: seq<Name>, p: Place)
    requires RunStmts(WriteStmts(ss, p.open, false), closing, steps, p.scope).Some?
    ensures var r := RunStmts(WriteStmts(ss, p.open, false), closing, steps, p.scope).value;
            Balance(r.ops) >= Least(r.how, |p.open|, |PinsIn(ss, false)| - |closing|)
    decreases steps
  {
    ForgetsBalance(closing, p.scope.env);
    if ss != [] && steps != [Stop] {
      hide Balance, PinsOf, WriteStmt, WriteStmts, RunStmt;
      var cs, q := WriteStmts(ss, p.open, false), Next(p, ss[0]);
      WriteTail(ss, p);
      var first := RunStmt(cs[0], steps[0], p.scope).value;
      StmtBalance(ss[0], steps[0], p);
      if first.how.Normal? {
        StmtsBalance(ss[1..], steps[1..], closing, q);
        BalanceAppend(first.ops, RunStmts(cs[1..], closing, steps[1..], q.scope).value.ops);
        NextOpen(p, ss[0]);
      }
    }
  }

  lemma NextOpen(p: Place, s: Stmt)
    ensures Next(p, s).open == p.open + PinsOf(s, false)
  {
    assert p.open + [] == p.open;
  }

  lemma CodeBalance(b: Block, path: Path, p: Place)
    requires RunCode(WriteBlock(b, p.open, false), path, p.scope).Some?
    ensures var r := RunCode(WriteBlock(b, p.open, false), path, p.scope).value;
            Balance(r.ops) >= Least(r.how, |p.open|, 0)
    decreases path
  {
    StmtsBalance(b.stmts, path.steps, PinsIn(b.stmts, false), p);
  }

  lemma TurnsBalance(b: Block, turns: seq<Path>, p: Place)
    requires RunTurns(WriteBlock(b, p.open, false), turns, p.scope).Some?
    ensures var r := RunTurns(WriteBlock(b, p.open, false), turns, p.scope).value;
            Balance(r.ops) >= Least(r.how, |p.open|, 0)
    decreases turns
  {
    if turns != [] {
      var code := WriteBlock(b, p.open, false);
      var first := RunCode(code, turns[0], p.scope).value;
      CodeBalance(b, turns[0], p);
      if first.how.Normal? {
        TurnsBalance(b, turns[1..], p);
        BalanceAppend(first.ops, RunTurns(code, turns[1..], p.scope).value.ops);
      }
    }
  }

  /** Every statement has a run. */
  lemma SomeRun(s: Stmt, p: Place) returns (step: Step)
    requires FormedStmt(s)
    ensures RunStmt(WriteStmt(s, p.open, false), step, p.scope).Some?
    ensures !RunStmt(WriteStmt(s, p.open, false), step, p.scope).value.how.Stopped?
    decreases s
  {
    step := Simple;
    match s
    case If(branches, hasElse) =>
      step := Skip;
      if hasElse {
        assert FormedBlock(branches[0]);
        var steps := SomeRunAll(branches[0].stmts, PinsIn(branches[0].stmts, false), p);
        step := Take(0, Path(steps));
      }
    case Loop(_, body) => step := Iterate([]);
    case _ =>
  }

  lemma SomeRunAll(ss: seq<Stmt>, closing: seq<Name>, p: Place) returns (steps: seq<Step>)
    requires Formed(ss)
    ensures RunStmts(WriteStmts(ss, p.open, false), closing, steps, p.scope).Some?
    ensures !RunStmts(WriteStmts(ss, p.open, false), closing, steps, p.scope).value.how.Stopped?
    decreases ss
  {
    steps := [];
    if ss != [] {
      hide RunStmts, WriteStmt, WriteStmts, RunStmt, PinsOf, PinsIn;
      WriteTail(ss, p);
      var step := SomeRun(ss[0], p);
      var rest := [];
      if RunStmt(WriteStmt(ss[0], p.open, false), step, p.scope).value.how.Normal? {
        rest := SomeRunAll(ss[1..], closing, Next(p, ss[0]));
      }
      steps := [step] + rest;
      FirstOfRun(WriteStmts(ss, p.open, false), closing, step, rest, p.scope);
    }
  }

  /** The first statement of a list, and the rest if it comes out at its end. */
  lemma FirstOfRun(cs: seq<C>, closing: seq<Name>, step: Step, rest: seq<Step>, scope: Scope)
    requires cs != [] && RunStmt(cs[0], step, scope).Some?
    ensures var first := RunStmt(cs[0], step, scope).value;
            var all := if first.how.Normal? then Then(first, RunStmts(cs[1..], closing, rest, After(cs[0], scope)))
                       else if rest == [] then Some(first) else None;
            RunStmts(cs, closing, [step] + rest, scope) == all
  {
    var steps := [step] + rest;
    assert steps[0] == step && steps[1..] == rest;
    assert !step.Stop?;
    hide RunStmt;
  }

  /** A statement that completes has a run that reaches its end. */
  lemma NormalRun(s: Stmt, p: Place) returns (step: Step)
    requires CompletesStmt(s)
    ensures RunStmt(WriteStmt(s, p.open, false), step, p.scope).Some?
    ensures RunStmt(WriteStmt(s, p.open, false), step, p.scope).value.how.Normal?
    decreases s
  {
    step := Simple;
    match s
    case If(branches, hasElse) =>
      step := Skip;
      if hasElse {
        var i :| 0 <= i < |branches| && CompletesBlock(branches[i]);
        var steps := NormalRunAll(branches[i].stmts, PinsIn(branches[i].stmts, false), p);
        step := Take(i, Path(steps));
      }
    case Loop(_, body) => step := Iterate([]);
    case _ =>
  }

  lemma NormalRunAll(ss: seq<Stmt>, closing: seq<Name>, p: Place) returns (steps: seq<Step>)
    requires Completes(ss)
    ensures RunStmts(WriteStmts(ss, p.open, false), closing, steps, p.scope).Some?
    ensures RunStmts(WriteStmts(ss, p.open, false), closing, steps, p.scope).value.how.Normal?
    decreases ss
  {
    steps := [];
    if ss != [] {
      hide RunStmts, WriteStmt, WriteStmts, RunStmt, PinsOf, PinsIn;
      WriteTail(ss, p);
      var step := NormalRun(ss[0], p);
      var rest := NormalRunAll(ss[1..], closing, Next(p, ss[0]));
      steps := [step] + rest;
      FirstOfRun(WriteStmts(ss, p.open, false), closing, step, rest, p.scope);
    }
  }

  /** A run that does not stop half way and ends with one more root than it should. */
  predicate Leaks(r: Run, open: nat, pins: int, pinned: bool) {
    && !r.how.Stopped?
    && (Balance(r.ops) > Least(r.how, open, pins) || (r.how.Broke? && pinned && Balance(r.ops) >= 0))
  }

  /** From an unsafe statement some run breaks with a pin outstanding, or has already leaked. */
  lemma UnsafeLeaks(s: Stmt, p: Place, pinned: bool) returns (step: Step)
    requires FormedStmt(s) && !SafeStmt(s, pinned)
    ensures RunStmt(WriteStmt(s, p.open, false), step, p.scope).Some?
    ensures Leaks(RunStmt(WriteStmt(s, p.open, false), step, p.scope).value, |p.open|, |PinsOf(s, false)|, pinned)
    decreases s
  {
    step := Simple;
    match s
    case Break =>
    case If(branches, hasElse) =>
      var i :| 0 <= i < |branches| && !SafeBlock(branches[i], pinned);
      assert FormedBlock(branches[i]);
      var steps := UnsafeListLeaks(branches[i].stmts, PinsIn(branches[i].stmts, false), p, pinned);
      step := Take(i, Path(steps));
    case Loop(variable, body) =>
      var q := InLoop(p, variable);
      var steps := UnsafeListLeaks(body.stmts, PinsIn(body.stmts, false), q, false);
      OneTurn(WriteBlock(body, p.open, false), Path(steps), q.scope);
      step := Iterate([Path(steps)]);
    case _ =>
  }

  lemma OneTurn(code: Code, path: Path, scope: Scope)
    requires RunCode(code, path, scope).Some?
    ensures var r := RunCode(code, path, scope).value;
            RunTurns(code, [path], scope) == Some(r.(how := if r.how.Broke? then Normal else r.how))
  {
    var turns := [path];
    assert turns[1..] == [];
    assert RunTurns(code, turns[1..], scope) == Some(Run([], Normal));
    var r := RunCode(code, path, scope).value;
    assert r.ops + [] == r.ops;
  }

  lemma UnsafeListLeaks(ss: seq<Stmt>, closing: seq<Name>, p: Place, pinned: bool) returns (steps: seq<Step>)
    requires Formed(ss) && !Safe(ss, pinned)
    ensures RunStmts(WriteStmts(ss, p.open, false), closing, steps, p.scope).Some?
    ensures Leaks(RunStmts(WriteStmts(ss, p.open, false), closing, steps, p.scope).value, |p.open|,
                  |PinsIn(ss, false)| - |closing|, pinned)
    decreases ss
  {
    hide RunStmts, WriteStmt, WriteStmts, RunStmt, PinsOf, PinsIn, Balance;
    var cs, q := WriteStmts(ss, p.open, false), Next(p, ss[0]);
    WriteTail(ss, p);
    NextOpen(p, ss[0]);
    var step;
    var rest := [];
    if !SafeStmt(ss[0], pinned) {
      step := UnsafeLeaks(ss[0], p, pinned);
      if RunStmt(cs[0], step, p.scope).value.how.Normal? {
        rest := SomeRunAll(ss[1..], closing, q);
        StmtsBalance(ss[1..], rest, closing, q);
      }
    } else {
      step := NormalRun(ss[0], p);
      StmtBalance(ss[0], step, p);
      rest := UnsafeListLeaks(ss[1..], closing, q, pinned || PinsOf(ss[0], false) != []);
    }
    steps := [step] + rest;
    FirstOfRun(cs, closing, step, rest, p.scope);
    var first := RunStmt(cs[0], step, p.scope).value;
    if first.how.Normal? {
      BalanceAppend(first.ops, RunStmts(cs[1..], closing, rest, q.scope).value.ops);
    }
  }

  // ---------------------------------------------------------------- returns under a hidden name

  predicate ForgetsOthers(ops: seq<Op>, a: Address) {
    forall i :: 0 <= i < |ops| ==> ops[i].Forget? && ops[i].pointer != a
  }

  /** After a disciplined start `a` is live, and what follows only forgets other addresses. */
  predicate Outlives(a: Address, ops: seq<Op>, live: set<Address>) {
    (a in live && ForgetsOthers(ops, a)) ||
    (ops != [] &&
     match ops[0]
     case Remember(b) => b !in live && Outlives(a, ops[1..], live + {b})
     case Forget(b) => b in live && Outlives(a, ops[1..], live - {b}))
  }

  lemma {:induction false} OutlivesLater(a: Address, first: seq<Op>, rest: seq<Op>, live: set<Address>)
    requires Disciplined(first, live) && Outlives(a, rest, RunSet(first, live))
    ensures Outlives(a, first + rest, live)
  {
    if first == [] {
      assert first + rest == rest;
    } else {
      assert (first + rest)[1..] == first[1..] + rest;
      OutlivesLater(a, first[1..], rest,
                    if first[0].Remember? then live + {first[0].pointer} else live - {first[0].pointer});
    }
  }

  lemma {:induction false} OthersStay(a: Address, ops: seq<Op>, slots: seq<Slot>)
    requires a in Live(slots) && ForgetsOthers(ops, a) && RunTable(ops, slots).Some?
    ensures a in Live(RunTable(ops, slots).value)
  {
    if ops != [] {
      assert ops[0].Forget?;
      var i :| 0 <= i < |slots| && slots[i] == Slot(true, a);
      var after := Forgotten(slots, ops[0].pointer).value;
      assert after[i] == Slot(true, a);
      OthersStay(a, ops[1..], after);
    }
  }

  lemma {:induction false} OutlivesInTable(a: Address, ops: seq<Op>, slots: seq<Slot>)
    requires Ordered(slots) && Outlives(a, ops, Live(slots)) && RunTable(ops, slots).Some?
    ensures a in Live(RunTable(ops, slots).value)
  {
    if a in Live(slots) && ForgetsOthers(ops, a) {
      OthersStay(a, ops, slots);
    } else if ops[0].Remember? {
      RememberAddsOne(slots, ops[0].pointer);
      OutlivesInTable(a, ops[1..], Remembered(slots, ops[0].pointer));
    } else {
      ForgetRemovesOne(slots, ops[0].pointer);
      OutlivesInTable(a, ops[1..], Forgotten(slots, ops[0].pointer).value);
    }
  }

  /** A run that returns with a root too many, or stops where the roots are not those of the open scopes. */
  ghost predicate Bad(r: Run, live: set<Address>, base: set<Address>) {
    match r.how
    case Returned => exists a :: a !in base && Outlives(a, r.ops, live)
    case Stopped(held) => Disciplined(r.ops, live) && RunSet(r.ops, live) != base + Elements(held)
    case _ => false
  }

  lemma ThenBad(first: Run, rest: Run, live: set<Address>, mid: set<Address>, broke: set<Address>,
                base: set<Address>, quiet: bool)
    requires first.how.Normal? && Keeps(first, live, mid, broke, base, quiet) && Bad(rest, mid, base)
    ensures Bad(Run(first.ops + rest.ops, rest.how), live, base)
  {
    if rest.how.Returned? {
      var a :| a !in base && Outlives(a, rest.ops, mid);
      OutlivesLater(a, first.ops, rest.ops, live);
    } else {
      RunSetAppend(first.ops, rest.ops, live);
    }
  }

  /** Unpinning every name forgets no variable that is out of sight. */
  lemma {:induction false} ForgetsSparesHidden(xs: seq<Name>, env: map<Name, Address>, a: Address)
    requires forall x :: x in xs && x in env ==> env[x] != a
    ensures ForgetsOthers(Forgets(xs, env), a)
  {
    if xs != [] {
      ForgetsSparesHidden(xs[1..], env, a);
    }
  }

  lemma ReturnIsBad(p: Place, value: bool, base: set<Address>, quiet: bool) returns (step: Step)
    requires Placed(p, base) && !ShownStmt(Return(value), Elements(p.open), Hidden(p), quiet)
    ensures RunStmt(ReturnC(p.open, value), step, p.scope).Some?
    ensures var r := RunStmt(ReturnC(p.open, value), step, p.scope).value;
            Bad(r, RootsAt(p, base), base) && (!quiet ==> r.how.Returned?)
  {
    var env, held := p.scope.env, p.scope.held;
    if Hidden(p) {
      var i :| 0 <= i < |p.open| && !Seen(p, i);
      ForgetsSparesHidden(p.open, env, held[i]);
      assert held[i] !in base && Outlives(held[i], Forgets(p.open, env), RootsAt(p, base));
      step := Simple;
    } else {
      ReturnKeeps(p, base);
      var i :| 0 <= i < |p.open|;
      assert held[i] in base + Elements(held) && held[i] !in base;
      step := Value;
    }
  }

  /** Where a return is not as it should be, a path shows it. */
  lemma NotShownIsBad(s: Stmt, p: Place, base: set<Address>, quiet: bool) returns (step: Step)
    requires Placed(p, base) && WellPlacedStmt(s, p.used, p.here) && SafeStmt(s, |p.open| > p.loop)
    requires !ShownStmt(s, Elements(p.open), Hidden(p), quiet)
    ensures RunStmt(WriteStmt(s, p.open, false), step, p.scope).Some?
    ensures var r := RunStmt(WriteStmt(s, p.open, false), step, p.scope).value;
            Bad(r, RootsAt(p, base), base) && (!quiet ==> r.how.Returned?)
    decreases s
  {
    hide Placed, Hidden, Bad, Elements, PinsIn, Roots, WriteStmts, RunStmts, RunTurns, Shown, WellPlaced, Safe;
    match s
    case Return(value) => step := ReturnIsBad(p, value, base, quiet);
    case If(branches, hasElse) =>
      var i :| 0 <= i < |branches| && !ShownBlock(branches[i], Elements(p.open), Hidden(p), quiet);
      assert WellPlacedBlock(branches[i], p.used) && SafeBlock(branches[i], |p.open| > p.loop);
      InsidePlaced(p, base);
      NoneYet(p.open, PinsIn(branches[i].stmts, false));
      var steps := NotShownListIsBad(branches[i].stmts, PinsIn(branches[i].stmts, false), Inside(p), base, quiet);
      step := Take(i, Path(steps));
    case Loop(variable, body) =>
      var q := InLoop(p, variable);
      InLoopPlaced(p, variable, base);
      NoneYet(p.open, PinsIn(body.stmts, false));
      var steps := NotShownListIsBad(body.stmts, PinsIn(body.stmts, false), q, base, quiet);
      BadEnds(RunCode(WriteBlock(body, p.open, false), Path(steps), q.scope).value, RootsAt(p, base), base);
      OneTurn(WriteBlock(body, p.open, false), Path(steps), q.scope);
      step := Iterate([Path(steps)]);
  }

  lemma NoneYet(open: seq<Name>, pins: seq<Name>)
    ensures open[|open|..] + pins == pins
  {
  }

  lemma BadEnds(r: Run, live: set<Address>, base: set<Address>)
    requires Bad(r, live, base)
    ensures r.how.Returned? || r.how.Stopped?
  {
  }

  lemma NotShownListIsBad(ss: seq<Stmt>, closing: seq<Name>, p: Place, base: set<Address>, quiet: bool)
    returns (steps: seq<Step>)
    requires Placed(p, base) && WellPlaced(ss, p.used, p.here) && Safe(ss, |p.open| > p.loop)
    requires closing == p.open[p.mark..] + PinsIn(ss, false)
    requires !Shown(ss, Elements(p.open), Hidden(p), quiet)
    ensures RunStmts(WriteStmts(ss, p.open, false), closing, steps, p.scope).Some?
    ensures var r := RunStmts(WriteStmts(ss, p.open, false), closing, steps, p.scope).value;
            Bad(r, RootsAt(p, base), base) && (!quiet ==> r.how.Returned?)
    decreases ss
  {
    hide RunStmts, Placed, Hidden, Bad, Keeps, WriteStmt, WriteStmts, RunStmt, PinsIn, Elements, ShownStmt,
      WellPlacedStmt, SafeStmt;
    var cs, q := WriteStmts(ss, p.open, false), Next(p, ss[0]);
    WriteTail(ss, p);
    NextRoots(ss, p, base);
    NextPlaced(ss[0], p, base);
    NextElements(ss[0], p);
    var step;
    if !ShownStmt(ss[0], Elements(p.open), Hidden(p), quiet) {
      step := NotShownIsBad(ss[0], p, base, quiet);
      BadEnds(RunStmt(cs[0], step, p.scope).value, RootsAt(p, base), base);
      steps := [step] + [];
      FirstOfRun(cs, closing, step, [], p.scope);
    } else {
      step := NormalRun(ss[0], p);
      StmtKeeps(ss[0], step, p, base, quiet);
      var rest := NotShownListIsBad(ss[1..], closing, q, base, quiet);
      steps := [step] + rest;
      FirstOfRun(cs, closing, step, rest, p.scope);
      ThenBad(RunStmt(cs[0], step, p.scope).value, RunStmts(cs[1..], closing, rest, q.scope).value,
              RootsAt(p, base), RootsAt(q, base), Roots(p, base, p.loop), base, quiet);
    }
  }

  // ---------------------------------------------------------------- whole functions

  const Nothing := Scope(map[], [])

  /** The run of a function's body along a path. */
  function Call(body: Block, path: Path): Option<Run> {
    RunCode(WriteBlock(body, [], false), path, Nothing)
  }

  /** The run neither panics nor changes the roots, nor keeps a slot. */
  ghost predicate Restores(ops: seq<Op>, slots: seq<Slot>) {
    var after := RunTable(ops, slots);
    after.Some? && Live(after.value) == Live(slots) && |InUse(after.value)| == |InUse(slots)|
  }

  /** Every path to the end of a function's body leaves the collector's roots as they were. */
  ghost predicate Balanced(body: Block, slots: seq<Slot>) {
    forall path :: var r := Call(body, path); r.Some? && !r.value.how.Stopped? ==> Restores(r.value.ops, slots)
  }

  /** After `ops` the roots are the caller's and those in `held`. */
  ghost predicate Holds(ops: seq<Op>, held: seq<Address>, slots: seq<Slot>) {
    var after := RunTable(ops, slots);
    after.Some? && Live(after.value) == Live(slots) + Elements(held)
  }

  /** Wherever a path stops, the function's roots are the pinned variables of the scopes open there. */
  ghost predicate Exact(body: Block, slots: seq<Slot>) {
    forall path :: var r := Call(body, path);
                   r.Some? && r.value.how.Stopped? ==> Holds(r.value.ops, r.value.how.held, slots)
  }

  function Start(base: set<Address>): Place {
    Place(Nothing, [], base, {}, 0, 0)
  }

  /** A function balances its pins exactly when no break is reachable with a pin made in its loop, and no return is
      reachable where the name of a pinned variable has been declared again. */
  lemma BalancedExactlyWhenSafe(body: Block, slots: seq<Slot>)
    requires Ordered(slots)
    requires WellPlacedBlock(body, Live(slots)) && FormedBlock(body)
    ensures Balanced(body, slots) <==> SafeBlock(body, false) && ShownBlock(body, {}, false, false)
  {
    if !SafeBlock(body, false) {
      UnsafeDoesNotRestore(body, slots);
    } else if !ShownBlock(body, {}, false, false) {
      var path := HiddenIsBad(body, slots, false);
      BadInTable(Call(body, path).value, slots);
    } else {
      forall path | Call(body, path).Some? && !Call(body, path).value.how.Stopped?
        ensures Restores(Call(body, path).value.ops, slots)
      {
        CallKeeps(body, slots, path, false);
      }
    }
  }

  /** The roots are the caller's and the open scopes' all along, and the caller's at the end, exactly when moreover no
      return with a value is reachable while something is pinned: the value is evaluated after the unpins. */
  lemma ExactWhenQuiet(body: Block, slots: seq<Slot>)
    requires Ordered(slots)
    requires WellPlacedBlock(body, Live(slots)) && FormedBlock(body)
    ensures (Balanced(body, slots) && Exact(body, slots)
             <==> SafeBlock(body, false) && ShownBlock(body, {}, false, true))
  {
    if !SafeBlock(body, false) {
      UnsafeDoesNotRestore(body, slots);
    } else if !ShownBlock(body, {}, false, true) {
      var path := HiddenIsBad(body, slots, true);
      BadInTable(Call(body, path).value, slots);
    } else {
      forall path | Call(body, path).Some?
        ensures var r := Call(body, path).value;
                if r.how.Stopped? then Holds(r.ops, r.how.held, slots) else Restores(r.ops, slots)
      {
        CallKeeps(body, slots, path, true);
      }
    }
  }

  lemma UnsafeDoesNotRestore(body: Block, slots: seq<Slot>)
    requires FormedBlock(body) && !SafeBlock(body, false)
    ensures !Balanced(body, slots)
  {
    var steps := UnsafeListLeaks(body.stmts, PinsIn(body.stmts, false), Start({}), false);
    var r := Call(body, Path(steps)).value;
    if RunTable(r.ops, slots).Some? {
      SlotsGrow(r.ops, slots);
    }
    assert !Restores(r.ops, slots);
  }

  lemma HiddenIsBad(body: Block, slots: seq<Slot>, quiet: bool) returns (path: Path)
    requires WellPlacedBlock(body, Live(slots)) && SafeBlock(body, false)
    requires !ShownBlock(body, {}, false, quiet)
    ensures Call(body, path).Some? && Bad(Call(body, path).value, Live(slots), Live(slots))
    ensures !quiet ==> Call(body, path).value.how.Returned?
  {
    var p := Start(Live(slots));
    assert Elements<Name>([]) == {} && RootsAt(p, Live(slots)) == Live(slots);
    assert p.open[p.mark..] + PinsIn(body.stmts, false) == PinsIn(body.stmts, false);
    var steps := NotShownListIsBad(body.stmts, PinsIn(body.stmts, false), p, Live(slots), quiet);
    path := Path(steps);
  }

  lemma BadInTable(r: Run, slots: seq<Slot>)
    requires Ordered(slots) && Bad(r, Live(slots), Live(slots))
    ensures if r.how.Stopped? then !Holds(r.ops, r.how.held, slots) else !Restores(r.ops, slots)
  {
    if r.how.Stopped? {
      TableIsASet(r.ops, slots);
    } else if RunTable(r.ops, slots).Some? {
      var a :| a !in Live(slots) && Outlives(a, r.ops, Live(slots));
      OutlivesInTable(a, r.ops, slots);
    }
  }

  lemma CallKeeps(body: Block, slots: seq<Slot>, path: Path, quiet: bool)
    requires Ordered(slots)
    requires WellPlacedBlock(body, Live(slots)) && SafeBlock(body, false) && ShownBlock(body, {}, false, quiet)
    requires Call(body, path).Some?
    ensures var r := Call(body, path).value;
            if r.how.Stopped? then quiet ==> Holds(r.ops, r.how.held, slots) else Restores(r.ops, slots)
  {
    var p, r := Start(Live(slots)), Call(body, path).value;
    assert Elements<Name>([]) == {} && RootsAt(p, Live(slots)) == Live(slots);
    CodeKeeps(body, path, p, Live(slots), quiet);
    TableIsASet(r.ops, slots);
    OneSlotEach(slots);
    OneSlotEach(RunTable(r.ops, slots).value);
  }

  /** The source for `let p = ..` with a second `let p = ..` and a `return` in a branch below it. */
  function PinnedAgain(outer: Address, inner: Address): Block {
    Block([Declare("p", outer, true), If([Block([Declare("p", inner, true), Return(false)])], false)])
  }

  /** A pinning declaration and one more statement. */
  lemma Two(s: Stmt, t: Stmt, used: set<Address>, names: set<Name>, pinned: bool, hidden: bool)
    requires s.Declare? && s.pinned
    ensures var ss := [s, t];
            && (Formed(ss) <==> FormedStmt(t))
            && (Safe(ss, pinned) <==> SafeStmt(t, true))
            && (Shown(ss, names, hidden, false) <==> ShownStmt(t, names + {s.x}, Hides(s, names, hidden), false))
            && (WellPlaced(ss, used, {}) <==> s.at !in used && WellPlacedStmt(t, used + {s.at}, {s.x}))
  {
    var ss := [s, t];
    assert ss[1..] == [t] && ss[1..][1..] == [] && ss[1..][0] == t;
    assert Elements([s.x]) == {s.x} && {} + {s.x} == {s.x};
    assert Formed(ss[1..]) <==> FormedStmt(t);
    assert PinsOf(s, false) == [s.x];
    assert Shown(ss[1..], names + {s.x}, Hides(s, names, hidden), false)
      <==> ShownStmt(t, names + {s.x}, Hides(s, names, hidden), false);
    assert Safe(ss[1..], true) <==> SafeStmt(t, true);
    assert WellPlaced(ss[1..], used + {s.at}, {s.x}) <==> WellPlacedStmt(t, used + {s.at}, {s.x});
  }

  /** Such a function keeps the outer variable's root, though no break is in it. */
  lemma PinnedAgainIsUnbalanced(outer: Address, inner: Address, slots: seq<Slot>)
    requires Ordered(slots) && outer != inner && outer !in Live(slots) && inner !in Live(slots)
    ensures SafeBlock(PinnedAgain(outer, inner), false) && !Balanced(PinnedAgain(outer, inner), slots)
  {
    hide Balanced, Live, Ordered, Safe, Shown, WellPlaced, Formed;
    var body, branch := PinnedAgain(outer, inner), Block([Declare("p", inner, true), Return(false)]);
    var choice := If([branch], false);
    assert choice.branches[0] == branch;
    Two(Declare("p", outer, true), choice, Live(slots), {}, false, false);
    Two(Declare("p", inner, true), Return(false), Live(slots) + {outer}, {"p"}, true, false);
    assert {} + {"p"} == {"p"};
    assert !ShownStmt(choice, {"p"}, false, false);
    BalancedExactlyWhenSafe(body, slots);
  }

  /** What it does in the branch: both unpins of the return name the inner variable. */
  lemma PinnedAgainLeaks(outer: Address, inner: Address, slots: seq<Slot>)
    requires Ordered(slots) && outer != inner && outer !in Live(slots) && inner !in Live(slots)
    ensures var after := RunTable([Remember(outer), Remember(inner), Forget(inner), Forget(inner)], slots);
            after.Some? && outer in Live(after.value)
  {
    hide Live, Ordered;
    var ops := [Remember(outer), Remember(inner), Forget(inner), Forget(inner)];
    RememberAddsOne(slots, outer);
    var once := Remembered(slots, outer);
    RememberAddsOne(once, inner);
    var twice := Remembered(once, inner);
    ForgetRemovesOne(twice, inner);
    var first := Forgotten(twice, inner).value;
    assert first[FirstHolding(twice, inner)].pointer == inner;
    assert Forgotten(first, inner).Some?;
    assert ops[1..][1..] == [Forget(inner), Forget(inner)] && ops[1..][1..][1..] == [Forget(inner)];
    assert ForgetsOthers([Forget(inner)], outer);
    assert RunTable([Forget(inner)], first) == Forgotten(first, inner);
    assert RunTable([Forget(inner), Forget(inner)], twice) == Forgotten(first, inner);
    assert RunTable(ops[1..], once) == Forgotten(first, inner);
    OthersStay(outer, [Forget(inner)], first);
  }

  /** The source for `let p = ..` followed by `for p: .. { return }`. */
  function LoopTakesName(outer: Address, inner: Address): Block {
    Block([Declare("p", outer, true), Loop(Some(LoopVariable("p", inner)), Block([Return(false)]))])
  }

  /** Nor is such a function balanced, though nothing is pinned twice. */
  lemma LoopTakesNameIsUnbalanced(outer: Address, inner: Address, slots: seq<Slot>)
    requires Ordered(slots) && outer != inner && outer !in Live(slots) && inner !in Live(slots)
    ensures SafeBlock(LoopTakesName(outer, inner), false) && !Balanced(LoopTakesName(outer, inner), slots)
  {
    hide Balanced, Live, Ordered, Safe, Shown, WellPlaced, Formed;
    var body, turn := LoopTakesName(outer, inner), Block([Return(false)]);
    var loop := Loop(Some(LoopVariable("p", inner)), turn);
    OneReturn(turn, Live(slots) + {outer} + {inner}, {"p"});
    Two(Declare("p", outer, true), loop, Live(slots), {}, false, false);
    assert {} + {"p"} == {"p"};
    assert !ShownStmt(loop, {"p"}, false, false);
    BalancedExactlyWhenSafe(body, slots);
  }

  lemma OneReturn(b: Block, used: set<Address>, names: set<Name>)
    requires b == Block([Return(false)])
    ensures WellPlacedBlock(b, used) && SafeBlock(b, false) && FormedBlock(b) && !ShownBlock(b, names, true, false)
  {
    assert b.stmts[1..] == [];
    assert !ShownStmt(b.stmts[0], names, true, false);
  }

  /** What its first turn does: the unpin names the loop variable, which is in no slot, so it panics; or it is in one
      that a variable left behind, and the outer variable stays a root. */
  lemma LoopTakesNamePanics(outer: Address, inner: Address, slots: seq<Slot>)
    requires Ordered(slots) && outer != inner && outer !in Live(slots) && inner !in Live(slots)
    ensures var after := RunTable([Remember(outer), Forget(inner)], slots);
            if forall i :: 0 <= i < |Remembered(slots, outer)| ==> Remembered(slots, outer)[i].pointer != inner
            then after == None else after.Some? && outer in Live(after.value)
  {
    hide Live, Ordered;
    RememberAddsOne(slots, outer);
    var once := Remembered(slots, outer);
    var ops := [Remember(outer), Forget(inner)];
    assert ops[1..] == [Forget(inner)] && [Forget(inner)][1..] == [];
    assert RunTable([Forget(inner)], once) == Forgotten(once, inner);
    if Forgotten(once, inner).Some? {
      OthersStay(outer, [Forget(inner)], once);
    }
  }
}
