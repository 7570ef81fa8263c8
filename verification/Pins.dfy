/**
  Root pins in generated code: the writer pins each pointer variable where it is declared and
  unpins it, by its name, wherever its scope is left, by the closing brace or by a return.  A
  break unpins nothing.
*/
module Pins {
  import opened Wrappers
  import opened Sequences
  import RootTable

  type Name = string

  type Address = RootTable.Address

  // ---------------------------------------------------------------- source and generated code

  /** What matters of a statement.  `pinned` declarations are those of pointer type; `at` is where the declared
      variable is while it is in scope. */
  datatype Stmt =
    | Plain
    | Declare(x: Name, at: Address, pinned: bool)
    | Break
    | Return(value: bool)
    | If(branches: seq<Block>, hasElse: bool)
    | Loop(variable: Option<LoopVariable>, body: Block)

  /** The variable of a `for`, declared around the body and never pinned; a `while` has none. */
  datatype LoopVariable = LoopVariable(name: Name, at: Address)

  datatype Block = Block(stmts: seq<Stmt>)

  /** Generated statements.  A return carries the names unpinned before it, and before its value is evaluated. */
  datatype C =
    | PlainC
    | DeclareC(x: Name, at: Address, pinned: bool)
    | BreakC
    | ReturnC(unpins: seq<Name>, value: bool)
    | IfC(branches: seq<Code>, hasElse: bool)
    | LoopC(variable: Option<LoopVariable>, body: Code)

  /** A braced block: its statements, and the unpins before the closing brace. */
  datatype Code = Code(body: seq<C>, closing: seq<Name>)

  // ---------------------------------------------------------------- what the writer writes

  /** The variables a statement leaves pinned in its own scope; GPU code pins none. */
  function PinsOf(s: Stmt, gpu: bool): seq<Name> {
    if s.Declare? && s.pinned && !gpu then [s.x] else []
  }

  function PinsIn(ss: seq<Stmt>, gpu: bool): seq<Name> {
    if ss == [] then [] else PinsOf(ss[0], gpu) + PinsIn(ss[1..], gpu)
  }

  /** The code for a statement where `open` are the pinned variables of all open scopes. */
  function WriteStmt(s: Stmt, open: seq<Name>, gpu: bool): C
    decreases s
  {
    match s
    case Plain => PlainC
    case Declare(x, at, pinned) => DeclareC(x, at, pinned && !gpu)
    case Break => BreakC
    case Return(value) => ReturnC(open, value)
    case If(branches, hasElse) =>
      IfC(seq(|branches|, i requires 0 <= i < |branches| => WriteBlock(branches[i], open, gpu)), hasElse)
    case Loop(variable, body) => LoopC(variable, WriteBlock(body, open, gpu))
  }

  function WriteStmts(ss: seq<Stmt>, open: seq<Name>, gpu: bool): seq<C>
    decreases ss
  {
    if ss == [] then []
    else [WriteStmt(ss[0], open, gpu)] + WriteStmts(ss[1..], open + PinsOf(ss[0], gpu), gpu)
  }

  function WriteBlock(b: Block, open: seq<Name>, gpu: bool): Code
    decreases b
  {
    Code(WriteStmts(b.stmts, open, gpu), PinsIn(b.stmts, gpu))
  }

  // ---------------------------------------------------------------- what the code stands for

  /** The source statement that generated code stands for, read off the code alone: unpins stand for nothing. */
  function Source(c: C): Stmt
    decreases c
  {
    match c
    case PlainC => Plain
    case DeclareC(x, at, pinned) => Declare(x, at, pinned)
    case BreakC => Break
    case ReturnC(_, value) => Return(value)
    case IfC(branches, hasElse) =>
      If(seq(|branches|, i requires 0 <= i < |branches| => SourceBlock(branches[i])), hasElse)
    case LoopC(variable, body) => Loop(variable, SourceBlock(body))
  }

  function SourceBlock(code: Code): Block
    decreases code
  {
    Block(SourceAll(code.body))
  }

  function SourceAll(cs: seq<C>): seq<Stmt>
    decreases cs
  {
    if cs == [] then [] else [Source(cs[0])] + SourceAll(cs[1..])
  }

  /** The same statement with nothing to pin, which is all that GPU code keeps of one. */
  function Unpinned(s: Stmt): Stmt
    decreases s
  {
    match s
    case Declare(x, at, _) => Declare(x, at, false)
    case If(branches, hasElse) =>
      If(seq(|branches|, i requires 0 <= i < |branches| => UnpinnedBlock(branches[i])), hasElse)
    case Loop(variable, body) => Loop(variable, UnpinnedBlock(body))
    case _ => s
  }

  function UnpinnedBlock(b: Block): Block
    decreases b
  {
    Block(UnpinnedAll(b.stmts))
  }

  function UnpinnedAll(ss: seq<Stmt>): seq<Stmt>
    decreases ss
  {
    if ss == [] then [] else [Unpinned(ss[0])] + UnpinnedAll(ss[1..])
  }

  /** Code for the CPU stands for the statement it was written from: the same statements, branches, `else` and loop
      bodies in the same order.  Code for the GPU does too, but for the pins. */
  lemma {:induction false} StandsForSource(s: Stmt, open: seq<Name>, gpu: bool)
    ensures Source(WriteStmt(s, open, gpu)) == if gpu then Unpinned(s) else s
    decreases s
  {
    match s
    case If(branches, hasElse) =>
      forall i | 0 <= i < |branches|
        ensures SourceBlock(WriteBlock(branches[i], open, gpu))
             == if gpu then UnpinnedBlock(branches[i]) else branches[i]
      {
        BlockStandsForSource(branches[i], open, gpu);
      }
    case Loop(_, body) => BlockStandsForSource(body, open, gpu);
    case _ =>
  }

  lemma {:induction false} BlockStandsForSource(b: Block, open: seq<Name>, gpu: bool)
    ensures SourceBlock(WriteBlock(b, open, gpu)) == if gpu then UnpinnedBlock(b) else b
    decreases b
  {
    ListStandsForSource(b.stmts, open, gpu);
  }

  lemma {:induction false} ListStandsForSource(ss: seq<Stmt>, open: seq<Name>, gpu: bool)
    ensures SourceAll(WriteStmts(ss, open, gpu)) == if gpu then UnpinnedAll(ss) else ss
    decreases ss
  {
    if ss != [] {
      var more := open + PinsOf(ss[0], gpu);
      StandsForSource(ss[0], open, gpu);
      ListStandsForSource(ss[1..], more, gpu);
      var cs := WriteStmts(ss, open, gpu);
      assert cs[0] == WriteStmt(ss[0], open, gpu) && cs[1..] == WriteStmts(ss[1..], more, gpu);
    }
  }

  /** The pinned variables of each open scope, outermost first. */
  type Scopes = seq<seq<Name>>

  function Flatten(scopes: Scopes): seq<Name> {
    if scopes == [] then [] else Flatten(scopes[..|scopes| - 1]) + scopes[|scopes| - 1]
  }

  lemma FlattenSnoc(outer: Scopes, top: seq<Name>)
    ensures Flatten(outer + [top]) == Flatten(outer) + top
  {
    assert (outer + [top])[..|outer|] == outer;
  }

  /** One statement of a list, for the list's part from `i` on. */
  lemma WriteNext(ss: seq<Stmt>, i: nat, open: seq<Name>, gpu: bool)
    requires i < |ss|
    ensures WriteStmts(ss[i..], open, gpu)
         == [WriteStmt(ss[i], open, gpu)] + WriteStmts(ss[i + 1..], open + PinsOf(ss[i], gpu), gpu)
    ensures PinsIn(ss[i..], gpu) == PinsOf(ss[i], gpu) + PinsIn(ss[i + 1..], gpu)
  {
    assert ss[i..][1..] == ss[i + 1..];
  }

  lemma WriteNone(open: seq<Name>, gpu: bool)
    ensures WriteStmts([], open, gpu) == [] && PinsIn([], gpu) == []
  {
  }

  /** The writer, with the scopes it has open. */
  class CWriter {
    const writingGpu: bool
    var scopes: Scopes

    constructor (writingGpu: bool)
      ensures this.writingGpu == writingGpu && scopes == []
    {
      this.writingGpu := writingGpu;
      scopes := [];
    }

    method StartScope()
      modifies this
      ensures scopes == old(scopes) + [[]]
    {
      scopes := scopes + [[]];
    }

    method EndScope()
      requires scopes != []
      modifies this
      ensures scopes == old(scopes)[..|old(scopes)| - 1]
    {
      scopes := scopes[..|scopes| - 1];
    }

    /** The unpins for one scope; there are none in GPU code. */
    method ExitScope(scope: seq<Name>) returns (unpins: seq<Name>)
      ensures unpins == if writingGpu then [] else scope
    {
      unpins := [];
      if writingGpu {
        return;
      }
      for i := 0 to |scope|
        invariant unpins == scope[..i]
      {
        unpins := unpins + [scope[i]];
      }
    }

    /** The unpins before a return: those of every open scope. */
    method AboutToExitAllScopes() returns (unpins: seq<Name>)
      ensures unpins == if writingGpu then [] else Flatten(scopes)
    {
      unpins := [];
      for i := 0 to |scopes|
        invariant unpins == if writingGpu then [] else Flatten(scopes[..i])
      {
        var these := ExitScope(scopes[i]);
        unpins := unpins + these;
        assert scopes[..i + 1][..i] == scopes[..i];
      }
      assert scopes[..|scopes|] == scopes;
    }

    /** GPU code opens scopes and never pins in them. */
    ghost predicate Valid()
      reads this
    {
      writingGpu ==> Flatten(scopes) == []
    }

    /** Pins a pointer variable just declared; other types are not pinned. */
    method RememberLValue(x: Name, isPointer: bool) returns (pins: bool)
      requires scopes != [] && Valid()
      modifies this
      ensures Valid()
      ensures pins <==> isPointer && !writingGpu
      ensures |scopes| == |old(scopes)| && scopes[..|scopes| - 1] == old(scopes)[..|scopes| - 1]
      ensures scopes[|scopes| - 1] == old(scopes)[|scopes| - 1] + if pins then [x] else []
    {
      if writingGpu {
        return false;
      }
      if isPointer {
        var top := |scopes| - 1;
        scopes := scopes[top := scopes[top] + [x]];
        return true;
      }
      pins := false;
    }

    method WriteStatement(s: Stmt) returns (c: C)
      requires scopes != [] && Valid()
      modifies this
      ensures Valid()
      ensures c == WriteStmt(s, Flatten(old(scopes)), writingGpu)
      ensures Source(c) == if writingGpu then Unpinned(s) else s
      ensures |scopes| == |old(scopes)| && scopes[..|scopes| - 1] == old(scopes)[..|scopes| - 1]
      ensures scopes[|scopes| - 1] == old(scopes)[|scopes| - 1] + PinsOf(s, writingGpu)
      decreases s
    {
      hide Flatten, PinsIn, WriteStmts, Source, Unpinned;
      StandsForSource(s, Flatten(scopes), writingGpu);
      match s {
        case Plain => c := PlainC;
        case Declare(x, at, pinned) =>
          var pins := RememberLValue(x, pinned);
          c := DeclareC(x, at, pins);
        case Break => c := BreakC;
        case Return(value) =>
          var unpins := AboutToExitAllScopes();
          c := ReturnC(unpins, value);
        case If(branches, hasElse) =>
          var codes := [];
          for i := 0 to |branches|
            invariant scopes == old(scopes) && Valid() && |codes| == i
            invariant forall k :: 0 <= k < i ==> codes[k] == WriteBlock(branches[k], Flatten(scopes), writingGpu)
          {
            var code := WriteStatementBlock(branches[i]);
            codes := codes + [code];
          }
          c := IfC(codes, hasElse);
        case Loop(variable, body) =>
          var code := WriteStatementBlock(body);
          c := LoopC(variable, code);
      }
    }

    method WriteStatementBlock(b: Block) returns (code: Code)
      requires Valid()
      modifies this
      ensures code == WriteBlock(b, Flatten(scopes), writingGpu)
      ensures SourceBlock(code) == if writingGpu then UnpinnedBlock(b) else b
      ensures scopes == old(scopes) && Valid()
      decreases b
    {
      hide Flatten, WriteStmts, PinsIn, WriteStmt, PinsOf, SourceBlock, UnpinnedBlock;
      BlockStandsForSource(b, Flatten(scopes), writingGpu);
      ghost var outer, ss := scopes, b.stmts;
      StartScope();
      FlattenSnoc(outer, []);
      assert Flatten(outer) + [] == Flatten(outer);
      var body := [];
      assert ss[0..] == ss;
      for i := 0 to |b.stmts|
        invariant |scopes| == |outer| + 1 && scopes[..|outer|] == outer && Valid()
        invariant scopes[|outer|] + PinsIn(ss[i..], writingGpu) == PinsIn(ss, writingGpu)
        invariant body + WriteStmts(ss[i..], Flatten(outer) + scopes[|outer|], writingGpu)
               == WriteStmts(ss, Flatten(outer), writingGpu)
      {
        ghost var top := scopes[|outer|];
        WriteNext(ss, i, Flatten(outer) + top, writingGpu);
        FlattenSnoc(outer, top);
        assert scopes == outer + [top];
        var c := WriteStatement(b.stmts[i]);
        body := body + [c];
        Assoc(Flatten(outer), top, PinsOf(ss[i], writingGpu));
        Assoc(top, PinsOf(ss[i], writingGpu), PinsIn(ss[i + 1..], writingGpu));
      }
      WriteNone(Flatten(scopes), writingGpu);
      assert ss[|ss|..] == [];
      FlattenSnoc(outer, scopes[|outer|]);
      assert scopes == outer + [scopes[|outer|]];
      var closing := ExitScope(scopes[|scopes| - 1]);
      EndScope();
      code := Code(body, closing);
    }
  }
}
