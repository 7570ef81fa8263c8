/**
  The collector's table of stack roots: a growing array of slots, each holding the
  address of a stack variable.  Registering takes the first free slot; forgetting clears
  the first slot that holds the address, whether or not that slot is in use.
*/
module RootTable {
  import opened Wrappers

  type Address = nat

  datatype Slot = Slot(inUse: bool, pointer: Address)

  /** The addresses the collector currently treats as roots. */
  function Live(slots: seq<Slot>): (live: set<Address>)
    ensures forall i :: 0 <= i < |slots| && slots[i].inUse ==> slots[i].pointer in live
  {
    set i | 0 <= i < |slots| && slots[i].inUse :: slots[i].pointer
  }

  /** No slot before a live one holds the live slot's address. */
  ghost predicate Ordered(slots: seq<Slot>) {
    forall i, j :: 0 <= i < j < |slots| && slots[j].inUse ==> slots[i].pointer != slots[j].pointer
  }

  /** The first slot not in use, or the table's length. */
  function FirstFree(slots: seq<Slot>): (k: nat)
    ensures k <= |slots|
    ensures forall i :: 0 <= i < k ==> slots[i].inUse
    ensures k < |slots| ==> !slots[k].inUse
  {
    if slots == [] || !slots[0].inUse then 0
    else
      var rest := slots[1..];
      assert forall i :: 0 < i < |slots| ==> slots[i] == rest[i - 1];
      1 + FirstFree(rest)
  }

  /** The first slot holding `pointer`, live or stale, or the table's length. */
  function FirstHolding(slots: seq<Slot>, pointer: Address): (k: nat)
    ensures k <= |slots|
    ensures forall i :: 0 <= i < k ==> slots[i].pointer != pointer
    ensures k < |slots| ==> slots[k].pointer == pointer
  {
    if slots == [] || slots[0].pointer == pointer then 0
    else
      var rest := slots[1..];
      assert forall i :: 0 < i < |slots| ==> slots[i] == rest[i - 1];
      1 + FirstHolding(rest, pointer)
  }

  /** The table after registering `pointer`. */
  function Remembered(slots: seq<Slot>, pointer: Address): seq<Slot> {
    var k := FirstFree(slots);
    if k < |slots| then slots[k := Slot(true, pointer)] else slots + [Slot(true, pointer)]
  }

  /** The table after forgetting `pointer`; `None` when the runtime panics. */
  function Forgotten(slots: seq<Slot>, pointer: Address): Option<seq<Slot>> {
    var k := FirstHolding(slots, pointer);
    if k < |slots| then Some(slots[k := slots[k].(inUse := false)]) else None
  }

  /** Registering a dead address adds exactly that address and keeps the slot order. */
  lemma RememberAddsOne(slots: seq<Slot>, pointer: Address)
    requires Ordered(slots)
    requires pointer !in Live(slots)
    ensures Ordered(Remembered(slots, pointer))
    ensures Live(Remembered(slots, pointer)) == Live(slots) + {pointer}
  {
    var k := FirstFree(slots);
    var after := Remembered(slots, pointer);
    assert after[k].inUse && after[k].pointer == pointer;
    forall i | 0 <= i < |slots| && i != k
      ensures after[i] == slots[i]
    {}
  }

  /** Forgetting a live address removes exactly that address: the first holder is the live one. */
  lemma ForgetRemovesOne(slots: seq<Slot>, pointer: Address)
    requires Ordered(slots)
    requires pointer in Live(slots)
    ensures Forgotten(slots, pointer).Some?
    ensures Ordered(Forgotten(slots, pointer).value)
    ensures Live(Forgotten(slots, pointer).value) == Live(slots) - {pointer}
  {
    var live :| 0 <= live < |slots| && slots[live].inUse && slots[live].pointer == pointer;
    var k := FirstHolding(slots, pointer);
    assert k == live;
    var after := Forgotten(slots, pointer).value;
    forall i | 0 <= i < |slots| && i != k
      ensures after[i] == slots[i]
    {}
    forall a | a in Live(slots) - {pointer}
      ensures a in Live(after)
    {
      var i :| 0 <= i < |slots| && slots[i].inUse && slots[i].pointer == a;
      assert after[i].inUse;
    }
  }

  /** Registering and then forgetting an address leaves it dead exactly when it was dead before. */
  lemma RememberThenForget(slots: seq<Slot>, pointer: Address)
    requires Ordered(slots)
    ensures Forgotten(Remembered(slots, pointer), pointer).Some?
    ensures pointer !in Live(Forgotten(Remembered(slots, pointer), pointer).value) <==> pointer !in Live(slots)
  {
    var after := Remembered(slots, pointer);
    var free := FirstFree(slots);
    assert after[free] == Slot(true, pointer);
    if pointer !in Live(slots) {
      RememberAddsOne(slots, pointer);
      ForgetRemovesOne(after, pointer);
    } else {
      var live :| 0 <= live < |slots| && slots[live].inUse && slots[live].pointer == pointer;
      assert after[live] == Slot(true, pointer);
      var cleared := FirstHolding(after, pointer);
      var kept := if cleared == live then free else live;
      assert Forgotten(after, pointer).value[kept] == Slot(true, pointer);
    }
  }

  /** What the generated code does to the table. */
  datatype Op = Remember(pointer: Address) | Forget(pointer: Address)

  /** Registers only dead addresses and forgets only live ones, starting from `live`. */
  predicate Disciplined(ops: seq<Op>, live: set<Address>) {
    ops == [] ||
    match ops[0]
    case Remember(a) => a !in live && Disciplined(ops[1..], live + {a})
    case Forget(a) => a in live && Disciplined(ops[1..], live - {a})
  }

  function RunSet(ops: seq<Op>, live: set<Address>): set<Address> {
    if ops == [] then live
    else match ops[0]
      case Remember(a) => RunSet(ops[1..], live + {a})
      case Forget(a) => RunSet(ops[1..], live - {a})
  }

  /** `None` when some forget panics. */
  function RunTable(ops: seq<Op>, slots: seq<Slot>): Option<seq<Slot>> {
    if ops == [] then Some(slots)
    else match ops[0]
      case Remember(a) => RunTable(ops[1..], Remembered(slots, a))
      case Forget(a) =>
        match Forgotten(slots, a)
        case None => None
        case Some(after) => RunTable(ops[1..], after)
  }

  /** On every disciplined run the table behaves as a set, and no forget panics. */
  lemma {:induction false} TableIsASet(ops: seq<Op>, slots: seq<Slot>)
    requires Ordered(slots)
    requires Disciplined(ops, Live(slots))
    ensures RunTable(ops, slots).Some?
    ensures Ordered(RunTable(ops, slots).value)
    ensures Live(RunTable(ops, slots).value) == RunSet(ops, Live(slots))
  {
    if ops != [] {
      match ops[0]
      case Remember(a) =>
        RememberAddsOne(slots, a);
        TableIsASet(ops[1..], Remembered(slots, a));
      case Forget(a) =>
        ForgetRemovesOne(slots, a);
        TableIsASet(ops[1..], Forgotten(slots, a).value);
    }
  }

  // ---------------------------------------------------------------- sequences of operations

  lemma {:induction false} RunSetAppend(a: seq<Op>, b: seq<Op>, live: set<Address>)
    ensures RunSet(a + b, live) == RunSet(b, RunSet(a, live))
    ensures Disciplined(a + b, live) <==> Disciplined(a, live) && Disciplined(b, RunSet(a, live))
  {
    if a == [] {
      assert a + b == b;
    } else {
      assert (a + b)[1..] == a[1..] + b;
      RunSetAppend(a[1..], b, if a[0].Remember? then live + {a[0].pointer} else live - {a[0].pointer});
    }
  }

  /** Registrations less forgets. */
  function Balance(ops: seq<Op>): int {
    if ops == [] then 0 else (if ops[0].Remember? then 1 else -1) + Balance(ops[1..])
  }

  lemma {:induction false} BalanceAppend(a: seq<Op>, b: seq<Op>)
    ensures Balance(a + b) == Balance(a) + Balance(b)
  {
    if a == [] {
      assert a + b == b;
    } else {
      assert (a + b)[1..] == a[1..] + b;
      BalanceAppend(a[1..], b);
    }
  }

  /** The slots in use. */
  function InUse(slots: seq<Slot>): set<nat> {
    set i | 0 <= i < |slots| && slots[i].inUse
  }

  lemma RememberUsesOne(slots: seq<Slot>, a: Address)
    ensures |InUse(Remembered(slots, a))| == |InUse(slots)| + 1
  {
    var k := FirstFree(slots);
    forall i | i != k
      ensures i in InUse(Remembered(slots, a)) <==> i in InUse(slots)
    {
    }
    assert InUse(Remembered(slots, a)) == InUse(slots) + {k};
  }

  lemma ForgetFreesAtMostOne(slots: seq<Slot>, a: Address)
    requires Forgotten(slots, a).Some?
    ensures |InUse(Forgotten(slots, a).value)| >= |InUse(slots)| - 1
    ensures slots[FirstHolding(slots, a)].inUse ==> |InUse(Forgotten(slots, a).value)| == |InUse(slots)| - 1
  {
    assert InUse(Forgotten(slots, a).value) == InUse(slots) - {FirstHolding(slots, a)};
  }

  /** No sequence of operations frees more slots than it forgets. */
  lemma {:induction false} SlotsGrow(ops: seq<Op>, slots: seq<Slot>)
    requires RunTable(ops, slots).Some?
    ensures |InUse(RunTable(ops, slots).value)| >= |InUse(slots)| + Balance(ops)
  {
    if ops != [] {
      match ops[0]
      case Remember(a) =>
        RememberUsesOne(slots, a);
        SlotsGrow(ops[1..], Remembered(slots, a));
      case Forget(a) =>
        ForgetFreesAtMostOne(slots, a);
        SlotsGrow(ops[1..], Forgotten(slots, a).value);
    }
  }

  lemma LastSlot(slots: seq<Slot>)
    requires slots != [] && Ordered(slots)
    ensures var front, last := slots[..|slots| - 1], slots[|slots| - 1];
            if last.inUse
            then Live(slots) == Live(front) + {last.pointer} && last.pointer !in Live(front)
            else Live(slots) == Live(front)
  {
    var n := |slots| - 1;
    forall a | a in Live(slots)
      ensures a in Live(slots[..n]) || slots[n] == Slot(true, a)
    {
      var i :| 0 <= i < |slots| && slots[i] == Slot(true, a);
      assert i < n ==> slots[..n][i].inUse;
    }
    forall a | a in Live(slots[..n])
      ensures a in Live(slots) && (slots[n].inUse ==> a != slots[n].pointer)
    {
      var i :| 0 <= i < n && slots[..n][i] == Slot(true, a);
      assert slots[i].inUse;
    }
  }

  /** In an ordered table each live address is in exactly one slot. */
  lemma {:induction false} OneSlotEach(slots: seq<Slot>)
    requires Ordered(slots)
    ensures |InUse(slots)| == |Live(slots)|
  {
    if slots != [] {
      hide Live, InUse, Ordered;
      OrderedFront(slots);
      OneSlotEach(slots[..|slots| - 1]);
      LastSlot(slots);
      LastInUse(slots);
    } else {
      assert InUse(slots) == {};
    }
  }

  lemma LastInUse(slots: seq<Slot>)
    requires slots != []
    ensures var n := |slots| - 1;
            |InUse(slots)| == |InUse(slots[..n])| + if slots[n].inUse then 1 else 0
  {
    var n := |slots| - 1;
    assert InUse(slots) == InUse(slots[..n]) + if slots[n].inUse then {n} else {};
  }

  lemma OrderedFront(slots: seq<Slot>)
    requires slots != [] && Ordered(slots)
    ensures Ordered(slots[..|slots| - 1])
  {
  }

  /** Registering one address twice leaks it: two forgets clear the same slot. */
  lemma DoubleRegistrationLeaks(slots: seq<Slot>, a: Address)
    requires Ordered(slots)
    requires a !in Live(slots)
    ensures var after := RunTable([Remember(a), Remember(a), Forget(a), Forget(a)], slots);
            after.Some? && a in Live(after.value)
  {
    var ops := [Remember(a), Remember(a), Forget(a), Forget(a)];
    var once := Remembered(slots, a);
    RememberAddsOne(slots, a);
    var twice := Remembered(once, a);
    RememberThenForget(once, a);
    var first := Forgotten(twice, a).value;
    assert FirstHolding(first, a) == FirstHolding(twice, a) by {
      assert forall i :: 0 <= i < |twice| ==> first[i].pointer == twice[i].pointer;
    }
    var second := Forgotten(first, a).value;
    assert second == first;
    assert ops[1..] == [Remember(a), Forget(a), Forget(a)];
    assert ops[1..][1..] == [Forget(a), Forget(a)];
    assert ops[1..][1..][1..] == [Forget(a)];
    assert RunTable([Forget(a)], first) == Some(second);
    assert RunTable([Forget(a), Forget(a)], twice) == Some(second);
    assert RunTable([Remember(a), Forget(a), Forget(a)], once) == Some(second);
  }
}
