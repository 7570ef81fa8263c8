/**
  Partial application: how a closure is laid out in bytes, how it is built and how a call
  fills in the arguments that were left open.
*/
module Closure {
  import opened Wrappers
  import opened HeapGraph

  // ---------------------------------------------------------------- layout

  /** The space given to an argument: its size rounded up to 8. */
  function Padded(size: nat): (r: nat)
    ensures size <= r < size + 8 && r % 8 == 0
  {
    if size % 8 == 0 then size else size + 8 - size % 8
  }

  method StepSize(size: nat) returns (raw: nat)
    ensures raw == Padded(size)
  {
    raw := size;
    while raw % 8 > 0
      invariant size <= raw <= Padded(size)
      decreases Padded(size) - raw
    {
      raw := raw + 1;
    }
  }

  /** Where the flag that says whether an argument is supplied is kept. */
  function FlagOffset(i: nat): nat {
    8 + 8 * i
  }

  function PaddedBelow(sizes: seq<nat>, n: nat): nat
    requires n <= |sizes|
  {
    if n == 0 then 0 else PaddedBelow(sizes, n - 1) + Padded(sizes[n - 1])
  }

  function ArgOffset(sizes: seq<nat>, i: nat): nat
    requires i <= |sizes|
  {
    8 + 8 * |sizes| + PaddedBelow(sizes, i)
  }

  method ArgPointer(sizes: seq<nat>, argument: nat) returns (offset: nat)
    requires argument <= |sizes|
    ensures offset == ArgOffset(sizes, argument)
  {
    offset := 8 + 8 * |sizes|;
    for i := 0 to argument
      invariant offset == ArgOffset(sizes, i)
    {
      var step := StepSize(sizes[i]);
      offset := offset + step;
    }
  }

  /** A closure ends where its last argument ends. */
  function ClosureSize(sizes: seq<nat>): nat {
    ArgOffset(sizes, |sizes|)
  }

  method GeneratedClosureSize(sizes: seq<nat>) returns (ret: nat)
    ensures ret == ClosureSize(sizes)
  {
    ret := 8;
    for i := 0 to |sizes|
      invariant ret == 8 + 8 * i + PaddedBelow(sizes, i)
    {
      var step := StepSize(sizes[i]);
      ret := ret + step;
      ret := ret + 8;
    }
  }

  lemma {:induction false} ArgsInOrder(sizes: seq<nat>, i: nat, j: nat)
    requires i < j <= |sizes|
    ensures ArgOffset(sizes, i) + sizes[i] <= ArgOffset(sizes, j)
    ensures ArgOffset(sizes, i) % 8 == 0
    decreases j
  {
    Aligned8(sizes, i);
    if i < j - 1 {
      ArgsInOrder(sizes, i, j - 1);
    }
  }

  lemma {:induction false} Aligned8(sizes: seq<nat>, i: nat)
    requires i <= |sizes|
    ensures PaddedBelow(sizes, i) % 8 == 0
  {
    if i != 0 {
      Aligned8(sizes, i - 1);
    }
  }

  /** Two stretches of bytes do not overlap. */
  predicate Apart(a: nat, aSize: nat, b: nat, bSize: nat) {
    a + aSize <= b || b + bSize <= a
  }

  /** The function id, the flags and the arguments are pairwise disjoint, aligned to 8, and inside the closure. */
  lemma LayoutIsSound(sizes: seq<nat>, i: nat, j: nat)
    requires i < |sizes| && j < |sizes|
    ensures FlagOffset(i) % 8 == 0 && ArgOffset(sizes, i) % 8 == 0
    ensures 4 <= FlagOffset(i) && FlagOffset(i) + 4 <= ArgOffset(sizes, j)
    ensures ArgOffset(sizes, i) + sizes[i] <= ClosureSize(sizes)
    ensures i != j ==> Apart(FlagOffset(i), 4, FlagOffset(j), 4)
    ensures i != j ==> Apart(ArgOffset(sizes, i), sizes[i], ArgOffset(sizes, j), sizes[j])
  {
    ArgsInOrder(sizes, i, |sizes|);
    if i < j {
      ArgsInOrder(sizes, i, j);
    } else if j < i {
      ArgsInOrder(sizes, j, i);
    }
  }

  /** Four bytes of function id and four of padding, eight bytes a flag, then the arguments one after another, each in
      the least multiple of eight bytes that holds it. */
  lemma LayoutSpelled(sizes: seq<nat>, i: nat)
    requires i < |sizes|
    ensures FlagOffset(i) == 8 + 8 * i
    ensures ArgOffset(sizes, 0) == 8 + 8 * |sizes|
    ensures var slot := ArgOffset(sizes, i + 1) - ArgOffset(sizes, i);
            sizes[i] <= slot < sizes[i] + 8 && slot % 8 == 0
    ensures ClosureSize(sizes) == ArgOffset(sizes, |sizes|)
  {
  }

  // ---------------------------------------------------------------- memory

  const INT_LIMIT: nat := 0x1_0000_0000

  /** A 4-byte store. */
  function IntBytes(v: nat): (bytes: seq<Byte>)
    requires v < INT_LIMIT
    ensures |bytes| == 4
  {
    [v % 256, v / 256 % 256, v / 256 / 256 % 256, v / 256 / 256 / 256]
  }

  lemma IntBytesRead(v: nat)
    requires v < INT_LIMIT
    ensures Word(IntBytes(v)) == v
  {
    hide Word;
    WordOfFour(IntBytes(v));
  }

  lemma WordOfFour(b: seq<Byte>)
    requires |b| == 4
    ensures var b0: int, b1: int, b2: int, b3: int := b[0], b[1], b[2], b[3];
            Word(b) == b0 + 256 * (b1 + 256 * (b2 + 256 * b3))
  {
    var b0: int, b1: int, b2: int, b3: int := b[0], b[1], b[2], b[3];
    assert b[1..][1..][1..][1..] == [];
    assert Word(b[1..][1..][1..]) == b3;
    assert Word(b[1..][1..]) == b2 + 256 * b3;
    assert Word(b[1..]) == b1 + 256 * (b2 + 256 * b3);
  }

  function IntAt(m: seq<Byte>, offset: nat): nat
    requires offset + 4 <= |m|
  {
    Word(m[offset..offset + 4])
  }

  /** Memory after some bytes are copied to an offset. */
  function Written(m: seq<Byte>, offset: nat, bytes: seq<Byte>): (r: seq<Byte>)
    requires offset + |bytes| <= |m|
    ensures |r| == |m|
  {
    m[..offset] + bytes + m[offset + |bytes|..]
  }

  lemma ReadWritten(m: seq<Byte>, offset: nat, bytes: seq<Byte>)
    requires offset + |bytes| <= |m|
    ensures Written(m, offset, bytes)[offset..offset + |bytes|] == bytes
  {
  }

  lemma ReadElsewhere(m: seq<Byte>, offset: nat, bytes: seq<Byte>, a: nat, size: nat)
    requires offset + |bytes| <= |m| && a + size <= |m|
    requires Apart(a, size, offset, |bytes|)
    ensures Written(m, offset, bytes)[a..a + size] == m[a..a + size]
  {
  }

  /** The byte-by-byte copy. */
  method Copy(m: array<Byte>, offset: nat, bytes: seq<Byte>)
    requires offset + |bytes| <= m.Length
    modifies m
    ensures m[..] == Written(old(m[..]), offset, bytes)
  {
    ghost var was := m[..];
    for i := 0 to |bytes|
      invariant m[..] == Written(was, offset, bytes[..i])
    {
      m[offset + i] := bytes[i];
      assert m[..] == Written(was, offset, bytes[..i + 1]);
    }
    assert bytes[..|bytes|] == bytes;
  }

  // ---------------------------------------------------------------- building a closure

  /** Every supplied argument has the size its parameter says. */
  predicate Fits(sizes: seq<nat>, supplied: seq<Option<seq<Byte>>>) {
    |sizes| == |supplied| &&
    forall i :: 0 <= i < |sizes| && supplied[i].Some? ==> |supplied[i].value| == sizes[i]
  }

  /** Argument `i` is recorded in this memory. */
  predicate HoldsAt(m: seq<Byte>, sizes: seq<nat>, i: nat, argument: Option<seq<Byte>>)
    requires i < |sizes|
  {
    && FlagOffset(i) + 4 <= |m| && ArgOffset(sizes, i) + sizes[i] <= |m|
    && match argument
       case Some(bytes) =>
         IntAt(m, FlagOffset(i)) != 0 && m[ArgOffset(sizes, i)..ArgOffset(sizes, i) + sizes[i]] == bytes
       case None => IntAt(m, FlagOffset(i)) == 0
  }

  /** The first `n` arguments are recorded in this memory. */
  ghost predicate HoldsBelow(m: seq<Byte>, sizes: seq<nat>, supplied: seq<Option<seq<Byte>>>, n: nat)
    requires n <= |sizes| == |supplied|
  {
    forall i: nat :: i < n ==> HoldsAt(m, sizes, i, supplied[i])
  }

  /** A closure for `fid` with these arguments supplied. */
  ghost predicate Holds(m: seq<Byte>, sizes: seq<nat>, fid: nat, supplied: seq<Option<seq<Byte>>>)
    requires |sizes| == |supplied|
  {
    |m| == ClosureSize(sizes) && HoldsBelow(m, sizes, supplied, |sizes|) && IntAt(m, 0) == fid
  }

  /** Writing one argument's flag or bytes leaves the function id and the other arguments as they were. */
  lemma WrittenElsewhere(m: seq<Byte>, sizes: seq<nat>, i: nat, argument: Option<seq<Byte>>, j: nat,
                         offset: nat, bytes: seq<Byte>)
    requires i < |sizes| && j < |sizes| && i != j && |m| == ClosureSize(sizes)
    requires (offset == FlagOffset(j) && |bytes| == 4) || (offset == ArgOffset(sizes, j) && |bytes| == sizes[j])
    requires HoldsAt(m, sizes, i, argument)
    ensures offset + |bytes| <= |m|
    ensures HoldsAt(Written(m, offset, bytes), sizes, i, argument)
  {
    hide PaddedBelow, Word, Written;
    LayoutIsSound(sizes, i, j);
    LayoutIsSound(sizes, j, i);
    ReadElsewhere(m, offset, bytes, FlagOffset(i), 4);
    ReadElsewhere(m, offset, bytes, ArgOffset(sizes, i), sizes[i]);
  }

  lemma WrittenAfterId(m: seq<Byte>, sizes: seq<nat>, j: nat, offset: nat, bytes: seq<Byte>)
    requires j < |sizes| && |m| == ClosureSize(sizes)
    requires (offset == FlagOffset(j) && |bytes| == 4) || (offset == ArgOffset(sizes, j) && |bytes| == sizes[j])
    ensures 4 <= |m| && offset + |bytes| <= |m|
    ensures IntAt(Written(m, offset, bytes), 0) == IntAt(m, 0)
  {
    hide PaddedBelow, Word, Written;
    LayoutIsSound(sizes, j, j);
    ReadElsewhere(m, offset, bytes, 0, 4);
  }

  /** Sets one argument's flag, and copies its bytes when it is supplied. */
  method Record(c: array<Byte>, sizes: seq<nat>, i: nat, argument: Option<seq<Byte>>)
    requires i < |sizes| && c.Length == ClosureSize(sizes)
    requires argument.Some? ==> |argument.value| == sizes[i]
    modifies c
    ensures HoldsAt(c[..], sizes, i, argument)
    ensures c.Length >= 4 && IntAt(c[..], 0) == old(IntAt(c[..], 0))
    ensures forall k: nat, other :: k < |sizes| && k != i && HoldsAt(old(c[..]), sizes, k, other)
              ==> HoldsAt(c[..], sizes, k, other)
  {
    hide HoldsAt, PaddedBelow, Word, Written;
    LayoutIsSound(sizes, i, i);
    var flag := IntBytes(if argument.Some? then 1 else 0);
    ghost var before := c[..];
    if argument.Some? {
      var dest := ArgPointer(sizes, i);
      Copy(c, FlagOffset(i), flag);
      ghost var between := c[..];
      Copy(c, dest, argument.value);
      WrittenAfterId(before, sizes, i, FlagOffset(i), flag);
      WrittenAfterId(between, sizes, i, dest, argument.value);
      RecordedSome(before, sizes, i, flag, argument.value);
      forall k: nat, other | k < |sizes| && k != i && HoldsAt(before, sizes, k, other)
        ensures HoldsAt(c[..], sizes, k, other)
      {
        WrittenElsewhere(before, sizes, k, other, i, FlagOffset(i), flag);
        WrittenElsewhere(between, sizes, k, other, i, dest, argument.value);
      }
    } else {
      Copy(c, FlagOffset(i), flag);
      WrittenAfterId(before, sizes, i, FlagOffset(i), flag);
      RecordedNone(before, sizes, i, flag);
      forall k: nat, other | k < |sizes| && k != i && HoldsAt(before, sizes, k, other)
        ensures HoldsAt(c[..], sizes, k, other)
      {
        WrittenElsewhere(before, sizes, k, other, i, FlagOffset(i), flag);
      }
    }
  }

  lemma RecordedSome(m: seq<Byte>, sizes: seq<nat>, i: nat, flag: seq<Byte>, bytes: seq<Byte>)
    requires i < |sizes| && |m| == ClosureSize(sizes) && |bytes| == sizes[i] && flag == IntBytes(1)
    ensures FlagOffset(i) + 4 <= |m| && ArgOffset(sizes, i) + sizes[i] <= |m|
    ensures HoldsAt(Written(Written(m, FlagOffset(i), flag), ArgOffset(sizes, i), bytes), sizes, i, Some(bytes))
  {
    hide PaddedBelow, Word, Written;
    LayoutIsSound(sizes, i, i);
    var between := Written(m, FlagOffset(i), flag);
    ReadWritten(m, FlagOffset(i), flag);
    IntBytesRead(1);
    ReadElsewhere(between, ArgOffset(sizes, i), bytes, FlagOffset(i), 4);
    ReadWritten(between, ArgOffset(sizes, i), bytes);
  }

  lemma RecordedNone(m: seq<Byte>, sizes: seq<nat>, i: nat, flag: seq<Byte>)
    requires i < |sizes| && |m| == ClosureSize(sizes) && flag == IntBytes(0)
    ensures FlagOffset(i) + 4 <= |m|
    ensures HoldsAt(Written(m, FlagOffset(i), flag), sizes, i, None)
  {
    hide PaddedBelow, Word, Written;
    LayoutIsSound(sizes, i, i);
    ReadWritten(m, FlagOffset(i), flag);
    IntBytesRead(0);
  }

  /** Allocates a closure and records the supplied arguments in it. */
  method Create(fid: nat, sizes: seq<nat>, supplied: seq<Option<seq<Byte>>>) returns (c: array<Byte>)
    requires fid < INT_LIMIT && Fits(sizes, supplied)
    ensures fresh(c) && Holds(c[..], sizes, fid, supplied)
  {
    hide HoldsAt, PaddedBelow, Word, Written;
    var size := GeneratedClosureSize(sizes);
    c := new Byte[size](_ => 0);
    IntBytesRead(fid);
    ReadWritten(c[..], 0, IntBytes(fid));
    Copy(c, 0, IntBytes(fid));
    for i := 0 to |sizes|
      invariant c.Length == size && HoldsBelow(c[..], sizes, supplied, i) && IntAt(c[..], 0) == fid
    {
      Record(c, sizes, i, supplied[i]);
    }
  }

  // ---------------------------------------------------------------- calling it

  /** How many arguments are left open. */
  function OpenCount<A>(supplied: seq<Option<A>>): (n: nat)
    ensures n <= |supplied|
  {
    if supplied == [] then 0
    else OpenCount(supplied[..|supplied| - 1]) + if supplied[|supplied| - 1].None? then 1 else 0
  }

  /** The full argument list: supplied arguments in place, open ones filled in order. */
  function Merge<A>(supplied: seq<Option<A>>, open: seq<A>): (full: seq<A>)
    requires OpenCount(supplied) <= |open|
    ensures |full| == |supplied|
  {
    if supplied == [] then []
    else
      var n := |supplied| - 1;
      var front := Merge(supplied[..n], open);
      front + [if supplied[n].Some? then supplied[n].value else open[OpenCount(supplied[..n])]]
  }

  /** Unpacks a closure's arguments for the call; `passed` is how many of the caller's it used.  `table` has the
      argument sizes of every function. */
  method {:induction false} Resolve(c: array<Byte>, table: seq<seq<nat>>, args: seq<seq<Byte>>,
                 ghost fid: nat, ghost supplied: seq<Option<seq<Byte>>>)
    returns (resolved: seq<seq<Byte>>, passed: nat)
    requires fid < |table| && |table[fid]| == |supplied| && Holds(c[..], table[fid], fid, supplied)
    requires OpenCount(supplied) <= |args|
    ensures resolved == Merge(supplied, args)
    ensures passed == OpenCount(supplied)
  {
    hide PaddedBelow, Word, Merge, OpenCount, HoldsAt;
    var sizes := table[IntAt(c[..], 0)];
    resolved := [];
    passed := 0;
    MergeNone(supplied, args);
    for i := 0 to |sizes|
      invariant passed == OpenCount(supplied[..i]) <= |args|
      invariant resolved == Merge(supplied[..i], args)
    {
      OpenCountGrows(supplied, i + 1);
      MergeNext(supplied, args, i);
      HeldArgument(c[..], sizes, i, supplied[i]);
      var aptr := ArgPointer(sizes, i);
      if IntAt(c[..], FlagOffset(i)) != 0 {
        resolved := resolved + [c[aptr..aptr + sizes[i]]];
      } else {
        resolved := resolved + [args[passed]];
        passed := passed + 1;
      }
    }
    assert supplied[..|sizes|] == supplied;
  }

  /** Calling a closure calls its function once, on the merged arguments. */
  method {:induction false} Call(c: array<Byte>, table: seq<seq<nat>>, args: seq<seq<Byte>>,
              functionCaller: (nat, seq<seq<Byte>>) -> seq<Byte>,
              ghost fid: nat, ghost supplied: seq<Option<seq<Byte>>>)
    returns (result: seq<Byte>)
    requires fid < |table| && |table[fid]| == |supplied| && Holds(c[..], table[fid], fid, supplied)
    requires OpenCount(supplied) <= |args|
    ensures result == functionCaller(fid, Merge(supplied, args))
  {
    var resolved, passed := Resolve(c, table, args, fid, supplied);
    result := functionCaller(IntAt(c[..], 0), resolved);
  }

  lemma HeldArgument(m: seq<Byte>, sizes: seq<nat>, i: nat, argument: Option<seq<Byte>>)
    requires i < |sizes| && HoldsAt(m, sizes, i, argument)
    ensures FlagOffset(i) + 4 <= |m| && ArgOffset(sizes, i) + sizes[i] <= |m|
    ensures argument.Some? <==> IntAt(m, FlagOffset(i)) != 0
    ensures argument.Some? ==> m[ArgOffset(sizes, i)..ArgOffset(sizes, i) + sizes[i]] == argument.value
  {
  }

  lemma MergeNone<A>(supplied: seq<Option<A>>, open: seq<A>)
    ensures OpenCount(supplied[..0]) == 0 && Merge(supplied[..0], open) == []
  {
  }

  lemma {:induction false} MergeNext<A>(supplied: seq<Option<A>>, open: seq<A>, i: nat)
    requires i < |supplied| && OpenCount(supplied[..i + 1]) <= |open|
    ensures OpenCount(supplied[..i + 1]) == OpenCount(supplied[..i]) + if supplied[i].None? then 1 else 0
    ensures Merge(supplied[..i + 1], open)
         == Merge(supplied[..i], open)
          + [if supplied[i].Some? then supplied[i].value else open[OpenCount(supplied[..i])]]
  {
    assert supplied[..i + 1][..i] == supplied[..i];
  }

  lemma {:induction false} OpenCountGrows<A>(supplied: seq<Option<A>>, i: nat)
    requires i <= |supplied|
    ensures OpenCount(supplied[..i]) <= OpenCount(supplied)
  {
    var n := |supplied| - 1;
    if i == |supplied| {
      assert supplied[..i] == supplied;
    } else {
      OpenCountGrows(supplied[..n], i);
      assert supplied[..n][..i] == supplied[..i];
    }
  }

  // ---------------------------------------------------------------- partial application

  /** The arguments a mask supplies. */
  function Mask<A>(full: seq<A>, given: seq<bool>): (supplied: seq<Option<A>>)
    requires |full| == |given|
    ensures |supplied| == |full|
  {
    seq(|full|, i requires 0 <= i < |full| => if given[i] then Some(full[i]) else None)
  }

  /** What a mask leaves open, in order: also which parameter types a closure keeps. */
  function Open<A>(full: seq<A>, given: seq<bool>): (open: seq<A>)
    requires |full| == |given|
  {
    if full == [] then []
    else
      var n := |full| - 1;
      Open(full[..n], given[..n]) + if given[n] then [] else [full[n]]
  }

  lemma {:induction false} OpenIsCounted<A>(full: seq<A>, given: seq<bool>)
    requires |full| == |given|
    ensures |Open(full, given)| == OpenCount(Mask(full, given))
  {
    if full != [] {
      var n := |full| - 1;
      OpenIsCounted(full[..n], given[..n]);
      assert Mask(full, given)[..n] == Mask(full[..n], given[..n]);
    }
  }

  lemma {:induction false} MergePrefix<A>(supplied: seq<Option<A>>, open: seq<A>, more: seq<A>)
    requires OpenCount(supplied) <= |open|
    ensures Merge(supplied, open + more) == Merge(supplied, open)
  {
    if supplied != [] {
      var n := |supplied| - 1;
      OpenCountGrows(supplied, n);
      MergePrefix(supplied[..n], open, more);
    }
  }

  /** Supplying some arguments first and the others later is supplying them all: whatever the mask, the merged
      list is the full one. */
  lemma {:induction false} PartialApplication<A>(full: seq<A>, given: seq<bool>)
    requires |full| == |given|
    ensures OpenCount(Mask(full, given)) == |Open(full, given)|
    ensures Merge(Mask(full, given), Open(full, given)) == full
  {
    OpenIsCounted(full, given);
    if full != [] {
      var n := |full| - 1;
      PartialApplication(full[..n], given[..n]);
      assert Mask(full, given)[..n] == Mask(full[..n], given[..n]);
      MergePrefix(Mask(full[..n], given[..n]), Open(full[..n], given[..n]), if given[n] then [] else [full[n]]);
    }
  }

  lemma {:induction false} MergeKeepsSupplied<A>(supplied: seq<Option<A>>, open: seq<A>, i: nat)
    requires OpenCount(supplied) <= |open| && i < |supplied|
    ensures supplied[i].Some? ==> Merge(supplied, open)[i] == supplied[i].value
  {
    var n := |supplied| - 1;
    if i < n {
      OpenCountGrows(supplied, n);
      MergeKeepsSupplied(supplied[..n], open, i);
    }
  }

  lemma {:induction false} MergeUsesOpenInOrder<A>(supplied: seq<Option<A>>, open: seq<A>)
    requires OpenCount(supplied) <= |open|
    ensures Open(Merge(supplied, open), Given(supplied)) == open[..OpenCount(supplied)]
  {
    if supplied != [] {
      var n := |supplied| - 1;
      OpenCountGrows(supplied, n);
      MergeUsesOpenInOrder(supplied[..n], open);
      assert Given(supplied)[..n] == Given(supplied[..n]);
      assert Merge(supplied, open)[..n] == Merge(supplied[..n], open);
    }
  }

  /** And the merged list is determined by that: it has the supplied arguments where they were supplied, and what
      it has elsewhere is the caller's arguments, each used once and in order. */
  lemma {:induction false} MergeIsFaithful<A>(supplied: seq<Option<A>>, open: seq<A>)
    requires OpenCount(supplied) <= |open|
    ensures Mask(Merge(supplied, open), Given(supplied)) == supplied
    ensures Open(Merge(supplied, open), Given(supplied)) == open[..OpenCount(supplied)]
  {
    forall i | 0 <= i < |supplied|
      ensures Mask(Merge(supplied, open), Given(supplied))[i] == supplied[i]
    {
      MergeKeepsSupplied(supplied, open, i);
    }
    MergeUsesOpenInOrder(supplied, open);
  }

  /** Which arguments are supplied. */
  function Given<A>(supplied: seq<Option<A>>): (given: seq<bool>)
    ensures |given| == |supplied|
  {
    seq(|supplied|, i requires 0 <= i < |supplied| => supplied[i].Some?)
  }

  /** The parameter types of a closure, from those of the function it builds on; `None` is the arity error. */
  method {:induction false} ClosureTypes<Ty, E>(types: seq<Ty>, supplied: seq<Option<E>>) returns (r: Option<seq<Ty>>)
    ensures r.Some? <==> |types| == |supplied|
    ensures r.Some? ==> r.value == Open(types, Given(supplied)) && |r.value| == OpenCount(supplied)
  {
    if |types| != |supplied| {
      return None;
    }
    var tys := [];
    for i := 0 to |supplied|
      invariant tys == Open(types[..i], Given(supplied)[..i])
    {
      assert types[..i + 1][..i] == types[..i] && Given(supplied)[..i + 1][..i] == Given(supplied)[..i];
      if supplied[i].None? {
        tys := tys + [types[i]];
      }
    }
    assert types[..|types|] == types && Given(supplied)[..|types|] == Given(supplied);
    OpenOfGiven(types, supplied);
    r := Some(tys);
  }

  lemma {:induction false} OpenOfGiven<Ty, E>(types: seq<Ty>, supplied: seq<Option<E>>)
    requires |types| == |supplied|
    ensures |Open(types, Given(supplied))| == OpenCount(supplied)
  {
    if types != [] {
      var n := |types| - 1;
      OpenOfGiven(types[..n], supplied[..n]);
      assert Given(supplied)[..n] == Given(supplied[..n]);
    }
  }

  // ---------------------------------------------------------------- argument by argument

  /** Those of the first `i` arguments that are left open. */
  function OpenBefore<A>(supplied: seq<Option<A>>, i: nat): set<nat>
    requires i <= |supplied|
  {
    set k: nat | k < i && supplied[k].None?
  }

  lemma {:induction false} OpenCountIs<A>(supplied: seq<Option<A>>, i: nat)
    requires i <= |supplied|
    ensures OpenCount(supplied[..i]) == |OpenBefore(supplied, i)|
  {
    if i == 0 {
      assert OpenBefore(supplied, 0) == {};
    } else {
      OpenCountIs(supplied, i - 1);
      assert supplied[..i][..i - 1] == supplied[..i - 1];
      assert OpenBefore(supplied, i) == OpenBefore(supplied, i - 1) + if supplied[i - 1].None? then {i - 1} else {};
    }
  }

  /** Each argument of the merged list: the stored one, or the caller's whose place is the number of open arguments
      before it. */
  lemma {:induction false} MergeAt<A>(supplied: seq<Option<A>>, open: seq<A>, i: nat)
    requires OpenCount(supplied) <= |open| && i < |supplied|
    ensures supplied[i].None? ==> |OpenBefore(supplied, i)| < |open|
    ensures Merge(supplied, open)[i]
         == if supplied[i].Some? then supplied[i].value else open[|OpenBefore(supplied, i)|]
  {
    var n := |supplied| - 1;
    if i == n {
      OpenCountIs(supplied, n);
    } else {
      OpenCountGrows(supplied, n);
      MergeAt(supplied[..n], open, i);
      assert OpenBefore(supplied[..n], i) == OpenBefore(supplied, i);
    }
  }

  /** Each type a closure keeps is that of the argument with as many open ones before it. */
  lemma {:induction false} OpenAt<A, B>(types: seq<A>, supplied: seq<Option<B>>, i: nat)
    requires |types| == |supplied| && i < |supplied| && supplied[i].None?
    ensures |OpenBefore(supplied, i)| < |Open(types, Given(supplied))|
    ensures Open(types, Given(supplied))[|OpenBefore(supplied, i)|] == types[i]
  {
    var n := |supplied| - 1;
    assert Given(supplied)[..n] == Given(supplied[..n]);
    if i == n {
      OpenOfGiven(types[..n], supplied[..n]);
      OpenCountIs(supplied, n);
    } else {
      OpenAt(types[..n], supplied[..n], i);
      assert OpenBefore(supplied[..n], i) == OpenBefore(supplied, i);
    }
  }
}
