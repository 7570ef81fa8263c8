/**
  What a collection must keep, said of the bytes, counts and slots themselves: the least set of blocks that has every
  counted block and every block a stack variable holds, and has whatever the words of its blocks name.
*/
module Retention {
  import opened HeapGraph
  import RootTable

  function ByteAt(data: seq<Byte>, i: nat): int
    requires i < |data|
  {
    data[i]
  }

  /** The eight bytes at an aligned offset spell the word, the lowest byte first. */
  ghost predicate Spells(data: seq<Byte>, offset: nat, word: nat) {
    && offset % 8 == 0 && offset + 8 <= |data|
    && word == ByteAt(data, offset) + 0x100 * (ByteAt(data, offset + 1) + 0x100 * (ByteAt(data, offset + 2)
             + 0x100 * (ByteAt(data, offset + 3) + 0x100 * (ByteAt(data, offset + 4) + 0x100 * (ByteAt(data, offset + 5)
             + 0x100 * (ByteAt(data, offset + 6) + 0x100 * ByteAt(data, offset + 7)))))))
  }

  /** A word of the first block's contents is the pointer to the second, which is 40 past its header's address. */
  ghost predicate Names(from: Block, offset: nat, to: Block) {
    Spells(from.data, offset, to.addr + 40)
  }

  /** A stack variable whose slot is in use holds the word. */
  ghost predicate StackHolds(slots: seq<RootTable.Slot>, memory: Address -> nat, word: nat) {
    exists k :: 0 <= k < |slots| && slots[k].inUse && memory(slots[k].pointer) == word
  }

  /** The set has the roots and what its own blocks name. */
  ghost predicate Retains(blocks: seq<Block>, slots: seq<RootTable.Slot>, memory: Address -> nat, kept: set<nat>) {
    && (forall i: nat :: i < |blocks| && blocks[i].rootCount != 0 ==> i in kept)
    && (forall i: nat :: i < |blocks| && StackHolds(slots, memory, blocks[i].addr + 40) ==> i in kept)
    && (forall i: nat, j: nat, offset: nat ::
          i in kept && i < |blocks| && j < |blocks| && Names(blocks[i], offset, blocks[j]) ==> j in kept)
  }

  lemma {:induction false} WordFrom(data: seq<Byte>, offset: nat, n: nat)
    requires offset + n + 1 <= |data|
    ensures Word(data[offset..offset + n + 1]) == data[offset] + 256 * Word(data[offset + 1..offset + n + 1])
  {
    assert data[offset..offset + n + 1][1..] == data[offset + 1..offset + n + 1];
  }

  lemma {:induction false} SpellsIsWord(data: seq<Byte>, offset: nat, word: nat)
    ensures Spells(data, offset, word) <==> Scanned(data, offset) && WordAt(data, offset) == word
  {
    if Scanned(data, offset) {
      WordFrom(data, offset, 7);
      WordFrom(data, offset + 1, 6);
      WordFrom(data, offset + 2, 5);
      WordFrom(data, offset + 3, 4);
      WordFrom(data, offset + 4, 3);
      WordFrom(data, offset + 5, 2);
      WordFrom(data, offset + 6, 1);
      WordFrom(data, offset + 7, 0);
      assert data[offset + 8..offset + 8] == [];
    }
  }

  ghost function Kept(blocks: seq<Block>, stack: set<nat>): set<nat> {
    set i: nat | i < |blocks| && LiveMask(blocks, stack)[i]
  }

  /** The blocks a collection keeps are the least such set. */
  lemma LiveIsLeast(blocks: seq<Block>, slots: seq<RootTable.Slot>, memory: Address -> nat, stack: set<nat>)
    requires forall word :: word in stack <==> StackHolds(slots, memory, word)
    ensures Retains(blocks, slots, memory, Kept(blocks, stack))
    ensures forall other :: Retains(blocks, slots, memory, other) ==> Kept(blocks, stack) <= other
  {
    LiveRetains(blocks, slots, memory, stack);
    forall other | Retains(blocks, slots, memory, other)
      ensures Kept(blocks, stack) <= other
    {
      LiveIsLess(blocks, slots, memory, stack, other);
    }
  }

  lemma LiveRetains(blocks: seq<Block>, slots: seq<RootTable.Slot>, memory: Address -> nat, stack: set<nat>)
    requires forall word :: word in stack <==> StackHolds(slots, memory, word)
    ensures Retains(blocks, slots, memory, Kept(blocks, stack))
  {
    hide Reachable, StackHolds, Names, PointsTo;
    forall i: nat | i < |blocks| && IsRoot(blocks[i], stack)
      ensures i in Kept(blocks, stack)
    {
      RootIsReachable(blocks, stack, i);
    }
    forall i: nat, j: nat, offset: nat |
      i in Kept(blocks, stack) && i < |blocks| && j < |blocks| && Names(blocks[i], offset, blocks[j])
      ensures j in Kept(blocks, stack)
    {
      SpelledEdge(blocks[i], blocks[j], offset);
      EdgeIsReachable(blocks, stack, i, j);
    }
  }

  lemma SpelledEdge(from: Block, to: Block, offset: nat)
    requires Names(from, offset, to)
    ensures PointsTo(from, to)
  {
    SpellsIsWord(from.data, offset, to.addr + 40);
  }

  lemma EdgeIsSpelled(from: Block, to: Block) returns (offset: nat)
    requires PointsTo(from, to)
    ensures Names(from, offset, to)
  {
    offset :| Scanned(from.data, offset) && WordAt(from.data, offset) == StartOf(to.addr);
    SpellsIsWord(from.data, offset, to.addr + 40);
  }

  lemma LiveIsLess(blocks: seq<Block>, slots: seq<RootTable.Slot>, memory: Address -> nat, stack: set<nat>,
                   other: set<nat>)
    requires forall word :: word in stack <==> StackHolds(slots, memory, word)
    requires Retains(blocks, slots, memory, other)
    ensures Kept(blocks, stack) <= other
  {
    hide StackHolds, Names, PointsTo;
    forall i: nat, j: nat | i < |blocks| && j < |blocks| && i in other && PointsTo(blocks[i], blocks[j])
      ensures j in other
    {
      var offset := EdgeIsSpelled(blocks[i], blocks[j]);
    }
    forall i: nat | i < |blocks| && Reachable(blocks, stack, i)
      ensures i in other
    {
      var n: nat :| ReachableIn(blocks, stack, n, i);
      ClosedHasReachable(blocks, stack, other, n, i);
    }
  }
}
