/**
  What the collector may assume about memory, on values: blocks with an address and a
  payload of bytes, an edge wherever an aligned word of a payload equals the start of
  another block, and reachability from counted roots and from live stack variables.
*/
module HeapGraph {

  /** `sizeof(PageHeader)`: three pointers and three 4-byte fields, padded to 8. */
  const HEADER_SIZE: nat := 40
  const POINTER_ALIGNMENT: nat := 8

  predicate Aligned(address: int) {
    address % 8 == 0
  }

  type Byte = b: int | 0 <= b < 256
  type Address = nat

  /** One allocation, without its list links and mark. */
  datatype Block = Block(addr: Address, data: seq<Byte>, rootCount: int, finaliser: bool)

  /** Address of the payload: the pointer the rest of the runtime sees. */
  function StartOf(addr: Address): Address {
    addr + HEADER_SIZE
  }

  /** The little-endian number held by some bytes. */
  function Word(bytes: seq<Byte>): nat {
    if bytes == [] then 0 else bytes[0] + 256 * Word(bytes[1..])
  }

  function WordAt(data: seq<Byte>, offset: nat): nat
    requires offset + POINTER_ALIGNMENT <= |data|
  {
    Word(data[offset..offset + POINTER_ALIGNMENT])
  }

  /** A word the collector inspects: aligned and wholly inside the payload. */
  predicate Scanned(data: seq<Byte>, offset: int) {
    0 <= offset && Aligned(offset) && offset + POINTER_ALIGNMENT <= |data|
  }

  ghost predicate PointsTo(from: Block, to: Block) {
    exists offset :: Scanned(from.data, offset) && WordAt(from.data, offset) == StartOf(to.addr)
  }

  /** A root is counted (any non-zero count) or held by a live stack variable. */
  predicate IsRoot(b: Block, stack: set<nat>) {
    b.rootCount != 0 || StartOf(b.addr) in stack
  }

  ghost predicate ReachableIn(blocks: seq<Block>, stack: set<nat>, n: nat, i: nat) {
    i < |blocks| &&
    if n == 0 then IsRoot(blocks[i], stack)
    else
      || ReachableIn(blocks, stack, n - 1, i)
      || exists j: nat :: ReachableIn(blocks, stack, n - 1, j) && PointsTo(blocks[j], blocks[i])
  }

  ghost predicate Reachable(blocks: seq<Block>, stack: set<nat>, i: nat) {
    exists n: nat :: ReachableIn(blocks, stack, n, i)
  }

  lemma RootIsReachable(blocks: seq<Block>, stack: set<nat>, i: nat)
    requires i < |blocks| && IsRoot(blocks[i], stack)
    ensures Reachable(blocks, stack, i)
  {
    assert ReachableIn(blocks, stack, 0, i);
  }

  lemma EdgeIsReachable(blocks: seq<Block>, stack: set<nat>, j: nat, i: nat)
    requires j < |blocks| && i < |blocks| && Reachable(blocks, stack, j) && PointsTo(blocks[j], blocks[i])
    ensures Reachable(blocks, stack, i)
  {
    var n: nat :| ReachableIn(blocks, stack, n, j);
    assert ReachableIn(blocks, stack, n + 1, i);
  }

  /** Whatever a reachable block's word names is reachable. */
  lemma WordIsReachable(blocks: seq<Block>, stack: set<nat>, j: nat, offset: nat)
    requires j < |blocks| && Reachable(blocks, stack, j) && Scanned(blocks[j].data, offset)
    ensures forall i: nat :: i < |blocks| && WordAt(blocks[j].data, offset) == StartOf(blocks[i].addr)
              ==> Reachable(blocks, stack, i)
  {
    forall i: nat | i < |blocks| && WordAt(blocks[j].data, offset) == StartOf(blocks[i].addr)
      ensures Reachable(blocks, stack, i)
    {
      EdgeIsReachable(blocks, stack, j, i);
    }
  }

  lemma StackWordIsReachable(blocks: seq<Block>, stack: set<nat>, word: nat)
    requires word in stack
    ensures forall i: nat :: i < |blocks| && word == StartOf(blocks[i].addr) ==> Reachable(blocks, stack, i)
  {
    forall i: nat | i < |blocks| && word == StartOf(blocks[i].addr)
      ensures Reachable(blocks, stack, i)
    {
      RootIsReachable(blocks, stack, i);
    }
  }

  /** Any set that has the roots and is closed under edges has every reachable block. */
  ghost predicate ClosedFromRoots(blocks: seq<Block>, stack: set<nat>, marked: set<nat>) {
    && (forall i: nat :: i < |blocks| && IsRoot(blocks[i], stack) ==> i in marked)
    && (forall j: nat, i: nat :: j < |blocks| && i < |blocks| && j in marked && PointsTo(blocks[j], blocks[i])
          ==> i in marked)
  }

  lemma {:induction false} ClosedHasReachable(blocks: seq<Block>, stack: set<nat>, marked: set<nat>, n: nat, i: nat)
    requires ClosedFromRoots(blocks, stack, marked)
    requires ReachableIn(blocks, stack, n, i)
    ensures i in marked
  {
    if n != 0 {
      if ReachableIn(blocks, stack, n - 1, i) {
        ClosedHasReachable(blocks, stack, marked, n - 1, i);
      } else {
        var j: nat :| ReachableIn(blocks, stack, n - 1, j) && PointsTo(blocks[j], blocks[i]);
        ClosedHasReachable(blocks, stack, marked, n - 1, j);
      }
    }
  }

  /** Every block that the blocks marked since `earlier` point to is marked. */
  ghost predicate Closed(blocks: seq<Block>, earlier: set<nat>, marked: set<nat>) {
    forall j: nat, k: nat ::
      j < |blocks| && k < |blocks| && j in marked && j !in earlier && PointsTo(blocks[j], blocks[k])
      ==> k in marked
  }

  /** Every block marked since `earlier` is reachable. */
  ghost predicate Sound(blocks: seq<Block>, stack: set<nat>, earlier: set<nat>, marked: set<nat>) {
    forall j: nat :: j in marked && j !in earlier ==> Reachable(blocks, stack, j)
  }

  /** What the words of block `i` below `limit` point to is marked. */
  ghost predicate ScannedBelow(blocks: seq<Block>, i: nat, limit: int, marked: set<nat>)
    requires i < |blocks|
  {
    forall offset, k: nat ::
      (Scanned(blocks[i].data, offset) && offset < limit && k < |blocks| &&
       WordAt(blocks[i].data, offset) == StartOf(blocks[k].addr))
      ==> k in marked
  }

  ghost predicate Marking(blocks: seq<Block>, stack: set<nat>, earlier: set<nat>, marked: set<nat>) {
    Closed(blocks, earlier, marked) && Sound(blocks, stack, earlier, marked)
  }

  lemma MarkingNothing(blocks: seq<Block>, stack: set<nat>)
    ensures Marking(blocks, stack, {}, {})
  {
  }

  /** A newly marked block may be set apart until its own words are scanned. */
  lemma MarkingSetApart(blocks: seq<Block>, stack: set<nat>, earlier: set<nat>, marked: set<nat>, i: nat)
    requires Marking(blocks, stack, earlier, marked)
    ensures Marking(blocks, stack, earlier + {i}, marked + {i})
  {
  }

  /** Scanning one more word. */
  lemma ScanOneMore(blocks: seq<Block>, i: nat, offset: int, marked: set<nat>, after: set<nat>)
    requires i < |blocks| && Scanned(blocks[i].data, offset) && marked <= after
    requires ScannedBelow(blocks, i, offset, marked)
    requires forall k: nat :: k < |blocks| && WordAt(blocks[i].data, offset) == StartOf(blocks[k].addr) ==> k in after
    ensures ScannedBelow(blocks, i, offset + POINTER_ALIGNMENT, after)
    ensures Aligned(offset + POINTER_ALIGNMENT)
  {
  }

  /** Once all the words of block `i` are scanned, `i` need no longer be set apart. */
  lemma MarkingByScan(blocks: seq<Block>, stack: set<nat>, earlier: set<nat>, i: nat, limit: int, marked: set<nat>)
    requires i < |blocks| && |blocks[i].data| < limit + POINTER_ALIGNMENT && Reachable(blocks, stack, i)
    requires Marking(blocks, stack, earlier + {i}, marked) && ScannedBelow(blocks, i, limit, marked)
    ensures Marking(blocks, stack, earlier, marked)
  {
  }

  /** The counted blocks among the first `n` are marked. */
  ghost predicate ObjectRootsBelow(blocks: seq<Block>, n: nat, marked: set<nat>)
    requires n <= |blocks|
  {
    forall i: nat :: i < n && blocks[i].rootCount != 0 ==> i in marked
  }

  /** A set that has the roots, is closed under edges and has only reachable blocks has exactly those. */
  lemma MarkingIsExact(blocks: seq<Block>, stack: set<nat>, marked: set<nat>)
    requires Marking(blocks, stack, {}, marked)
    requires ObjectRootsBelow(blocks, |blocks|, marked)
    requires forall i: nat :: i < |blocks| && StartOf(blocks[i].addr) in stack ==> i in marked
    ensures forall i: nat :: i < |blocks| ==> (i in marked <==> LiveMask(blocks, stack)[i])
  {
    forall i: nat | i < |blocks| && LiveMask(blocks, stack)[i]
      ensures i in marked
    {
      var n: nat :| ReachableIn(blocks, stack, n, i);
      ClosedHasReachable(blocks, stack, marked, n, i);
    }
  }

  // ---------------------------------------------------------------- what a collection keeps

  /** Which blocks a collection keeps. */
  ghost function LiveMask(blocks: seq<Block>, stack: set<nat>): (mask: seq<bool>)
    ensures |mask| == |blocks|
  {
    seq(|blocks|, i requires 0 <= i < |blocks| => Reachable(blocks, stack, i))
  }

  /** The first `n` elements, less those whose mask bit is not set. */
  function KeepBelow<T>(xs: seq<T>, mask: seq<bool>, n: nat): (kept: seq<T>)
    requires |xs| == |mask| && n <= |xs|
    ensures |kept| <= n
  {
    if n == 0 then [] else KeepBelow(xs, mask, n - 1) + (if mask[n - 1] then [xs[n - 1]] else [])
  }

  /** The elements whose mask bit is set, in their old order. */
  function Keep<T>(xs: seq<T>, mask: seq<bool>): seq<T>
    requires |xs| == |mask|
  {
    KeepBelow(xs, mask, |xs|)
  }

  ghost function Collected(blocks: seq<Block>, stack: set<nat>): seq<Block> {
    Keep(blocks, LiveMask(blocks, stack))
  }

  /** The number of kept elements before `i`: where element `i` ends up. */
  function Rank(mask: seq<bool>, i: nat): (r: nat)
    requires i <= |mask|
    ensures r <= i
  {
    if i == 0 then 0 else Rank(mask, i - 1) + (if mask[i - 1] then 1 else 0)
  }

  lemma {:induction false} KeepLength<T>(xs: seq<T>, mask: seq<bool>, n: nat)
    requires |xs| == |mask| && n <= |xs|
    ensures |KeepBelow(xs, mask, n)| == Rank(mask, n)
  {
    if n != 0 {
      KeepLength(xs, mask, n - 1);
    }
  }

  /** A kept element sits at its rank. */
  lemma {:induction false} KeepAt<T>(xs: seq<T>, mask: seq<bool>, n: nat, i: nat)
    requires |xs| == |mask| && i < n <= |xs| && mask[i]
    ensures Rank(mask, i) < |KeepBelow(xs, mask, n)|
    ensures KeepBelow(xs, mask, n)[Rank(mask, i)] == xs[i]
  {
    KeepLength(xs, mask, n - 1);
    if i < n - 1 {
      KeepAt(xs, mask, n - 1, i);
    }
  }

  /** Every element of the result is a kept one. */
  lemma {:induction false} KeptFrom<T>(xs: seq<T>, mask: seq<bool>, n: nat, k: nat) returns (i: nat)
    requires |xs| == |mask| && n <= |xs| && k < |KeepBelow(xs, mask, n)|
    ensures i < n && mask[i] && Rank(mask, i) == k && KeepBelow(xs, mask, n)[k] == xs[i]
  {
    if k < |KeepBelow(xs, mask, n - 1)| {
      i := KeptFrom(xs, mask, n - 1, k);
    } else {
      i := n - 1;
      KeepLength(xs, mask, n - 1);
    }
  }

  /** Blocks reachable before a collection are reachable, at their new place, after it. */
  lemma {:induction false} ReachableAfterKeep(blocks: seq<Block>, stack: set<nat>, n: nat, i: nat)
    requires ReachableIn(blocks, stack, n, i)
    ensures LiveMask(blocks, stack)[i]
    ensures ReachableIn(Collected(blocks, stack), stack, n, Rank(LiveMask(blocks, stack), i))
  {
    var mask := LiveMask(blocks, stack);
    var kept := Collected(blocks, stack);
    assert Reachable(blocks, stack, i);
    KeepAt(blocks, mask, |blocks|, i);
    if n != 0 {
      if ReachableIn(blocks, stack, n - 1, i) {
        ReachableAfterKeep(blocks, stack, n - 1, i);
      } else {
        var j: nat :| ReachableIn(blocks, stack, n - 1, j) && PointsTo(blocks[j], blocks[i]);
        ReachableAfterKeep(blocks, stack, n - 1, j);
        KeepAt(blocks, mask, |blocks|, j);
      }
    }
  }

  /** Everything a collection keeps would be kept again: collecting twice is collecting once. */
  lemma CollectTwice(blocks: seq<Block>, stack: set<nat>)
    ensures Collected(Collected(blocks, stack), stack) == Collected(blocks, stack)
  {
    var mask := LiveMask(blocks, stack);
    var kept := Collected(blocks, stack);
    forall k | 0 <= k < |kept|
      ensures LiveMask(kept, stack)[k]
    {
      var i := KeptFrom(blocks, mask, |blocks|, k);
      var n: nat :| ReachableIn(blocks, stack, n, i);
      ReachableAfterKeep(blocks, stack, n, i);
      assert Reachable(kept, stack, k);
    }
    KeepAll(kept, LiveMask(kept, stack), |kept|);
    assert kept[..|kept|] == kept;
  }

  lemma {:induction false} KeepAll<T>(xs: seq<T>, mask: seq<bool>, n: nat)
    requires |xs| == |mask| && n <= |xs|
    requires forall i :: 0 <= i < |mask| ==> mask[i]
    ensures KeepBelow(xs, mask, n) == xs[..n]
  {
    if n != 0 {
      KeepAll(xs, mask, n - 1);
    }
  }

  /** A collection cuts no pointer that can be followed: if a kept block holds a word that named a
      block before the collection, that block is kept and has the same contents. */
  lemma FollowedPointersSurvive(blocks: seq<Block>, stack: set<nat>, i: nat, j: nat)
    requires i < |blocks| && j < |blocks|
    requires LiveMask(blocks, stack)[i] && PointsTo(blocks[i], blocks[j])
    ensures LiveMask(blocks, stack)[j]
    ensures Rank(LiveMask(blocks, stack), j) < |Collected(blocks, stack)|
    ensures Collected(blocks, stack)[Rank(LiveMask(blocks, stack), j)] == blocks[j]
  {
    EdgeIsReachable(blocks, stack, i, j);
    KeepAt(blocks, LiveMask(blocks, stack), |blocks|, j);
  }

  // ---------------------------------------------------------------- totals

  function RemoveAt<T>(s: seq<T>, i: nat): (r: seq<T>)
    requires i < |s|
    ensures |r| == |s| - 1
  {
    seq(|s| - 1, k requires 0 <= k < |s| - 1 => if k < i then s[k] else s[k + 1])
  }

  function Sum(sizes: seq<nat>): nat {
    if sizes == [] then 0 else Sum(sizes[..|sizes| - 1]) + sizes[|sizes| - 1]
  }

  lemma {:induction false} SumAppend(a: seq<nat>, b: seq<nat>)
    ensures Sum(a + b) == Sum(a) + Sum(b)
  {
    if b == [] {
      assert a + b == a;
    } else {
      SumAppend(a, b[..|b| - 1]);
      assert (a + b)[..|a + b| - 1] == a + b[..|b| - 1];
    }
  }

  lemma SumPush(size: nat, sizes: seq<nat>)
    ensures Sum([size] + sizes) == Sum(sizes) + size
  {
    SumAppend([size], sizes);
  }

  lemma {:induction false} SumRemove(sizes: seq<nat>, i: nat)
    requires i < |sizes|
    ensures Sum(RemoveAt(sizes, i)) == Sum(sizes) - sizes[i]
  {
    var n := |sizes| - 1;
    if i == n {
      assert RemoveAt(sizes, i) == sizes[..n];
    } else {
      SumRemove(sizes[..n], i);
      assert RemoveAt(sizes, i)[..n - 1] == RemoveAt(sizes[..n], i);
    }
  }

  lemma {:induction false} SumReplace(sizes: seq<nat>, i: nat, size: nat)
    requires i < |sizes|
    ensures Sum(sizes[i := size]) == Sum(sizes) - sizes[i] + size
  {
    var n := |sizes| - 1;
    if i == n {
      assert sizes[i := size][..n] == sizes[..n];
    } else {
      SumReplace(sizes[..n], i, size);
      assert sizes[i := size][..n] == sizes[..n][i := size];
    }
  }
}
