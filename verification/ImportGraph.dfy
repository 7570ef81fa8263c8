/** The import graph of a set of source files: walks, cycles, and orders in which imports come first. */
module ImportGraph {
  type Key = string

  /** For every file that exists, the modules it imports, in order. */
  type Files = map<Key, seq<Key>>

  /** A walk along imports: each step goes from an existing file to something it imports. */
  ghost predicate IsWalk(files: Files, p: seq<Key>) {
    |p| >= 1 && forall i :: 0 <= i < |p| - 1 ==> p[i] in files && p[i + 1] in files[p[i]]
  }

  ghost predicate WalkTo(files: Files, root: Key, p: seq<Key>, k: Key) {
    IsWalk(files, p) && p[0] == root && p[|p| - 1] == k
  }

  ghost predicate Reachable(files: Files, root: Key, k: Key) {
    exists p :: WalkTo(files, root, p, k)
  }

  /** The walk ends at a module it was at before, at step `i`. */
  ghost predicate Returns(files: Files, root: Key, p: seq<Key>, i: int) {
    IsWalk(files, p) && p[0] == root && 0 <= i < |p| - 1 && p[i] == p[|p| - 1]
  }

  /** Some walk from the root comes back to a module it has been to. */
  ghost predicate Cyclic(files: Files, root: Key) {
    exists p, i :: Returns(files, root, p, i)
  }

  ghost predicate AllPresent(files: Files, root: Key) {
    forall k :: Reachable(files, root, k) ==> k in files
  }

  lemma ExtendWalk(files: Files, root: Key, p: seq<Key>, k: Key, next: Key)
    requires WalkTo(files, root, p, k) && k in files && next in files[k]
    ensures WalkTo(files, root, p + [next], next)
    ensures Reachable(files, root, next)
  {
    assert WalkTo(files, root, p + [next], next);
  }

  // ---------------------------------------------------------------- orders

  predicate Unrepeated(order: seq<Key>) {
    forall i, j :: 0 <= i < j < |order| ==> order[i] != order[j]
  }

  /** Every stored module exists and everything it imports was stored before it. */
  predicate ImportsFirst(files: Files, order: seq<Key>) {
    forall i :: 0 <= i < |order| ==> order[i] in files && forall k :: k in files[order[i]] ==> k in order[..i]
  }

  lemma AppendImportsFirst(files: Files, order: seq<Key>, id: Key)
    requires ImportsFirst(files, order) && Unrepeated(order)
    requires id in files && id !in order && forall k :: k in files[id] ==> k in order
    ensures ImportsFirst(files, order + [id]) && Unrepeated(order + [id])
  {
    var after := order + [id];
    forall i | 0 <= i < |after|
      ensures after[i] in files && forall k :: k in files[after[i]] ==> k in after[..i]
    {
      assert after[..i] == order[..i];
      assert order[..|order|] == order;
    }
  }

  /** If `id` imports the last module stored, `id` itself cannot be stored: its imports would come first. */
  lemma ImporterComesLater(files: Files, order: seq<Key>, id: Key)
    requires ImportsFirst(files, order) && Unrepeated(order) && order != []
    requires id in files && order[|order| - 1] in files[id]
    ensures id !in order
  {
  }

  /** Walks from a stored module stay among the stored ones and go strictly backwards in the order. */
  lemma {:induction false} WalkDescends(files: Files, order: seq<Key>, p: seq<Key>, at: nat) returns (places: seq<nat>)
    requires ImportsFirst(files, order) && Unrepeated(order)
    requires IsWalk(files, p) && at < |order| && order[at] == p[0]
    ensures |places| == |p|
    ensures forall i :: 0 <= i < |p| ==> places[i] <= at && order[places[i]] == p[i]
    ensures forall i :: 0 < i < |p| ==> places[i] < at
    ensures forall i, j :: 0 <= i < j < |p| ==> places[j] < places[i]
  {
    if |p| == 1 {
      places := [at];
    } else {
      assert p[1] in order[..at];
      var next :| 0 <= next < at && order[next] == p[1];
      assert IsWalk(files, p[1..]);
      var rest := WalkDescends(files, order, p[1..], next);
      places := [at] + rest;
    }
  }

  /** Imports-first orders have no cycle to hide: from a stored root there is none, and nothing is missing. */
  lemma StoredIsAcyclic(files: Files, order: seq<Key>, root: Key)
    requires ImportsFirst(files, order) && Unrepeated(order) && root in order
    ensures !Cyclic(files, root) && AllPresent(files, root)
    ensures forall k :: Reachable(files, root, k) ==> k in order
  {
    var at :| 0 <= at < |order| && order[at] == root;
    if Cyclic(files, root) {
      var p, i :| Returns(files, root, p, i);
      var places := WalkDescends(files, order, p, at);
    }
    forall k | Reachable(files, root, k)
      ensures k in order && k in files
    {
      var p :| WalkTo(files, root, p, k);
      var places := WalkDescends(files, order, p, at);
      assert order[places[|p| - 1]] == k;
    }
  }
}
