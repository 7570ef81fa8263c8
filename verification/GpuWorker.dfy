/**
  A GPU worker's batch queue: each send launches a kernel over its values and adds a batch;
  receives walk the front batch with a read index and pop it when it is used up.  Calls hold
  the worker's mutex, so each method is one atomic step.
*/
module GpuWorker {
  import opened Fifo
  import opened Sequences

  /** One launch: its results, and the first one not yet read (negative before reading starts). */
  datatype Batch<Out> = Batch(count: nat, output: seq<Out>, readIndex: int)

  function Unread<Out>(b: Batch<Out>): seq<Out>
    requires b.readIndex <= |b.output|
  {
    if b.readIndex < 0 then b.output else b.output[b.readIndex..]
  }

  predicate Readable<Out>(b: Batch<Out>) {
    |b.output| == b.count && b.count > 0 && b.readIndex < b.count
  }

  predicate AllReadable<Out>(batches: seq<Batch<Out>>) {
    forall i :: 0 <= i < |batches| ==> Readable(batches[i])
  }

  /** The unread results of some batches, oldest first. */
  function Contents<Out>(batches: seq<Batch<Out>>): seq<Out>
    requires AllReadable(batches)
  {
    if batches == [] then [] else Unread(batches[0]) + Contents(batches[1..])
  }

  lemma {:induction false} ContentsAppend<Out>(batches: seq<Batch<Out>>, b: Batch<Out>)
    requires AllReadable(batches) && Readable(b)
    ensures AllReadable(batches + [b])
    ensures Contents(batches + [b]) == Contents(batches) + Unread(b)
  {
    hide Unread;
    if batches == [] {
      assert batches + [b] == [b];
      assert [b][1..] == [];
    } else {
      ContentsAppend(batches[1..], b);
      assert (batches + [b])[1..] == batches[1..] + [b];
      Assoc(Unread(batches[0]), Contents(batches[1..]), Unread(b));
    }
  }

  lemma ContentsStep<Out>(batches: seq<Batch<Out>>, i: nat, before: seq<Out>)
    requires AllReadable(batches) && i < |batches|
    ensures before + Contents(batches[i..]) == before + Unread(batches[i]) + Contents(batches[i + 1..])
  {
    assert batches[i..][1..] == batches[i + 1..];
  }

  /** Taking the first unread result of the front batch. */
  lemma ContentsFirst<Out>(batches: seq<Batch<Out>>, value: Out, left: seq<Out>)
    requires AllReadable(batches) && batches != [] && Unread(batches[0]) == [value] + left
    ensures Contents(batches) == [value] + (left + Contents(batches[1..]))
    ensures left == [] ==> left + Contents(batches[1..]) == Contents(batches[1..])
  {
    var rest := Contents(batches[1..]);
    assert Contents(batches) == [value] + left + rest;
    Assoc([value], left, rest);
  }

  lemma ContentsCons<Out>(b: Batch<Out>, rest: seq<Batch<Out>>)
    requires AllReadable(rest) && Readable(b)
    ensures AllReadable([b] + rest) && Contents([b] + rest) == Unread(b) + Contents(rest)
  {
    assert ([b] + rest)[1..] == rest;
  }

  lemma ContentsNone<Out>(batches: seq<Batch<Out>>)
    requires AllReadable(batches)
    ensures batches[0..] == batches && batches[|batches|..] == [] && Contents<Out>([]) == []
  {
  }

  lemma UnreadBatch<Out>(b: Batch<Out>)
    requires b.readIndex < 0
    ensures Unread(b) == b.output
  {
  }

  function Times(n: nat, divisor: nat): nat {
    n * divisor
  }

  /** Rounds up to a multiple: how many work items are launched. */
  function RoundUp(value: nat, divisor: nat): (r: nat)
    requires divisor > 0
    ensures value <= r < value + divisor
    ensures exists n: nat :: r == Times(n, divisor)
  {
    var div, remainder := value / divisor, value % divisor;
    if remainder == 0 then
      assert div * divisor == Times(div, divisor);
      div * divisor
    else
      assert (div + 1) * divisor == Times(div + 1, divisor);
      (div + 1) * divisor
  }

  /** Every work item below `size` runs; the order is the device's business. */
  ghost predicate RunsAll(order: seq<nat>, size: nat) {
    forall id :: 0 <= id < size ==> id in order
  }

  class Worker<In, Out(0)> {
    const f: In -> Out
    const localSize: nat := 64
    var batches: array<Batch<Out>>
    var used: nat

    ghost predicate Valid()
      reads this, batches
    {
      used <= batches.Length && AllReadable(batches[..used])
    }

    /** The queue a client sees. */
    ghost function Queue(): seq<Out>
      requires Valid()
      reads this, batches
    {
      Contents(batches[..used])
    }

    constructor (f: In -> Out)
      ensures Valid() && fresh(batches) && Queue() == [] && this.f == f
    {
      this.f := f;
      used := 0;
      batches := new Batch<Out>[10](_ => Batch(0, [], -1));
    }

    /** The kernel: each launched work item below `count` writes its own result. */
    method Launch(input: seq<In>, globalSize: nat, order: seq<nat>) returns (output: seq<Out>)
      requires |input| <= globalSize && RunsAll(order, globalSize)
      ensures output == Map(f, input)
    {
      var buffer := new Out[|input|];
      var k := 0;
      while k < |order|
        invariant 0 <= k <= |order|
        invariant forall j :: 0 <= j < k && order[j] < |input| ==> buffer[order[j]] == f(input[order[j]])
      {
        var i := order[k];
        if i < |input| {
          buffer[i] := f(input[i]);
        }
        k := k + 1;
      }
      forall i | 0 <= i < |input|
        ensures buffer[i] == f(input[i])
      {
        assert i in order;
      }
      output := buffer[..];
    }

    /** Makes room for one more batch at the end. */
    method NewBatch()
      requires Valid()
      modifies this`used, this`batches
      ensures used == old(used) + 1 <= batches.Length
      ensures batches == old(batches) || fresh(batches)
      ensures batches[..used - 1] == old(batches[..used])
    {
      ghost var was := batches[..used];
      used := used + 1;
      var size := batches.Length;
      while size < used
        invariant batches.Length <= size <= used || size == batches.Length
        decreases used - size
      {
        size := used;
      }
      if size != batches.Length {
        var grown := new Batch<Out>[size](_ => Batch(0, [], -1));
        var i := 0;
        while i < batches.Length
          invariant 0 <= i <= batches.Length <= grown.Length && batches == old(batches)
          invariant used == |was| + 1 && grown.Length == size
          invariant grown[..i] == batches[..i]
          invariant batches[..] == old(batches[..])
        {
          grown[i] := batches[i];
          i := i + 1;
        }
        assert grown[..used - 1] == was;
        batches := grown;
      }
    }

    /** Drops the front batch, moving the others down in place. */
    method PopBatch()
      requires used > 0 && used <= batches.Length
      modifies this`used, batches
      ensures used == old(used) - 1
      ensures batches[..used] == old(batches[1..used])
    {
      ghost var was := batches[..used];
      var i := 1;
      while i < used
        invariant 1 <= i <= used == |was| <= batches.Length
        invariant forall k :: 0 <= k < i - 1 ==> batches[k] == was[k + 1]
        invariant forall k :: i - 1 <= k < used ==> batches[k] == was[k]
      {
        batches[i - 1] := batches[i];
        i := i + 1;
      }
      used := used - 1;
      assert forall k :: 0 <= k < used ==> batches[..used][k] == was[1..][k];
      assert batches[..used] == was[1..];
    }

    /** Sends a non-empty vector: the queue grows by its results, in order. */
    method Send(values: seq<In>, order: seq<nat>)
      requires Valid() && |values| > 0
      requires RunsAll(order, RoundUp(|values|, localSize))
      modifies this`used, this`batches, batches
      ensures Valid() && (batches == old(batches) || fresh(batches))
      ensures Queue() == Fifo.Send(f, old(Queue()), values)
    {
      ghost var was := batches[..used];
      NewBatch();
      var output := Launch(values, RoundUp(|values|, localSize), order);
      var batch := Batch(|values|, output, -1);
      batches[used - 1] := batch;
      assert batches[..used] == was + [batch];
      ContentsAppend(was, batch);
    }

    /** Receives the oldest result. */
    method Receive() returns (value: Out)
      requires Valid() && used > 0
      modifies this`used, batches
      ensures Valid() && old(Queue()) != []
      ensures (value, Queue()) == Fifo.Receive(old(Queue()))
    {
      hide Contents;
      ghost var was := batches[..used];
      var batch := batches[0];
      assert Readable(was[0]);
      if batch.readIndex < 0 {
        batch := batch.(readIndex := 0);
      }
      value := batch.output[batch.readIndex];
      batch := batch.(readIndex := batch.readIndex + 1);
      ghost var left := batch.output[batch.readIndex..];
      ContentsFirst(was, value, left);
      batches[0] := batch;
      if batch.readIndex == batch.count {
        PopBatch();
        assert batches[..used] == was[1..];
      } else {
        assert batches[..used] == [batch] + was[1..];
        ContentsCons(batch, was[1..]);
      }
    }

    /** Appends the results of a partly read batch one by one. */
    method AppendRest(vec: seq<Out>, batch: Batch<Out>) returns (after: seq<Out>)
      requires Readable(batch) && batch.readIndex >= 0
      ensures after == vec + Unread(batch)
    {
      after := vec;
      var k := batch.readIndex;
      while k < batch.count
        invariant batch.readIndex <= k <= batch.count
        invariant after == vec + batch.output[batch.readIndex..k]
      {
        after := after + [batch.output[k]];
        k := k + 1;
      }
      assert batch.output[batch.readIndex..k] == Unread(batch);
    }

    /** Receives everything. */
    method Drain() returns (results: seq<Out>)
      requires Valid() && used > 0
      modifies this`used, batches
      ensures Valid() && (results, Queue()) == Fifo.Drain(old(Queue()))
    {
      hide Contents, Unread;
      ghost var was := batches[..used];
      ContentsNone<Out>(was);
      results := [];
      var i := 0;
      while i < used
        invariant 0 <= i <= used == |was| <= batches.Length
        invariant forall k :: i <= k < used ==> batches[k] == was[k]
        invariant results + Contents(was[i..]) == Contents(was)
      {
        var batch := batches[i];
        assert Readable(was[i]);
        ghost var sofar := results;
        if batch.readIndex < 0 {
          results := results + batch.output;
          UnreadBatch(batch);
        } else {
          results := AppendRest(results, batch);
          batches[i] := batch.(readIndex := batch.count);
        }
        assert results == sofar + Unread(was[i]);
        ContentsStep(was, i, sofar);
        i := i + 1;
      }
      assert results + [] == results;
      used := 0;
      assert batches[..0] == [];
    }

    /** A client's calls, one after the other, and everything they hand back: what the queue specification hands
        back for them, as it is for a CPU worker. */
    method Session(calls: seq<Fifo.Call<In>>, orders: seq<seq<nat>>) returns (handed: seq<Out>)
      requires Valid() && Answered(f, calls, Queue())
      requires |orders| == |calls|
      requires forall k :: 0 <= k < |calls| && calls[k].CallSend? ==>
                 RunsAll(orders[k], RoundUp(|calls[k].values|, localSize))
      modifies this`used, this`batches, batches
      ensures Valid() && (batches == old(batches) || fresh(batches))
      ensures Fifo.Returns(f, calls, old(Queue()))
      ensures (handed, Queue()) == Fifo.Run(f, calls, old(Queue()))
    {
      hide Valid, Queue, RunsAll;
      AnsweredReturns(f, calls, Queue());
      ghost var spec := Fifo.Run(f, calls, Queue());
      handed := [];
      assert calls[0..] == calls;
      for k := 0 to |calls|
        invariant Valid() && (batches == old(batches) || fresh(batches))
        invariant Answered(f, calls[k..], Queue()) && Fifo.Returns(f, calls[k..], Queue())
        invariant handed + Fifo.Run(f, calls[k..], Queue()).0 == spec.0
        invariant Fifo.Run(f, calls[k..], Queue()).1 == spec.1
      {
        var call := calls[k];
        assert calls[k..][0] == call && calls[k..][1..] == calls[k + 1..];
        ghost var rest := Fifo.Run(f, calls[k + 1..], AfterCall(f, call, Queue())).0;
        match call
        case CallSend(values) => Send(values, orders[k]);
        case CallReceive =>
          UsedIfAny();
          ghost var first := Queue()[0];
          var value := Receive();
          Assoc(handed, [first], rest);
          handed := handed + [value];
        case CallDrain =>
          UsedIfAny();
          ghost var all := Queue();
          var results := Drain();
          Assoc(handed, all, rest);
          handed := handed + results;
        AnsweredReturns(f, calls[k + 1..], Queue());
      }
      assert calls[|calls|..] == [] && handed + [] == handed;
    }

    lemma UsedIfAny()
      requires Valid() && Queue() != []
      ensures used > 0
    {
    }
  }

  /** Calls whose outcome is defined: no send is empty, and nothing is received or drained from an empty queue. */
  predicate Answered<In, Out>(f: In -> Out, calls: seq<Fifo.Call<In>>, queue: seq<Out>) {
    calls == [] ||
    ((calls[0].CallSend? ==> calls[0].values != [])
     && (!calls[0].CallSend? ==> queue != [])
     && Answered(f, calls[1..], AfterCall(f, calls[0], queue)))
  }

  function AfterCall<In, Out>(f: In -> Out, call: Fifo.Call<In>, queue: seq<Out>): seq<Out> {
    match call
    case CallSend(values) => Fifo.Send(f, queue, values)
    case CallReceive => if queue != [] then Fifo.Receive(queue).1 else []
    case CallDrain => []
  }

  lemma {:induction false} AnsweredReturns<In, Out>(f: In -> Out, calls: seq<Fifo.Call<In>>, queue: seq<Out>)
    requires Answered(f, calls, queue)
    ensures Fifo.Returns(f, calls, queue)
  {
    if calls != [] {
      AnsweredReturns(f, calls[1..], AfterCall(f, calls[0], queue));
    }
  }
}
