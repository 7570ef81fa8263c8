/**
  What any worker promises its clients: a first-in first-out queue of results, where
  sending appends the function's results, receiving takes the oldest and draining takes all.
*/
module Fifo {

  function Map<A, B>(f: A -> B, xs: seq<A>): (ys: seq<B>)
    ensures |ys| == |xs|
    ensures forall i :: 0 <= i < |xs| ==> ys[i] == f(xs[i])
  {
    seq(|xs|, i requires 0 <= i < |xs| => f(xs[i]))
  }

  lemma MapAppend<A, B>(f: A -> B, xs: seq<A>, ys: seq<A>)
    ensures Map(f, xs + ys) == Map(f, xs) + Map(f, ys)
  {
  }

  function Send<In, Out>(f: In -> Out, queue: seq<Out>, values: seq<In>): seq<Out> {
    queue + Map(f, values)
  }

  /** The value received and what is left. */
  function Receive<Out>(queue: seq<Out>): (Out, seq<Out>)
    requires queue != []
  {
    (queue[0], queue[1..])
  }

  /** The values drained and what is left. */
  function Drain<Out>(queue: seq<Out>): (seq<Out>, seq<Out>) {
    (queue, [])
  }

  /** Client calls on a worker; receiving from an empty queue blocks, so it is not a call that returns. */
  datatype Call<In> = CallSend(values: seq<In>) | CallReceive | CallDrain

  predicate Returns<In, Out>(f: In -> Out, calls: seq<Call<In>>, queue: seq<Out>) {
    calls == [] ||
    match calls[0]
    case CallSend(values) => Returns(f, calls[1..], Send(f, queue, values))
    case CallReceive => queue != [] && Returns(f, calls[1..], Receive(queue).1)
    case CallDrain => Returns(f, calls[1..], [])
  }

  /** Everything the calls hand back, in order, and the queue they leave. */
  function Run<In, Out>(f: In -> Out, calls: seq<Call<In>>, queue: seq<Out>): (seq<Out>, seq<Out>)
    requires Returns(f, calls, queue)
  {
    if calls == [] then ([], queue)
    else match calls[0]
      case CallSend(values) => Run(f, calls[1..], Send(f, queue, values))
      case CallReceive =>
        var rest := Run(f, calls[1..], Receive(queue).1);
        ([queue[0]] + rest.0, rest.1)
      case CallDrain =>
        var rest := Run(f, calls[1..], []);
        (queue + rest.0, rest.1)
  }

  function Sent<In>(calls: seq<Call<In>>): seq<In> {
    if calls == [] then []
    else match calls[0]
      case CallSend(values) => values + Sent(calls[1..])
      case CallReceive => Sent(calls[1..])
      case CallDrain => Sent(calls[1..])
  }

  /** However sends, receives and drains are mixed, nothing is lost, repeated or reordered. */
  lemma {:induction false} RunConserves<In, Out>(f: In -> Out, calls: seq<Call<In>>, queue: seq<Out>)
    requires Returns(f, calls, queue)
    ensures Run(f, calls, queue).0 + Run(f, calls, queue).1 == queue + Map(f, Sent(calls))
  {
    if calls != [] {
      match calls[0]
      case CallSend(values) =>
        RunConserves(f, calls[1..], Send(f, queue, values));
        MapAppend(f, values, Sent(calls[1..]));
      case CallReceive =>
        RunConserves(f, calls[1..], queue[1..]);
        var rest := Run(f, calls[1..], queue[1..]);
        assert [queue[0]] + rest.0 + rest.1 == [queue[0]] + (rest.0 + rest.1);
      case CallDrain =>
        RunConserves(f, calls[1..], []);
        var rest := Run(f, calls[1..], []);
        assert queue + rest.0 + rest.1 == queue + (rest.0 + rest.1);
    }
  }
}
