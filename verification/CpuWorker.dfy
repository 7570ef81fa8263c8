/**
  A CPU worker: an input pipe, a thread that applies one function, an output pipe, and a
  count of what has been sent and not received back.  Client threads send, receive and
  drain; every locked section, semaphore call and application is one atomic step.
*/
module CpuWorker {
  import opened Pipe
  import opened Fifo

  // ---------------------------------------------------------------- state

  /** What a client is receiving for: one value, or the rest of a drain. */
  datatype Job<Out> = One | Drain(left: int, results: seq<Out>)

  /** Where a client thread is. `Ready` remembers what the last call handed back. */
  datatype Client<In, Out> =
    | Ready(last: seq<Out>)
    | Pushing(rest: seq<In>)
    | PushPosting(rest: seq<In>)
    | Waiting(job: Job<Out>)
    | Taking(job: Job<Out>)
    | Counting(job: Job<Out>, value: Out)

  /** Where the worker's own thread is. */
  datatype Thread<In, Out> =
    | InWaiting
    | InTaking
    | Applying(input: In)
    | Sending(output: Out)
    | OutPosting
    | Closing
    | ClosePosting
    | Done

  /** The collector's finaliser closes the input pipe once no client can reach the worker. */
  datatype Finaliser = Live | FinalPosting | Finalised

  datatype System<In, Out> = System(
    input: Pipe.State<In>,
    output: Pipe.State<Out>,
    thread: Thread<In, Out>,
    underway: int,
    clients: seq<Client<In, Out>>,
    finaliser: Finaliser,
    hasOutput: bool,
    pushed: seq<In>,
    received: seq<Out>)

  // ---------------------------------------------------------------- steps

  datatype Step<In> =
    | Announce(client: nat, values: seq<In>)
    | PushOne(client: nat)
    | PushPost(client: nat)
    | PushDone(client: nat)
    | StartReceive(client: nat)
    | StartDrain(client: nat)
    | OutWait(client: nat)
    | OutTake(client: nat)
    | Uncount(client: nat)
    | InWait
    | InTake
    | ApplyFn
    | OutPush
    | OutPost
    | OutClose
    | OutClosePost
    | FinalClose
    | FinalPost

  predicate IsClientStep<In>(step: Step<In>) {
    step.Announce? || step.PushOne? || step.PushPost? || step.PushDone? || step.StartReceive? ||
    step.StartDrain? || step.OutWait? || step.OutTake? || step.Uncount?
  }

  predicate AllReady<In, Out>(clients: seq<Client<In, Out>>) {
    forall c :: 0 <= c < |clients| ==> clients[c].Ready?
  }

  /** What lets a client step run.  A push on a closed pipe and a refused receive panic. */
  predicate ClientEnabled<In, Out>(s: System<In, Out>, step: Step<In>)
    requires IsClientStep(step)
  {
    step.client < |s.clients| &&
    var c := s.clients[step.client];
    match step
    case Announce(_, _) => c.Ready? && s.finaliser.Live?
    case StartReceive(_) => c.Ready? && s.finaliser.Live?
    case StartDrain(_) => c.Ready? && s.finaliser.Live?
    case PushOne(_) => c.Pushing? && |c.rest| > 0 && !s.input.closed
    case PushPost(_) => c.PushPosting?
    case PushDone(_) => c.Pushing? && |c.rest| == 0
    case OutWait(_) => c.Waiting? && s.output.semaphore > 0
    case OutTake(_) => c.Taking? && |s.output.items| > 0
    case Uncount(_) => c.Counting?
  }

  predicate Enabled<In, Out>(s: System<In, Out>, step: Step<In>) {
    if IsClientStep(step) then ClientEnabled(s, step)
    else match step
      case InWait => s.thread.InWaiting? && s.input.semaphore > 0
      case InTake => s.thread.InTaking? && (|s.input.items| > 0 || s.input.closed)
      case ApplyFn => s.thread.Applying?
      case OutPush => s.thread.Sending? && !s.output.closed
      case OutPost => s.thread.OutPosting?
      case OutClose => s.thread.Closing?
      case OutClosePost => s.thread.ClosePosting?
      case FinalClose => s.finaliser.Live? && AllReady(s.clients)
      case FinalPost => s.finaliser.FinalPosting?
  }

  /** A drain that needs nothing more returns; otherwise it waits for the next result. */
  function NextInDrain<In, Out>(left: int, results: seq<Out>): Client<In, Out> {
    if left <= 0 then Ready(results) else Waiting(Drain(left, results))
  }

  function ApplyClient<In, Out>(s: System<In, Out>, step: Step<In>): System<In, Out>
    requires IsClientStep(step) && ClientEnabled(s, step)
  {
    var c := s.clients[step.client];
    match step
    case Announce(i, values) =>
      s.(underway := s.underway + |values|, clients := s.clients[i := Pushing(values)])
    case PushOne(i) =>
      s.(input := Pushed(s.input, c.rest[0]),
         clients := s.clients[i := PushPosting(c.rest[1..])],
         pushed := s.pushed + [c.rest[0]])
    case PushPost(i) =>
      s.(input := Posted(s.input), clients := s.clients[i := Pushing(c.rest)])
    case PushDone(i) =>
      s.(clients := s.clients[i := Ready([])])
    case StartReceive(i) =>
      s.(clients := s.clients[i := Waiting(One)])
    case StartDrain(i) =>
      s.(clients := s.clients[i := NextInDrain(s.underway, [])])
    case OutWait(i) =>
      s.(output := Waited(s.output), clients := s.clients[i := Taking(c.job)])
    case OutTake(i) =>
      var value := s.output.items[0];
      s.(output := Taken(s.output).0,
         clients := s.clients[i := Counting(c.job, value)],
         received := s.received + [value])
    case Uncount(i) =>
      var after := match c.job
        case One => Ready([c.value])
        case Drain(left, results) => NextInDrain(left - 1, results + [c.value]);
      s.(underway := s.underway - 1, clients := s.clients[i := after])
  }

  function ApplyStep<In, Out>(f: In -> Out, s: System<In, Out>, step: Step<In>): System<In, Out>
    requires Enabled(s, step)
  {
    if IsClientStep(step) then ApplyClient(s, step)
    else match step
      case InWait => s.(input := Waited(s.input), thread := InTaking)
      case InTake =>
        if s.input.items != [] then
          s.(input := Taken(s.input).0, thread := Applying(s.input.items[0]))
        else
          s.(thread := if s.hasOutput then Closing else Done)
      case ApplyFn => s.(thread := Sending(f(s.thread.input)))
      case OutPush => s.(output := Pushed(s.output, s.thread.output), thread := OutPosting)
      case OutPost => s.(output := Posted(s.output), thread := InWaiting)
      case OutClose => s.(output := Closed(s.output), thread := ClosePosting)
      case OutClosePost => s.(output := Posted(s.output), thread := Done)
      case FinalClose => s.(input := Closed(s.input), finaliser := FinalPosting)
      case FinalPost => s.(input := Posted(s.input), finaliser := Finalised)
  }

  ghost predicate Init<In, Out>(s: System<In, Out>) {
    && s.input == Pipe.State([], false, 0) && s.output == Pipe.State([], false, 0)
    && s.thread == InWaiting && s.underway == 0 && s.finaliser == Live
    && (forall c :: 0 <= c < |s.clients| ==> s.clients[c].Ready?)
    && s.pushed == [] && s.received == []
  }

  predicate IsRun<In, Out>(f: In -> Out, s: System<In, Out>, steps: seq<Step<In>>)
    decreases |steps|
  {
    steps == [] || (Enabled(s, steps[0]) && IsRun(f, ApplyStep(f, s, steps[0]), steps[1..]))
  }

  function RunOf<In, Out>(f: In -> Out, s: System<In, Out>, steps: seq<Step<In>>): System<In, Out>
    requires IsRun(f, s, steps)
    decreases |steps|
  {
    if steps == [] then s else RunOf(f, ApplyStep(f, s, steps[0]), steps[1..])
  }

  // ---------------------------------------------------------------- invariants

  /** The result the thread still owes for the input it holds. */
  function Held<In, Out>(f: In -> Out, thread: Thread<In, Out>): seq<Out> {
    match thread
    case Applying(x) => [f(x)]
    case Sending(y) => [y]
    case _ => []
  }

  /** Results that exist or will exist, oldest first. */
  function Results<In, Out>(f: In -> Out, s: System<In, Out>): seq<Out> {
    s.received + s.output.items + Held(f, s.thread) + Map(f, s.input.items)
  }

  /** What a client has announced and not pushed. */
  function Unpushed<In, Out>(c: Client<In, Out>): nat {
    match c
    case Pushing(rest) => |rest|
    case PushPosting(rest) => |rest|
    case _ => 0
  }

  /** How much of the count a client is responsible for. */
  function Share<In, Out>(c: Client<In, Out>): nat {
    if c.Counting? then 1 else Unpushed(c)
  }

  function Shares<In, Out>(clients: seq<Client<In, Out>>): nat {
    if clients == [] then 0 else Shares(clients[..|clients| - 1]) + Share(clients[|clients| - 1])
  }

  lemma {:induction false} SharesUpdate<In, Out>(clients: seq<Client<In, Out>>, i: nat, c: Client<In, Out>)
    requires i < |clients|
    ensures Shares(clients[i := c]) == Shares(clients) - Share(clients[i]) + Share(c)
  {
    var n := |clients| - 1;
    if i == n {
      assert clients[i := c][..n] == clients[..n];
    } else {
      SharesUpdate(clients[..n], i, c);
      assert clients[i := c][..n] == clients[..n][i := c];
    }
  }

  lemma {:induction false} SharesOfReady<In, Out>(clients: seq<Client<In, Out>>)
    requires AllReady(clients)
    ensures Shares(clients) == 0
  {
    if clients != [] {
      SharesOfReady(clients[..|clients| - 1]);
    }
  }

  function PostingInput<In, Out>(): Client<In, Out> -> bool {
    (c: Client<In, Out>) => c.PushPosting?
  }

  function PastOutputWait<In, Out>(): Client<In, Out> -> bool {
    (c: Client<In, Out>) => c.Taking?
  }

  /** Nothing is lost, repeated or reordered between a push and a receive. */
  ghost predicate InOrder<In, Out>(f: In -> Out, s: System<In, Out>) {
    Results(f, s) == Map(f, s.pushed)
  }

  /** The count is exactly what is announced and not pushed, queued, held, produced, or taken and not
      yet counted off. */
  ghost predicate Counted<In, Out>(f: In -> Out, s: System<In, Out>) {
    s.underway == Shares(s.clients) + |s.input.items| + |Held(f, s.thread)| + |s.output.items|
  }

  /** Semaphore value, receivers past the wait and pending posts match the items and close tokens. */
  ghost predicate Tokens<In, Out>(s: System<In, Out>) {
    && s.input.semaphore + (if s.thread.InTaking? then 1 else 0)
       + Count(PostingInput(), s.clients) + (if s.finaliser.FinalPosting? then 1 else 0)
       == |s.input.items| + (if s.input.closed && !Ending(s.thread) then 1 else 0)
    && s.output.semaphore + Count(PastOutputWait(), s.clients)
       + (if s.thread.OutPosting? || s.thread.ClosePosting? then 1 else 0)
       == |s.output.items| + (if s.output.closed then 1 else 0)
  }

  predicate Ending<In, Out>(thread: Thread<In, Out>) {
    thread.Closing? || thread.ClosePosting? || thread.Done?
  }

  /** Pipes close only after the last client call has returned. */
  ghost predicate ClosedLate<In, Out>(s: System<In, Out>) {
    && (s.input.closed <==> !s.finaliser.Live?)
    && (!s.finaliser.Live? ==> AllReady(s.clients))
    && (Ending(s.thread) ==> s.input.closed && s.input.items == [])
    && (s.output.closed ==> s.thread.ClosePosting? || s.thread.Done?)
  }

  ghost predicate Inv<In, Out>(f: In -> Out, s: System<In, Out>) {
    InOrder(f, s) && Counted(f, s) && Tokens(s) && ClosedLate(s)
  }

  lemma InitInv<In, Out>(f: In -> Out, s: System<In, Out>)
    requires Init(s)
    ensures Inv(f, s)
  {
    CountZero(PostingInput<In, Out>(), s.clients);
    CountZero(PastOutputWait<In, Out>(), s.clients);
    SharesOfReady(s.clients);
  }

  lemma ClientKeepsOrder<In, Out>(f: In -> Out, s: System<In, Out>, step: Step<In>)
    requires InOrder(f, s) && IsClientStep(step) && ClientEnabled(s, step)
    ensures InOrder(f, ApplyClient(s, step))
  {
    hide Map;
    var after := ApplyClient(s, step);
    var c := s.clients[step.client];
    if step.PushOne? {
      MapAppend(f, s.input.items, [c.rest[0]]);
      MapAppend(f, s.pushed, [c.rest[0]]);
      var front := s.received + s.output.items + Held(f, s.thread);
      assert front + (Map(f, s.input.items) + Map(f, [c.rest[0]])) == Results(f, s) + Map(f, [c.rest[0]]);
    } else if step.OutTake? {
      assert s.output.items == [s.output.items[0]] + s.output.items[1..];
      assert after.received + after.output.items == s.received + s.output.items;
    }
  }

  lemma ClientKeepsCounts<In, Out>(f: In -> Out, s: System<In, Out>, step: Step<In>)
    requires Counted(f, s) && Tokens(s) && ClosedLate(s) && IsClientStep(step) && ClientEnabled(s, step)
    ensures var after := ApplyClient(s, step); Counted(f, after) && Tokens(after) && ClosedLate(after)
  {
    hide Count, Shares;
    var i := step.client;
    var after := ApplyClient(s, step);
    CountUpdate(PostingInput<In, Out>(), s.clients, i, after.clients[i]);
    CountUpdate(PastOutputWait<In, Out>(), s.clients, i, after.clients[i]);
    SharesUpdate(s.clients, i, after.clients[i]);
    assert after.clients == s.clients[i := after.clients[i]];
    assert s.finaliser.Live?;
  }

  /** Taking the oldest input and owing its result is no change to what will be received. */
  lemma MapFirst<In, Out>(f: In -> Out, front: seq<Out>, items: seq<In>)
    requires items != []
    ensures front + [] + Map(f, items) == front + [f(items[0])] + Map(f, items[1..])
  {
  }

  lemma Regroup<T>(a: seq<T>, b: seq<T>, c: seq<T>, d: seq<T>)
    ensures a + (b + c) + [] + d == a + b + c + d
  {
  }

  lemma ThreadKeepsOrder<In, Out>(f: In -> Out, s: System<In, Out>, step: Step<In>)
    requires InOrder(f, s) && !IsClientStep(step) && Enabled(s, step)
    ensures InOrder(f, ApplyStep(f, s, step))
  {
    hide Map;
    if step.InTake? && s.input.items != [] {
      MapFirst(f, s.received + s.output.items, s.input.items);
    } else if step.OutPush? {
      Regroup(s.received, s.output.items, [s.thread.output], Map(f, s.input.items));
    }
  }

  lemma ThreadKeepsCounts<In, Out>(f: In -> Out, s: System<In, Out>, step: Step<In>)
    requires Counted(f, s) && Tokens(s) && ClosedLate(s) && !IsClientStep(step) && Enabled(s, step)
    ensures var after := ApplyStep(f, s, step); Counted(f, after) && Tokens(after) && ClosedLate(after)
  {
    hide Count, Shares;
    if step.FinalClose? {
      SharesOfReady(s.clients);
    }
  }

  lemma StepKeepsInv<In, Out>(f: In -> Out, s: System<In, Out>, step: Step<In>)
    requires Inv(f, s) && Enabled(s, step)
    ensures Inv(f, ApplyStep(f, s, step))
  {
    if IsClientStep(step) {
      ClientKeepsOrder(f, s, step);
      ClientKeepsCounts(f, s, step);
    } else {
      ThreadKeepsOrder(f, s, step);
      ThreadKeepsCounts(f, s, step);
    }
  }

  /** Every interleaving of any number of clients and the worker keeps order and count. */
  lemma {:induction false} RunKeepsInv<In, Out>(f: In -> Out, s: System<In, Out>, steps: seq<Step<In>>)
    requires Inv(f, s) && IsRun(f, s, steps)
    ensures Inv(f, RunOf(f, s, steps))
    decreases |steps|
  {
    if steps != [] {
      StepKeepsInv(f, s, steps[0]);
      RunKeepsInv(f, ApplyStep(f, s, steps[0]), steps[1..]);
    }
  }

  /** What has been received is always the results of the first inputs pushed. */
  lemma ReceivedIsPrefix<In, Out>(f: In -> Out, s: System<In, Out>, steps: seq<Step<In>>)
    requires Init(s) && IsRun(f, s, steps)
    ensures RunOf(f, s, steps).received <= Map(f, RunOf(f, s, steps).pushed)
  {
    InitInv(f, s);
    RunKeepsInv(f, s, steps);
  }

  /** Whatever the interleaving, no thread reaches a panic: nobody pushes on a closed pipe, no receive is
      refused, and no receive reads an empty buffer. */
  lemma NoPanic<In, Out>(f: In -> Out, s: System<In, Out>, i: nat)
    requires Inv(f, s) && i < |s.clients|
    ensures s.clients[i].Pushing? && s.clients[i].rest != [] ==> Enabled(s, PushOne(i))
    ensures s.clients[i].Taking? ==> Enabled(s, OutTake(i))
    ensures s.thread.InTaking? ==> Enabled(s, InTake)
    ensures s.thread.Sending? ==> Enabled(s, OutPush)
  {
    CountUpdate(PastOutputWait<In, Out>(), s.clients, i, Ready([]));
  }

  // ---------------------------------------------------------------- one client

  ghost predicate Alone<In, Out>(s: System<In, Out>) {
    |s.clients| == 1
  }

  /** The announced values a client has still to push. */
  function Rest<In, Out>(c: Client<In, Out>): seq<In> {
    match c
    case Pushing(rest) => rest
    case PushPosting(rest) => rest
    case _ => []
  }

  /** The queue a single client sees: what is produced, owed, queued and announced. */
  ghost function Queue<In, Out>(f: In -> Out, s: System<In, Out>): seq<Out>
    requires Alone(s)
  {
    s.output.items + Held(f, s.thread) + Map(f, s.input.items) + Map(f, Rest(s.clients[0]))
  }

  /** What the worker thread does is invisible to its client. */
  lemma ThreadStepKeepsQueue<In, Out>(f: In -> Out, s: System<In, Out>, step: Step<In>)
    requires Alone(s) && !IsClientStep(step) && Enabled(s, step)
    ensures Queue(f, ApplyStep(f, s, step)) == Queue(f, s)
  {
    hide Map;
    var rest := Map(f, Rest(s.clients[0]));
    if step.InTake? && s.input.items != [] {
      MapFirst(f, s.output.items, s.input.items);
    } else if step.OutPush? {
      Regroup([], s.output.items, [s.thread.output], Map(f, s.input.items) + rest);
      Regroup([], s.output.items, [s.thread.output], Map(f, s.input.items));
    }
  }

  /** Pushing moves a value from the announced to the queued, which keeps the order. */
  lemma MoveFirst<In, Out>(f: In -> Out, front: seq<Out>, items: seq<In>, rest: seq<In>)
    requires rest != []
    ensures front + Map(f, items + [rest[0]]) + Map(f, rest[1..]) == front + Map(f, items) + Map(f, rest)
  {
    MapAppend(f, items, [rest[0]]);
    MapAppend(f, [rest[0]], rest[1..]);
    assert rest == [rest[0]] + rest[1..];
  }

  lemma DropFirst<T>(items: seq<T>, b: seq<T>, c: seq<T>, d: seq<T>)
    requires items != []
    ensures items[1..] + b + c + d == (items + b + c + d)[1..]
  {
  }

  /** Announcing sends, taking receives, and every other client step leaves the queue alone. */
  lemma ClientStepActsOnQueue<In, Out>(f: In -> Out, s: System<In, Out>, step: Step<In>)
    requires Alone(s) && IsClientStep(step) && ClientEnabled(s, step)
    ensures step.Announce? ==> Queue(f, ApplyClient(s, step)) == Fifo.Send(f, Queue(f, s), step.values)
    ensures step.OutTake? ==> (
                Queue(f, s) != [] &&
                ApplyClient(s, step).clients[0].value == Fifo.Receive(Queue(f, s)).0 &&
                Queue(f, ApplyClient(s, step)) == Fifo.Receive(Queue(f, s)).1)
    ensures !step.Announce? && !step.OutTake? ==> Queue(f, ApplyClient(s, step)) == Queue(f, s)
  {
    hide Map;
    var c := s.clients[0];
    if step.PushOne? {
      MoveFirst(f, s.output.items + Held(f, s.thread), s.input.items, c.rest);
    } else if step.OutTake? {
      DropFirst(s.output.items, Held(f, s.thread), Map(f, s.input.items), Map(f, Rest(c)));
    }
  }

  /** With one client, the count is the length of its queue, plus a value taken and not counted off. */
  lemma UnderwayIsQueueLength<In, Out>(f: In -> Out, s: System<In, Out>)
    requires Inv(f, s) && Alone(s)
    ensures s.underway == |Queue(f, s)| + (if s.clients[0].Counting? then 1 else 0)
  {
    assert s.clients[..0] == [];
    assert Shares(s.clients) == Share(s.clients[0]);
  }

  // ---------------------------------------------------------------- one call

  /** The step with which a call begins. */
  function FirstStep<In>(call: Fifo.Call<In>): Step<In> {
    match call
    case CallSend(values) => Announce(0, values)
    case CallReceive => StartReceive(0)
    case CallDrain => StartDrain(0)
  }

  /** How far a call made on queue `q` has got. */
  ghost predicate During<In, Out>(f: In -> Out, call: Fifo.Call<In>, q: seq<Out>, s: System<In, Out>)
    requires Alone(s)
  {
    var now := Queue(f, s);
    match s.clients[0]
    case Ready(last) => Outcome(f, call, q, last, now)
    case Pushing(_) => call.CallSend? && now == Fifo.Send(f, q, call.values)
    case PushPosting(_) => call.CallSend? && now == Fifo.Send(f, q, call.values)
    case Waiting(job) => JobDone(call, job, q, now)
    case Taking(job) => JobDone(call, job, q, now)
    case Counting(job, value) => JobTook(call, job, value, q, now)
  }

  /** A finished call did what the queue specification says. */
  ghost predicate Outcome<In, Out>(
    f: In -> Out, call: Fifo.Call<In>, q: seq<Out>, last: seq<Out>, now: seq<Out>)
  {
    match call
    case CallSend(values) => last == [] && now == Fifo.Send(f, q, values)
    case CallReceive => q != [] && last == [Fifo.Receive(q).0] && now == Fifo.Receive(q).1
    case CallDrain => (last, now) == Fifo.Drain(q)
  }

  ghost predicate JobDone<In, Out>(call: Fifo.Call<In>, job: Job<Out>, q: seq<Out>, now: seq<Out>) {
    match job
    case One => call.CallReceive? && now == q
    case Drain(left, results) => call.CallDrain? && results + now == q && left == |now| > 0
  }

  ghost predicate JobTook<In, Out>(
    call: Fifo.Call<In>, job: Job<Out>, value: Out, q: seq<Out>, now: seq<Out>)
  {
    match job
    case One => call.CallReceive? && [value] + now == q
    case Drain(left, results) => call.CallDrain? && results + [value] + now == q && left == |now| + 1
  }

  lemma CallBegins<In, Out>(f: In -> Out, s: System<In, Out>, call: Fifo.Call<In>)
    requires Inv(f, s) && Alone(s) && s.clients[0].Ready? && s.finaliser.Live?
    ensures During(f, call, Queue(f, s), ApplyStep(f, s, FirstStep(call)))
  {
    hide Map;
    ClientStepActsOnQueue(f, s, FirstStep(call));
    UnderwayIsQueueLength(f, s);
  }

  lemma {:induction false} StepKeepsDuring<In, Out>(
    f: In -> Out, call: Fifo.Call<In>, q: seq<Out>, s: System<In, Out>, step: Step<In>)
    requires Inv(f, s) && Alone(s) && !s.clients[0].Ready? && During(f, call, q, s) && Enabled(s, step)
    ensures During(f, call, q, ApplyStep(f, s, step))
  {
    hide Map, Queue;
    if IsClientStep(step) {
      ClientStepActsOnQueue(f, s, step);
      var now := Queue(f, s);
      if step.OutTake? {
        assert now == [now[0]] + now[1..];
        if s.clients[0].job.Drain? {
          var results := s.clients[0].job.results;
          assert results + [now[0]] + now[1..] == results + ([now[0]] + now[1..]);
        }
      } else if step.Uncount? {
        var c := s.clients[0];
        if c.job.Drain? && now == [] {
          assert c.job.results + [c.value] + now == c.job.results + [c.value];
        }
      }
    } else {
      ThreadStepKeepsQueue(f, s, step);
    }
  }

  /** A run all of whose steps are taken while the client is inside a call. */
  predicate CallRun<In, Out>(f: In -> Out, s: System<In, Out>, steps: seq<Step<In>>)
    decreases |steps|
  {
    steps == [] ||
    (|s.clients| == 1 && !s.clients[0].Ready? && Enabled(s, steps[0]) &&
     CallRun(f, ApplyStep(f, s, steps[0]), steps[1..]))
  }

  function CallEnd<In, Out>(f: In -> Out, s: System<In, Out>, steps: seq<Step<In>>): System<In, Out>
    requires CallRun(f, s, steps)
    decreases |steps|
  {
    if steps == [] then s else CallEnd(f, ApplyStep(f, s, steps[0]), steps[1..])
  }

  // ---------------------------------------------------------------- every call finishes

  /** Steps the worker thread can still take, scaled so that each one counts. */
  function ThreadWork<In, Out>(s: System<In, Out>): int {
    5 * |s.input.items| +
    match s.thread
    case InWaiting => 0
    case InTaking => -1
    case Applying(_) => 3
    case Sending(_) => 2
    case OutPosting => 1
    case _ => 0
  }

  function JobWork<Out>(job: Job<Out>): int {
    if job.One? then 3 else 3 * job.left
  }

  function ClientWork<In, Out>(c: Client<In, Out>): int {
    match c
    case Ready(_) => 0
    case Pushing(rest) => 7 * |rest| + 1
    case PushPosting(rest) => 7 * |rest| + 2
    case Waiting(job) => JobWork(job)
    case Taking(job) => JobWork(job) - 1
    case Counting(job, _) => JobWork(job) - 2
  }

  function Work<In, Out>(s: System<In, Out>): int
    requires |s.clients| == 1
  {
    ThreadWork(s) + ClientWork(s.clients[0])
  }

  /** While a call is under way every step of either thread uses up work, of which there is finitely much. */
  lemma StepUsesWork<In, Out>(
    f: In -> Out, call: Fifo.Call<In>, q: seq<Out>, s: System<In, Out>, step: Step<In>)
    requires Inv(f, s) && Alone(s) && !s.clients[0].Ready? && During(f, call, q, s) && Enabled(s, step)
    ensures Work(ApplyStep(f, s, step)) < Work(s)
  {
    hide Map, Queue, InOrder, Counted, Tokens;
    assert s.finaliser.Live? && !s.input.closed;
  }

  lemma WorkIsNat<In, Out>(f: In -> Out, call: Fifo.Call<In>, q: seq<Out>, s: System<In, Out>)
    requires Inv(f, s) && Alone(s) && During(f, call, q, s) && s.finaliser.Live?
    ensures Work(s) >= 0
  {
    hide Map, Queue, InOrder, Counted;
  }

  /** A call never gets stuck, except a receive made on an empty queue. */
  lemma NeverStuck<In, Out>(f: In -> Out, call: Fifo.Call<In>, q: seq<Out>, s: System<In, Out>)
    returns (step: Step<In>)
    requires Inv(f, s) && Alone(s) && !s.clients[0].Ready? && During(f, call, q, s)
    requires call.CallReceive? ==> q != []
    ensures Enabled(s, step)
  {
    hide Map;
    NoPanic(f, s, 0);
    var c := s.clients[0];
    match c {
      case Pushing(rest) => step := if rest == [] then PushDone(0) else PushOne(0);
      case PushPosting(_) => step := PushPost(0);
      case Taking(_) => step := OutTake(0);
      case Counting(_, _) => step := Uncount(0);
      case Waiting(_) =>
        assert Count(PastOutputWait(), s.clients) == 0 && Count(PostingInput(), s.clients) == 0 by {
          CountZero(PastOutputWait<In, Out>(), s.clients);
          CountZero(PostingInput<In, Out>(), s.clients);
        }
        assert |Queue(f, s)| > 0;
        match s.thread {
          case InWaiting => step := if s.output.semaphore > 0 then OutWait(0) else InWait;
          case InTaking => step := InTake;
          case Applying(_) => step := ApplyFn;
          case Sending(_) => step := OutPush;
          case OutPosting => step := OutPost;
          case _ =>
            assert false;
            step := InTake;
        }
    }
  }

  /** A receive on an empty queue waits: nothing the worker does lets it through. */
  lemma ReceiveBlocksOnEmpty<In, Out>(f: In -> Out, s: System<In, Out>)
    requires Inv(f, s) && Alone(s) && s.clients[0].Waiting? && Queue(f, s) == []
    ensures !Enabled(s, OutWait(0))
  {
    assert s.output.items == [];
  }

  lemma {:induction false} CallRunKeeps<In, Out>(
    f: In -> Out, call: Fifo.Call<In>, q: seq<Out>, s: System<In, Out>, steps: seq<Step<In>>)
    requires Inv(f, s) && Alone(s) && s.finaliser.Live? && During(f, call, q, s) && CallRun(f, s, steps)
    ensures var end := CallEnd(f, s, steps);
            && Inv(f, end) && Alone(end) && end.finaliser.Live?
            && During(f, call, q, end) && |steps| <= Work(s)
    decreases |steps|
  {
    hide Inv, During, Work, Enabled, ApplyStep;
    if steps == [] {
      WorkIsNat(f, call, q, s);
    } else {
      var next := ApplyStep(f, s, steps[0]);
      StepKeepsInv(f, s, steps[0]);
      StepKeepsDuring(f, call, q, s, steps[0]);
      StepUsesWork(f, call, q, s, steps[0]);
      StaysAlone(f, s, steps[0]);
      StaysLive(f, s, steps[0]);
      CallRunKeeps(f, call, q, next, steps[1..]);
    }
  }

  lemma StaysAlone<In, Out>(f: In -> Out, s: System<In, Out>, step: Step<In>)
    requires Alone(s) && Enabled(s, step)
    ensures Alone(ApplyStep(f, s, step))
  {
  }

  /** The worker cannot be finalised while a call on it is under way. */
  lemma StaysLive<In, Out>(f: In -> Out, s: System<In, Out>, step: Step<In>)
    requires Alone(s) && !s.clients[0].Ready? && s.finaliser.Live? && Enabled(s, step)
    ensures ApplyStep(f, s, step).finaliser.Live?
  {
  }

  lemma CallStarts<In, Out>(f: In -> Out, s: System<In, Out>, call: Fifo.Call<In>)
    requires Alone(s) && s.finaliser.Live? && Enabled(s, FirstStep(call))
    ensures ApplyStep(f, s, FirstStep(call)).finaliser.Live?
  {
  }

  /** The CPU worker implements the queue.  From any reachable state in which its one client is ready,
      a call runs for a bounded number of steps of either thread, however they interleave; it cannot get
      stuck before it returns, unless it is a receive on an empty queue; and when it returns, what it
      hands back and the queue it leaves are those of the specification. */
  lemma CallRefinesFifo<In, Out>(
    f: In -> Out, s: System<In, Out>, call: Fifo.Call<In>, steps: seq<Step<In>>)
    requires Inv(f, s) && Alone(s) && s.clients[0].Ready? && s.finaliser.Live?
    requires Enabled(s, FirstStep(call))
    requires CallRun(f, ApplyStep(f, s, FirstStep(call)), steps)
    ensures var begun := ApplyStep(f, s, FirstStep(call));
            var end := CallEnd(f, begun, steps);
            && Alone(begun) && Alone(end) && Inv(f, end) && end.finaliser.Live?
            && |steps| <= Work(begun)
            && (match end.clients[0]
                case Ready(last) => Outcome(f, call, Queue(f, s), last, Queue(f, end))
                case _ => (call.CallReceive? && Queue(f, s) == []) || exists step :: Enabled(end, step))
  {
    hide Inv, During, Work, Enabled, ApplyStep, Queue, Outcome;
    var begun := ApplyStep(f, s, FirstStep(call));
    var q := Queue(f, s);
    CallBegins(f, s, call);
    StepKeepsInv(f, s, FirstStep(call));
    StaysAlone(f, s, FirstStep(call));
    CallStarts(f, s, call);
    CallRunKeeps(f, call, q, begun, steps);
    var end := CallEnd(f, begun, steps);
    DuringReady(f, call, q, end);
    if !end.clients[0].Ready? && (call.CallReceive? ==> q != []) {
      var step := NeverStuck(f, call, q, end);
    }
  }

  // ---------------------------------------------------------------- the end of a worker

  /** The output is closed by the worker's thread as it ends, if there is one, and not before. */
  ghost predicate ClosesAtEnd<In, Out>(s: System<In, Out>) {
    match s.thread
    case Closing => s.hasOutput && !s.output.closed
    case ClosePosting => s.hasOutput && s.output.closed
    case Done => s.output.closed <==> s.hasOutput
    case _ => !s.output.closed
  }

  lemma StepClosesAtEnd<In, Out>(f: In -> Out, s: System<In, Out>, step: Step<In>)
    requires ClosesAtEnd(s) && Enabled(s, step)
    ensures ClosesAtEnd(ApplyStep(f, s, step))
  {
  }

  lemma {:induction false} RunClosesAtEnd<In, Out>(f: In -> Out, s: System<In, Out>, steps: seq<Step<In>>)
    requires ClosesAtEnd(s) && IsRun(f, s, steps)
    ensures ClosesAtEnd(RunOf(f, s, steps))
    decreases |steps|
  {
    hide ClosesAtEnd, Enabled, ApplyStep;
    if steps != [] {
      StepClosesAtEnd(f, s, steps[0]);
      RunClosesAtEnd(f, ApplyStep(f, s, steps[0]), steps[1..]);
    }
  }

  /** When the worker's thread has ended, the worker has been finalised, nothing it was sent is left over, and its
      output is closed exactly if it has one. */
  lemma ThreadEnds<In, Out>(f: In -> Out, s: System<In, Out>, steps: seq<Step<In>>)
    requires Init(s) && IsRun(f, s, steps) && RunOf(f, s, steps).thread.Done?
    ensures var end := RunOf(f, s, steps);
            && !end.finaliser.Live? && end.input.closed && end.input.items == []
            && (end.output.closed <==> end.hasOutput)
            && end.received + end.output.items == Map(f, end.pushed)
  {
    InitInv(f, s);
    RunKeepsInv(f, s, steps);
    RunClosesAtEnd(f, s, steps);
    var end := RunOf(f, s, steps);
    assert Map(f, end.input.items) == [];
    assert end.received + end.output.items + [] + [] == end.received + end.output.items;
  }

  // ---------------------------------------------------------------- a client's calls, one after the other

  /** A call that returns: what the worker's thread does before it, and what both threads do inside it. */
  datatype Turn<In> = Turn(idle: seq<Step<In>>, call: Fifo.Call<In>, steps: seq<Step<In>>)

  /** The worker's thread alone; its client holds on to the worker, which so is not finalised. */
  predicate ThreadRun<In, Out>(f: In -> Out, s: System<In, Out>, steps: seq<Step<In>>)
    decreases |steps|
  {
    steps == [] ||
    (!IsClientStep(steps[0]) && !steps[0].FinalClose? && Enabled(s, steps[0]) &&
     ThreadRun(f, ApplyStep(f, s, steps[0]), steps[1..]))
  }

  function ThreadEnd<In, Out>(f: In -> Out, s: System<In, Out>, steps: seq<Step<In>>): System<In, Out>
    requires ThreadRun(f, s, steps)
    decreases |steps|
  {
    if steps == [] then s else ThreadEnd(f, ApplyStep(f, s, steps[0]), steps[1..])
  }

  predicate TurnRuns<In, Out>(f: In -> Out, s: System<In, Out>, turn: Turn<In>) {
    ThreadRun(f, s, turn.idle) &&
    var ready := ThreadEnd(f, s, turn.idle);
    && Enabled(ready, FirstStep(turn.call))
    && CallRun(f, ApplyStep(f, ready, FirstStep(turn.call)), turn.steps)
    && var end := TurnEnd(f, s, turn);
       |end.clients| == 1 && end.clients[0].Ready?
  }

  function TurnEnd<In, Out>(f: In -> Out, s: System<In, Out>, turn: Turn<In>): System<In, Out>
    requires ThreadRun(f, s, turn.idle) && Enabled(ThreadEnd(f, s, turn.idle), FirstStep(turn.call))
    requires CallRun(f, ApplyStep(f, ThreadEnd(f, s, turn.idle), FirstStep(turn.call)), turn.steps)
  {
    CallEnd(f, ApplyStep(f, ThreadEnd(f, s, turn.idle), FirstStep(turn.call)), turn.steps)
  }

  predicate Session<In, Out>(f: In -> Out, s: System<In, Out>, turns: seq<Turn<In>>)
    decreases |turns|
  {
    turns == [] || (TurnRuns(f, s, turns[0]) && Session(f, TurnEnd(f, s, turns[0]), turns[1..]))
  }

  /** Everything the calls hand back, in order, and the state they leave. */
  function SessionEnd<In, Out>(f: In -> Out, s: System<In, Out>, turns: seq<Turn<In>>): (seq<Out>, System<In, Out>)
    requires Session(f, s, turns)
    decreases |turns|
  {
    if turns == [] then ([], s)
    else
      var end := TurnEnd(f, s, turns[0]);
      var rest := SessionEnd(f, end, turns[1..]);
      (end.clients[0].last + rest.0, rest.1)
  }

  function Calls<In>(turns: seq<Turn<In>>): seq<Fifo.Call<In>> {
    if turns == [] then [] else [turns[0].call] + Calls(turns[1..])
  }

  /** Between calls: the client is ready and holds on to the worker. */
  ghost predicate Between<In, Out>(f: In -> Out, s: System<In, Out>) {
    Inv(f, s) && Alone(s) && s.clients[0].Ready? && s.finaliser.Live?
  }

  /** A ready client can begin any call, whatever the worker is doing. */
  lemma CanBegin<In, Out>(f: In -> Out, s: System<In, Out>, call: Fifo.Call<In>)
    requires Between(f, s)
    ensures Enabled(s, FirstStep(call))
  {
  }

  lemma {:induction false} ThreadRunKeeps<In, Out>(f: In -> Out, s: System<In, Out>, steps: seq<Step<In>>)
    requires Between(f, s) && ThreadRun(f, s, steps)
    ensures Between(f, ThreadEnd(f, s, steps)) && Queue(f, ThreadEnd(f, s, steps)) == Queue(f, s)
    decreases |steps|
  {
    hide Inv, Queue;
    if steps != [] {
      StepKeepsInv(f, s, steps[0]);
      ThreadStepKeepsQueue(f, s, steps[0]);
      ThreadRunKeeps(f, ApplyStep(f, s, steps[0]), steps[1..]);
    }
  }

  lemma {:induction false} TurnRefinesFifo<In, Out>(f: In -> Out, s: System<In, Out>, turn: Turn<In>)
    requires Between(f, s) && TurnRuns(f, s, turn)
    ensures var end := TurnEnd(f, s, turn);
            Between(f, end) && Outcome(f, turn.call, Queue(f, s), end.clients[0].last, Queue(f, end))
  {
    hide Inv, Queue, Work, Enabled, ApplyStep, Outcome, ThreadRun, CallRun;
    ThreadRunKeeps(f, s, turn.idle);
    CallRefinesFifo(f, ThreadEnd(f, s, turn.idle), turn.call, turn.steps);
  }

  /** Whatever a client calls, and however the threads interleave in and between its calls, the calls that return
      hand back what the queue specification hands back for them, and leave its queue. */
  lemma {:induction false} SessionRefinesFifo<In, Out>(f: In -> Out, s: System<In, Out>, turns: seq<Turn<In>>)
    requires Between(f, s) && Session(f, s, turns)
    ensures var end := SessionEnd(f, s, turns);
            && Between(f, end.1)
            && Fifo.Returns(f, Calls(turns), Queue(f, s))
            && (end.0, Queue(f, end.1)) == Fifo.Run(f, Calls(turns), Queue(f, s))
    decreases |turns|
  {
    hide Inv, Queue, TurnEnd, ThreadRun, CallRun, Enabled, ApplyStep, Map, FirstStep;
    if turns != [] {
      var end := TurnEnd(f, s, turns[0]);
      TurnRefinesFifo(f, s, turns[0]);
      SessionRefinesFifo(f, end, turns[1..]);
      assert Calls(turns)[0] == turns[0].call && Calls(turns)[1..] == Calls(turns[1..]);
      var handed := SessionEnd(f, end, turns[1..]).0;
      assert turns[0].call.CallSend? ==> end.clients[0].last + handed == handed;
    }
  }

  /** A new worker with one client starts with an empty queue. */
  lemma NewIsEmpty<In, Out>(f: In -> Out, s: System<In, Out>)
    requires Init(s) && Alone(s)
    ensures Between(f, s) && Queue(f, s) == []
  {
    InitInv(f, s);
  }

  lemma DuringReady<In, Out>(f: In -> Out, call: Fifo.Call<In>, q: seq<Out>, s: System<In, Out>)
    requires Alone(s) && During(f, call, q, s)
    ensures s.clients[0].Ready? ==> Outcome(f, call, q, s.clients[0].last, Queue(f, s))
  {
  }

  /** A drain by the only client hands back the function applied to everything sent and not received, in
      order, and leaves a count of zero: for a worker without results it is a join. */
  lemma DrainIsExact<In, Out>(f: In -> Out, s: System<In, Out>, steps: seq<Step<In>>)
    requires Inv(f, s) && Alone(s) && s.clients[0].Ready? && s.finaliser.Live?
    requires CallRun(f, ApplyStep(f, s, StartDrain(0)), steps)
    requires |CallEnd(f, ApplyStep(f, s, StartDrain(0)), steps).clients| == 1
    requires CallEnd(f, ApplyStep(f, s, StartDrain(0)), steps).clients[0].Ready?
    ensures var end := CallEnd(f, ApplyStep(f, s, StartDrain(0)), steps);
            && |s.received| <= |s.pushed|
            && end.clients[0].last == Map(f, s.pushed[|s.received|..])
            && end.underway == 0
  {
    hide During, Work, Map, Tokens, CallRun, CallEnd;
    var begun := ApplyStep(f, s, StartDrain(0));
    CallBegins(f, s, Fifo.CallDrain);
    StepKeepsInv(f, s, StartDrain(0));
    CallRunKeeps(f, Fifo.CallDrain, Queue(f, s), begun, steps);
    var end := CallEnd(f, begun, steps);
    DuringReady(f, Fifo.CallDrain, Queue(f, s), end);
    UnderwayIsQueueLength(f, end);
    assert s.received + Queue(f, s) == Map(f, s.pushed);
  }
}
