/**
  A pipeline of two CPU workers: a thread drains the first once and sends what it got to the
  second, while a client sends to the first and receives from the second.
*/
module Pipeline {
  import Pipe
  import opened CpuWorker
  import opened Fifo

  /** The pipeline's own thread. */
  datatype Mover = Fresh | Draining | Moving

  /** What the client is receiving for. */
  datatype Purpose<Out> = OneValue | DrainAll(left: int, results: seq<Out>)

  datatype User<In, Out> =
    | Idle(last: seq<Out>)
    | Counted(values: seq<In>)
    | SendingOn
    | Receiving(purpose: Purpose<Out>)

  /** In both workers thread 0 is the client and thread 1 the mover. */
  datatype System<In, Mid, Out> = System(
    lhs: CpuWorker.System<In, Mid>,
    rhs: CpuWorker.System<Mid, Out>,
    mover: Mover,
    user: User<In, Out>,
    underway: int,
    sent: seq<In>,
    got: seq<Out>)

  datatype Step<In, Mid> =
    | SendBegin(values: seq<In>)
    | SendOn
    | SendEnd
    | ReceiveBegin
    | DrainBegin
    | ReceiveEnd
    | MoverDrain
    | MoverSend
    | Lhs(lhsStep: CpuWorker.Step<In>)
    | Rhs(rhsStep: CpuWorker.Step<Mid>)

  predicate IsPushing<In>(step: CpuWorker.Step<In>) {
    step.PushOne? || step.PushPost? || step.PushDone?
  }

  predicate IsReceiving<In>(step: CpuWorker.Step<In>) {
    step.OutWait? || step.OutTake? || step.Uncount?
  }

  /** The steps one thread of a worker may take by itself once its call has begun; neither worker is
      finalised while the pipeline is in use. */
  predicate Inside<In>(step: CpuWorker.Step<In>, pusher: nat, receiver: nat) {
    if IsClientStep(step) then
      (step.client == pusher && IsPushing(step)) || (step.client == receiver && IsReceiving(step))
    else !step.FinalClose? && !step.FinalPost?
  }

  predicate Enabled<In, Mid, Out>(s: System<In, Mid, Out>, step: Step<In, Mid>) {
    |s.lhs.clients| == 2 && |s.rhs.clients| == 2 &&
    match step
    case SendBegin(_) => s.user.Idle?
    case SendOn => s.user.Counted? && CpuWorker.Enabled(s.lhs, Announce(0, s.user.values))
    case SendEnd => s.user.SendingOn? && s.lhs.clients[0].Ready?
    case ReceiveBegin => s.user.Idle? && CpuWorker.Enabled(s.rhs, StartReceive(0))
    case DrainBegin => s.user.Idle? && CpuWorker.Enabled(s.rhs, StartReceive(0))
    case ReceiveEnd =>
      s.user.Receiving? && s.rhs.clients[0].Ready? && CpuWorker.Enabled(s.rhs, StartReceive(0))
    case MoverDrain => s.mover.Fresh? && CpuWorker.Enabled(s.lhs, StartDrain(1))
    case MoverSend =>
      s.mover.Draining? && s.lhs.clients[1].Ready? &&
      CpuWorker.Enabled(s.rhs, Announce(1, s.lhs.clients[1].last))
    case Lhs(step) => Inside(step, 0, 1) && CpuWorker.Enabled(s.lhs, step)
    case Rhs(step) => Inside(step, 1, 0) && CpuWorker.Enabled(s.rhs, step)
  }

  /** Starts the next receive of a drain, or returns. */
  function NextReceive<In, Mid, Out>(s: System<In, Mid, Out>, left: int, results: seq<Out>): System<In, Mid, Out>
    requires CpuWorker.Enabled(s.rhs, StartReceive(0))
  {
    if left <= 0 then s.(user := Idle(results))
    else s.(user := Receiving(DrainAll(left, results)), rhs := ApplyClient(s.rhs, StartReceive(0)))
  }

  function Apply<In, Mid, Out>(
    f: In -> Mid, g: Mid -> Out, s: System<In, Mid, Out>, step: Step<In, Mid>): System<In, Mid, Out>
    requires Enabled(s, step)
  {
    match step
    case SendBegin(values) => s.(underway := s.underway + |values|, user := Counted(values))
    case SendOn =>
      s.(lhs := ApplyClient(s.lhs, Announce(0, s.user.values)), sent := s.sent + s.user.values, user := SendingOn)
    case SendEnd => s.(user := Idle([]))
    case ReceiveBegin => s.(rhs := ApplyClient(s.rhs, StartReceive(0)), user := Receiving(OneValue))
    case DrainBegin => NextReceive(s, s.underway, [])
    case ReceiveEnd =>
      var last := s.rhs.clients[0].last;
      var counted := s.(underway := s.underway - 1, got := s.got + last);
      (match s.user.purpose
       case OneValue => counted.(user := Idle(last))
       case DrainAll(left, results) => NextReceive(counted, left - 1, results + last))
    case MoverDrain => s.(lhs := ApplyClient(s.lhs, StartDrain(1)), mover := Draining)
    case MoverSend =>
      s.(rhs := ApplyClient(s.rhs, Announce(1, s.lhs.clients[1].last)), mover := Moving)
    case Lhs(step) => s.(lhs := ApplyStep(f, s.lhs, step))
    case Rhs(step) => s.(rhs := ApplyStep(g, s.rhs, step))
  }

  ghost predicate Init<In, Mid, Out>(s: System<In, Mid, Out>) {
    && CpuWorker.Init(s.lhs) && CpuWorker.Init(s.rhs)
    && s.lhs.clients == [Ready([]), Ready([])] && s.rhs.clients == [Ready([]), Ready([])]
    && s.mover == Fresh && s.user == Idle([]) && s.underway == 0 && s.sent == [] && s.got == []
  }

  /** Values a receiving thread has taken in its present call, given that it is inside one. */
  function Taken<In, Out>(c: Client<In, Out>): seq<Out> {
    match c
    case Ready(last) => last
    case Counting(One, value) => [value]
    case Counting(Drain(_, results), value) => results + [value]
    case Waiting(Drain(_, results)) => results
    case Taking(Drain(_, results)) => results
    case _ => []
  }

  predicate Pushes<In, Out>(c: Client<In, Out>) {
    c.Ready? || c.Pushing? || c.PushPosting?
  }

  predicate Receives<In, Out>(c: Client<In, Out>) {
    c.Ready? || c.Waiting? || c.Taking? || c.Counting?
  }

  /** The first worker: what the client sent is pushed or still to be pushed, and only the mover takes. */
  ghost predicate LhsInv<In, Mid, Out>(f: In -> Mid, s: System<In, Mid, Out>) {
    && CpuWorker.Inv(f, s.lhs) && |s.lhs.clients| == 2
    && Pushes(s.lhs.clients[0]) && Receives(s.lhs.clients[1])
    && s.sent == s.lhs.pushed + Rest(s.lhs.clients[0])
    && s.lhs.received == (if s.mover.Fresh? then [] else Taken(s.lhs.clients[1]))
    && (!s.user.SendingOn? ==> s.lhs.clients[0].Ready?)
    && (s.mover.Fresh? || s.mover.Moving? ==> s.lhs.clients[1].Ready?)
  }

  /** The second worker: the mover pushes what it drained, and only the client takes. */
  ghost predicate RhsInv<In, Mid, Out>(g: Mid -> Out, s: System<In, Mid, Out>) {
    && CpuWorker.Inv(g, s.rhs) && |s.rhs.clients| == 2
    && Receives(s.rhs.clients[0]) && Pushes(s.rhs.clients[1])
    && s.rhs.pushed + Rest(s.rhs.clients[1]) == (if s.mover.Moving? then s.lhs.received else [])
    && (!s.mover.Moving? ==> s.rhs.clients[1].Ready?)
    && s.rhs.received == s.got + (if s.user.Receiving? then Taken(s.rhs.clients[0]) else [])
    && (if s.user.Receiving? then !InDrain(s.rhs.clients[0]) else s.rhs.clients[0].Ready?)
  }

  predicate InDrain<In, Out>(c: Client<In, Out>) {
    (c.Waiting? || c.Taking? || c.Counting?) && c.job.Drain?
  }

  lemma InitInv<In, Mid, Out>(f: In -> Mid, g: Mid -> Out, s: System<In, Mid, Out>)
    requires Init(s)
    ensures LhsInv(f, s) && RhsInv(g, s)
  {
    CpuWorker.InitInv(f, s.lhs);
    CpuWorker.InitInv(g, s.rhs);
  }

  /** What a step inside a worker leaves alone: the values of its pusher's call, in order, the values its
      receiver had before the present call, and a thread that is not in a call. */
  ghost predicate StepFrame<In, Out>(
    w: CpuWorker.System<In, Out>, after: CpuWorker.System<In, Out>, pusher: nat, receiver: nat, base: seq<Out>)
    requires |w.clients| == 2 && pusher < 2 && receiver < 2
  {
    && |after.clients| == 2
    && Pushes(after.clients[pusher]) && Receives(after.clients[receiver])
    && after.pushed + Rest(after.clients[pusher]) == w.pushed + Rest(w.clients[pusher])
    && (w.clients[pusher].Ready? ==> after.clients[pusher].Ready?)
    && (w.clients[receiver].Ready? ==>
          after.clients[receiver] == w.clients[receiver] && after.received == w.received)
    && (!InDrain(w.clients[receiver]) ==> !InDrain(after.clients[receiver]))
    && (w.received == base + Taken(w.clients[receiver]) ==>
          after.received == base + Taken(after.clients[receiver]))
  }

  lemma PusherFrame<In, Out>(
    w: CpuWorker.System<In, Out>, step: CpuWorker.Step<In>, pusher: nat, receiver: nat, base: seq<Out>)
    requires |w.clients| == 2 && pusher < 2 && receiver < 2 && pusher != receiver
    requires Pushes(w.clients[pusher]) && Receives(w.clients[receiver])
    requires IsPushing(step) && step.client == pusher && ClientEnabled(w, step)
    ensures StepFrame(w, ApplyClient(w, step), pusher, receiver, base)
  {
    if step.PushOne? {
      var rest := w.clients[pusher].rest;
      assert w.pushed + [rest[0]] + rest[1..] == w.pushed + rest;
    }
  }

  lemma ReceiverFrame<In, Out>(
    w: CpuWorker.System<In, Out>, step: CpuWorker.Step<In>, pusher: nat, receiver: nat, base: seq<Out>)
    requires |w.clients| == 2 && pusher < 2 && receiver < 2 && pusher != receiver
    requires Pushes(w.clients[pusher]) && Receives(w.clients[receiver])
    requires IsReceiving(step) && step.client == receiver && ClientEnabled(w, step)
    ensures StepFrame(w, ApplyClient(w, step), pusher, receiver, base)
  {
    if step.OutTake? {
      var value := w.output.items[0];
      var taken := Taken(w.clients[receiver]);
      assert base + taken + [value] == base + (taken + [value]);
      assert [] + [value] == [value];
    }
  }

  lemma WorkerFrame<In, Out>(
    f: In -> Out, w: CpuWorker.System<In, Out>, step: CpuWorker.Step<In>, pusher: nat, receiver: nat, base: seq<Out>)
    requires |w.clients| == 2 && pusher < 2 && receiver < 2 && pusher != receiver
    requires Pushes(w.clients[pusher]) && Receives(w.clients[receiver])
    requires Inside(step, pusher, receiver) && CpuWorker.Enabled(w, step)
    ensures StepFrame(w, ApplyStep(f, w, step), pusher, receiver, base)
  {
    if IsClientStep(step) {
      hide StepFrame, ApplyClient;
      if IsPushing(step) {
        PusherFrame(w, step, pusher, receiver, base);
      } else {
        ReceiverFrame(w, step, pusher, receiver, base);
      }
    }
  }

  lemma {:induction false} LhsStepKeeps<In, Mid, Out>(
    f: In -> Mid, g: Mid -> Out, s: System<In, Mid, Out>, step: CpuWorker.Step<In>)
    requires LhsInv(f, s) && RhsInv(g, s) && Enabled(s, Lhs(step))
    ensures LhsInv(f, Apply(f, g, s, Lhs(step))) && RhsInv(g, Apply(f, g, s, Lhs(step)))
  {
    hide CpuWorker.Inv, Map, Apply, ApplyStep, CpuWorker.Enabled, Pushes, Receives, Taken, Rest, InDrain;
    CpuWorker.StepKeepsInv(f, s.lhs, step);
    NothingBefore(s.lhs.clients[1]);
    WorkerFrame(f, s.lhs, step, 0, 1, []);
    NothingBefore(ApplyStep(f, s.lhs, step).clients[1]);
    LhsOnly(f, g, s, step);
  }

  lemma NothingBefore<In, Out>(c: Client<In, Out>)
    ensures [] + Taken(c) == Taken(c)
  {
  }

  lemma LhsOnly<In, Mid, Out>(
    f: In -> Mid, g: Mid -> Out, s: System<In, Mid, Out>, step: CpuWorker.Step<In>)
    requires Enabled(s, Lhs(step))
    ensures Apply(f, g, s, Lhs(step)) == s.(lhs := ApplyStep(f, s.lhs, step))
  {
  }

  lemma {:induction false} RhsStepKeeps<In, Mid, Out>(
    f: In -> Mid, g: Mid -> Out, s: System<In, Mid, Out>, step: CpuWorker.Step<Mid>)
    requires LhsInv(f, s) && RhsInv(g, s) && Enabled(s, Rhs(step))
    ensures LhsInv(f, Apply(f, g, s, Rhs(step))) && RhsInv(g, Apply(f, g, s, Rhs(step)))
  {
    hide CpuWorker.Inv, Map, ApplyStep, CpuWorker.Enabled, Pushes, Receives, Taken, Rest;
    CpuWorker.StepKeepsInv(g, s.rhs, step);
    WorkerFrame(g, s.rhs, step, 1, 0, s.got);
  }

  lemma MoverStepKeeps<In, Mid, Out>(
    f: In -> Mid, g: Mid -> Out, s: System<In, Mid, Out>, step: Step<In, Mid>)
    requires step.MoverDrain? || step.MoverSend?
    requires LhsInv(f, s) && RhsInv(g, s) && Enabled(s, step)
    ensures LhsInv(f, Apply(f, g, s, step)) && RhsInv(g, Apply(f, g, s, step))
  {
    hide CpuWorker.Inv, Map;
    if step.MoverDrain? {
      CpuWorker.StepKeepsInv(f, s.lhs, StartDrain(1));
    } else {
      CpuWorker.StepKeepsInv(g, s.rhs, Announce(1, s.lhs.clients[1].last));
    }
  }

  lemma UserSendKeeps<In, Mid, Out>(
    f: In -> Mid, g: Mid -> Out, s: System<In, Mid, Out>, step: Step<In, Mid>)
    requires step.SendBegin? || step.SendOn? || step.SendEnd?
    requires LhsInv(f, s) && RhsInv(g, s) && Enabled(s, step)
    ensures LhsInv(f, Apply(f, g, s, step)) && RhsInv(g, Apply(f, g, s, step))
  {
    hide CpuWorker.Inv, Map;
    if step.SendOn? {
      CpuWorker.StepKeepsInv(f, s.lhs, Announce(0, s.user.values));
    }
  }

  /** Starting a receive takes nothing yet. */
  lemma StartFrame<In, Out>(w: CpuWorker.System<In, Out>, i: nat)
    requires |w.clients| == 2 && i < 2 && ClientEnabled(w, StartReceive(i))
    ensures var after := ApplyClient(w, StartReceive(i));
            && after.clients == w.clients[i := after.clients[i]] && Receives(after.clients[i])
            && Taken(after.clients[i]) == [] && !InDrain(after.clients[i]) && !after.clients[i].Ready?
            && after.pushed == w.pushed && after.received == w.received
  {
  }

  /** A system whose second worker is asked for one more value. */
  lemma StartKeeps<In, Mid, Out>(
    f: In -> Mid, g: Mid -> Out, s: System<In, Mid, Out>, purpose: Purpose<Out>)
    requires LhsInv(f, s) && RhsInv(g, s) && ClientEnabled(s.rhs, StartReceive(0)) && s.user.Idle?
    ensures var after := s.(user := Receiving(purpose), rhs := ApplyClient(s.rhs, StartReceive(0)));
            LhsInv(f, after) && RhsInv(g, after)
  {
    hide CpuWorker.Inv, Map, ApplyClient, Pushes, Receives, InDrain, Rest;
    AsClientStep(s.rhs, 0);
    CpuWorker.StepKeepsInv(g, s.rhs, StartReceive(0));
    StartFrame(s.rhs, 0);
    assert s.got + [] == s.got;
  }

  /** A value received and counted; the client is between receives. */
  lemma CountKeeps<In, Mid, Out>(
    f: In -> Mid, g: Mid -> Out, s: System<In, Mid, Out>, underway: int, last: seq<Out>)
    requires LhsInv(f, s) && RhsInv(g, s) && s.user.Receiving? && s.rhs.clients[0].Ready?
    ensures var after := s.(underway := underway, got := s.got + s.rhs.clients[0].last, user := Idle(last));
            LhsInv(f, after) && RhsInv(g, after)
  {
    hide CpuWorker.Inv, Map, Pushes, Receives, Rest;
    assert s.got + s.rhs.clients[0].last + [] == s.got + s.rhs.clients[0].last;
  }

  lemma IdleKeeps<In, Mid, Out>(
    f: In -> Mid, g: Mid -> Out, s: System<In, Mid, Out>, last: seq<Out>)
    requires LhsInv(f, s) && RhsInv(g, s) && s.user.Idle?
    ensures LhsInv(f, s.(user := Idle(last))) && RhsInv(g, s.(user := Idle(last)))
  {
    hide CpuWorker.Inv, Map, Pushes, Receives, Rest, Taken;
  }

  lemma UserReceiveKeeps<In, Mid, Out>(
    f: In -> Mid, g: Mid -> Out, s: System<In, Mid, Out>, step: Step<In, Mid>)
    requires step.ReceiveBegin? || step.DrainBegin? || step.ReceiveEnd?
    requires LhsInv(f, s) && RhsInv(g, s) && Enabled(s, step)
    ensures LhsInv(f, Apply(f, g, s, step)) && RhsInv(g, Apply(f, g, s, step))
  {
    hide LhsInv, RhsInv, ApplyClient, CpuWorker.Enabled, ClientEnabled;
    AsClientStep(s.rhs, 0);
    match step
    case ReceiveBegin => StartKeeps(f, g, s, OneValue);
    case DrainBegin =>
      if s.underway <= 0 {
        IdleKeeps(f, g, s, []);
      } else {
        StartKeeps(f, g, s, DrainAll(s.underway, []));
      }
    case ReceiveEnd =>
      var last := s.rhs.clients[0].last;
      CountKeeps(f, g, s, s.underway - 1, last);
      var counted := s.(underway := s.underway - 1, got := s.got + last, user := Idle(last));
      if s.user.purpose.DrainAll? {
        var left, results := s.user.purpose.left - 1, s.user.purpose.results + last;
        if left <= 0 {
          IdleKeeps(f, g, counted, results);
        } else {
          StartKeeps(f, g, counted, DrainAll(left, results));
        }
      }
  }

  lemma AsClientStep<In, Out>(w: CpuWorker.System<In, Out>, i: nat)
    requires CpuWorker.Enabled(w, StartReceive(i))
    ensures ClientEnabled(w, StartReceive(i))
    ensures forall g: In -> Out :: ApplyStep(g, w, StartReceive(i)) == ApplyClient(w, StartReceive(i))
  {
  }

  lemma {:induction false} StepKeepsInv<In, Mid, Out>(
    f: In -> Mid, g: Mid -> Out, s: System<In, Mid, Out>, step: Step<In, Mid>)
    requires LhsInv(f, s) && RhsInv(g, s) && Enabled(s, step)
    ensures LhsInv(f, Apply(f, g, s, step)) && RhsInv(g, Apply(f, g, s, step))
  {
    hide LhsInv, RhsInv, Apply, Enabled;
    match step
    case Lhs(inner) => LhsStepKeeps(f, g, s, inner);
    case Rhs(inner) => RhsStepKeeps(f, g, s, inner);
    case MoverDrain => MoverStepKeeps(f, g, s, step);
    case MoverSend => MoverStepKeeps(f, g, s, step);
    case SendBegin(_) => UserSendKeeps(f, g, s, step);
    case SendOn => UserSendKeeps(f, g, s, step);
    case SendEnd => UserSendKeeps(f, g, s, step);
    case _ => UserReceiveKeeps(f, g, s, step);
  }

  predicate IsRun<In, Mid, Out>(
    f: In -> Mid, g: Mid -> Out, s: System<In, Mid, Out>, steps: seq<Step<In, Mid>>)
    decreases |steps|
  {
    steps == [] || (Enabled(s, steps[0]) && IsRun(f, g, Apply(f, g, s, steps[0]), steps[1..]))
  }

  function RunOf<In, Mid, Out>(
    f: In -> Mid, g: Mid -> Out, s: System<In, Mid, Out>, steps: seq<Step<In, Mid>>): System<In, Mid, Out>
    requires IsRun(f, g, s, steps)
    decreases |steps|
  {
    if steps == [] then s else RunOf(f, g, Apply(f, g, s, steps[0]), steps[1..])
  }

  lemma {:induction false} RunKeepsInv<In, Mid, Out>(
    f: In -> Mid, g: Mid -> Out, s: System<In, Mid, Out>, steps: seq<Step<In, Mid>>)
    requires LhsInv(f, s) && RhsInv(g, s) && IsRun(f, g, s, steps)
    ensures LhsInv(f, RunOf(f, g, s, steps)) && RhsInv(g, RunOf(f, g, s, steps))
    decreases |steps|
  {
    hide LhsInv, RhsInv, Enabled, Apply;
    if steps != [] {
      StepKeepsInv(f, g, s, steps[0]);
      RunKeepsInv(f, g, Apply(f, g, s, steps[0]), steps[1..]);
    }
  }

  lemma MapPrefix<A, B>(f: A -> B, xs: seq<A>, ys: seq<A>)
    requires xs <= ys
    ensures Map(f, xs) <= Map(f, ys)
  {
  }

  /** Whatever the interleaving of the client, the mover and the two workers, what the client has
      received is a prefix of both functions applied, in turn, to what it sent. */
  lemma ClientGetsPrefix<In, Mid, Out>(
    f: In -> Mid, g: Mid -> Out, s: System<In, Mid, Out>, steps: seq<Step<In, Mid>>)
    requires Init(s) && IsRun(f, g, s, steps)
    ensures RunOf(f, g, s, steps).got <= Map(g, Map(f, RunOf(f, g, s, steps).sent))
  {
    InitInv(f, g, s);
    RunKeepsInv(f, g, s, steps);
    GotPrefix(f, g, RunOf(f, g, s, steps));
  }

  lemma ReceivedPrefix<In, Out>(f: In -> Out, s: CpuWorker.System<In, Out>)
    requires CpuWorker.Inv(f, s)
    ensures s.received <= Map(f, s.pushed)
  {
  }

  // ---------------------------------------------------------------- what a pipeline never delivers

  /** The mover's receiving end, in a drain of `n` values or after it. */
  predicate DrainOf<In, Out>(c: Client<In, Out>, n: nat) {
    match c
    case Ready(last) => |last| == n
    case Waiting(job) => JobOf(job, n)
    case Taking(job) => JobOf(job, n)
    case Counting(job, _) => JobOf(job, n)
    case _ => false
  }

  predicate JobOf<Out>(job: Job<Out>, n: nat) {
    job.Drain? && job.left > 0 && |job.results| + job.left == n
  }

  /** The mover has begun its drain, of `n` values, and the client has sent at least `sent`. */
  ghost predicate Begun<In, Mid, Out>(f: In -> Mid, g: Mid -> Out, s: System<In, Mid, Out>, sent: seq<In>) {
    LhsInv(f, s) && RhsInv(g, s) && !s.mover.Fresh? && DrainOf(s.lhs.clients[1], |sent|) && sent <= s.sent
  }

  /** All that was sent so far is what the mover's drain will count on. */
  lemma UnderwayIsSent<In, Mid, Out>(f: In -> Mid, s: System<In, Mid, Out>)
    requires LhsInv(f, s) && s.mover.Fresh? && s.lhs.clients[1].Ready?
    ensures s.lhs.underway == |s.sent|
  {
    var w := s.lhs;
    assert w.clients[..1][..0] == [] && w.clients[..1][0] == w.clients[0];
    assert Shares(w.clients[..1]) == Share(w.clients[0]);
    assert Shares(w.clients) == |Rest(w.clients[0])|;
    assert |Results(f, w)| == |w.pushed|;
  }

  lemma DrainBegins<In, Mid, Out>(f: In -> Mid, g: Mid -> Out, s: System<In, Mid, Out>)
    requires LhsInv(f, s) && RhsInv(g, s) && Enabled(s, MoverDrain)
    ensures Begun(f, g, Apply(f, g, s, MoverDrain), s.sent)
  {
    hide LhsInv, RhsInv;
    StepKeepsInv(f, g, s, MoverDrain);
    MoverReady(f, s);
    UnderwayIsSent(f, s);
  }

  lemma MoverReady<In, Mid, Out>(f: In -> Mid, s: System<In, Mid, Out>)
    requires LhsInv(f, s) && s.mover.Fresh?
    ensures |s.lhs.clients| == 2 && s.lhs.clients[1].Ready?
  {
  }

  lemma DrainGoesOn<In, Out>(f: In -> Out, w: CpuWorker.System<In, Out>, step: CpuWorker.Step<In>, n: nat)
    requires |w.clients| == 2 && Inside(step, 0, 1) && CpuWorker.Enabled(w, step) && DrainOf(w.clients[1], n)
    ensures |ApplyStep(f, w, step).clients| == 2 && DrainOf(ApplyStep(f, w, step).clients[1], n)
  {
  }

  lemma StepKeepsBegun<In, Mid, Out>(
    f: In -> Mid, g: Mid -> Out, s: System<In, Mid, Out>, sent: seq<In>, step: Step<In, Mid>)
    requires Begun(f, g, s, sent) && Enabled(s, step)
    ensures Begun(f, g, Apply(f, g, s, step), sent)
  {
    hide DrainOf, ApplyStep, CpuWorker.Inv, Map, Pushes, Receives, Rest, Taken, InDrain;
    StepKeepsInv(f, g, s, step);
    if step.Lhs? {
      hide Apply, Enabled;
      DrainGoesOn(f, s.lhs, step.lhsStep, |sent|) by { LhsEnabled(s, step.lhsStep); }
      LhsOnly(f, g, s, step.lhsStep);
    }
  }

  lemma LhsEnabled<In, Mid, Out>(s: System<In, Mid, Out>, step: CpuWorker.Step<In>)
    requires Enabled(s, Lhs(step))
    ensures |s.lhs.clients| == 2 && Inside(step, 0, 1) && CpuWorker.Enabled(s.lhs, step)
  {
  }

  lemma {:induction false} RunKeepsBegun<In, Mid, Out>(
    f: In -> Mid, g: Mid -> Out, s: System<In, Mid, Out>, sent: seq<In>, steps: seq<Step<In, Mid>>)
    requires Begun(f, g, s, sent) && IsRun(f, g, s, steps)
    ensures Begun(f, g, RunOf(f, g, s, steps), sent)
    decreases |steps|
  {
    hide Begun, Enabled, Apply;
    if steps != [] {
      StepKeepsBegun(f, g, s, sent, steps[0]);
      RunKeepsBegun(f, g, Apply(f, g, s, steps[0]), sent, steps[1..]);
    }
  }

  /** The mover drains once.  Whatever is sent after it begins is never delivered: for ever after, the client has
      a prefix of both functions over what it had sent by then, and what the mover passes on is exactly the first
      function over that. */
  lemma {:induction false} LaterSendsAreLost<In, Mid, Out>(
    f: In -> Mid, g: Mid -> Out, s: System<In, Mid, Out>, before: seq<Step<In, Mid>>, steps: seq<Step<In, Mid>>)
    requires Init(s) && IsRun(f, g, s, before) && Enabled(RunOf(f, g, s, before), MoverDrain)
    requires IsRun(f, g, Apply(f, g, RunOf(f, g, s, before), MoverDrain), steps)
    ensures var sent := RunOf(f, g, s, before).sent;
            var end := RunOf(f, g, Apply(f, g, RunOf(f, g, s, before), MoverDrain), steps);
            && end.got <= Map(g, Map(f, sent))
            && |end.rhs.clients| == 2
            && (end.mover.Moving? ==> end.rhs.pushed + Rest(end.rhs.clients[1]) == Map(f, sent))
  {
    var middle := RunOf(f, g, s, before);
    var begun := Apply(f, g, middle, MoverDrain);
    InitInv(f, g, s);
    RunKeepsInv(f, g, s, before);
    DrainBegins(f, g, middle);
    RunKeepsBegun(f, g, begun, middle.sent, steps);
    DeliversOnly(f, g, RunOf(f, g, begun, steps), middle.sent);
  }

  /** The input: the mover may look before anything is sent, and then nothing ever arrives. */
  lemma {:induction false} EarlyDrainLosesAll<In, Mid, Out>(
    f: In -> Mid, g: Mid -> Out, s: System<In, Mid, Out>, steps: seq<Step<In, Mid>>)
    requires Init(s)
    ensures Enabled(s, MoverDrain)
    ensures IsRun(f, g, Apply(f, g, s, MoverDrain), steps) ==>
              RunOf(f, g, Apply(f, g, s, MoverDrain), steps).got == []
  {
    hide Init, Apply, Map;
    MoverMayStart(s);
    if IsRun(f, g, Apply(f, g, s, MoverDrain), steps) {
      assert IsRun(f, g, s, []) && RunOf(f, g, s, []) == s;
      LaterSendsAreLost(f, g, s, [], steps);
    }
  }

  lemma MoverMayStart<In, Mid, Out>(s: System<In, Mid, Out>)
    requires Init(s)
    ensures Enabled(s, MoverDrain) && s.sent == []
  {
  }

  lemma DeliversOnly<In, Mid, Out>(f: In -> Mid, g: Mid -> Out, s: System<In, Mid, Out>, sent: seq<In>)
    requires Begun(f, g, s, sent)
    ensures s.got <= Map(g, Map(f, sent)) && |s.rhs.clients| == 2
    ensures s.mover.Moving? ==> s.rhs.pushed + Rest(s.rhs.clients[1]) == Map(f, sent)
  {
    hide CpuWorker.Inv;
    ReceivedPrefix(f, s.lhs);
    ReceivedPrefix(g, s.rhs);
    assert |s.lhs.received| <= |sent|;
    assert s.lhs.pushed <= s.sent;
    MapPrefix(f, s.lhs.pushed, s.sent);
    MapPrefix(f, sent, s.sent);
    assert s.lhs.received <= Map(f, sent);
    assert s.rhs.pushed <= s.lhs.received;
    MapPrefix(g, s.rhs.pushed, Map(f, sent));
  }

  // ---------------------------------------------------------------- what a call hands back

  /** The client's end of the second worker receives one value at a time. */
  predicate OneEnd<In, Out>(c: Client<In, Out>) {
    match c
    case Ready(last) => |last| == 1
    case Waiting(job) => job.One?
    case Taking(job) => job.One?
    case Counting(job, _) => job.One?
    case _ => false
  }

  /** The count is what was announced and not received; and a receive is of one value. */
  ghost predicate Owing<In, Mid, Out>(s: System<In, Mid, Out>) {
    && s.underway == |s.sent| + (if s.user.Counted? then |s.user.values| else 0) - |s.got|
    && (s.user.Receiving? ==> |s.rhs.clients| == 2 && OneEnd(s.rhs.clients[0]))
  }

  /** How far a call has got that found `got` received and hands back `n` values. */
  ghost predicate Handing<In, Mid, Out>(s: System<In, Mid, Out>, got: seq<Out>, n: int) {
    match s.user
    case Idle(last) => |last| == n && s.got == got + last
    case Receiving(OneValue) => n == 1 && s.got == got
    case Receiving(DrainAll(left, results)) => left > 0 && |results| + left == n && s.got == got + results
    case _ => n == 0 && s.got == got
  }

  lemma OneGoesOn<In, Out>(g: In -> Out, w: CpuWorker.System<In, Out>, step: CpuWorker.Step<In>)
    requires |w.clients| == 2 && Inside(step, 1, 0) && CpuWorker.Enabled(w, step) && OneEnd(w.clients[0])
    ensures |ApplyStep(g, w, step).clients| == 2 && OneEnd(ApplyStep(g, w, step).clients[0])
  {
  }

  lemma StartsWithOne<In, Out>(w: CpuWorker.System<In, Out>)
    requires |w.clients| == 2 && CpuWorker.Enabled(w, StartReceive(0))
    ensures |ApplyClient(w, StartReceive(0)).clients| == 2 && OneEnd(ApplyClient(w, StartReceive(0)).clients[0])
  {
  }

  lemma MoverSendsAlone<In, Mid, Out>(f: In -> Mid, g: Mid -> Out, s: System<In, Mid, Out>)
    requires Enabled(s, MoverSend)
    ensures var after := Apply(f, g, s, MoverSend);
            |after.rhs.clients| == 2 && after.rhs.clients[0] == s.rhs.clients[0]
  {
  }

  lemma StepKeepsOwing<In, Mid, Out>(
    f: In -> Mid, g: Mid -> Out, s: System<In, Mid, Out>, step: Step<In, Mid>)
    requires Owing(s) && Enabled(s, step)
    ensures Owing(Apply(f, g, s, step))
  {
    hide OneEnd, ApplyClient, ApplyStep, CpuWorker.Enabled;
    match step
    case Rhs(inner) =>
      if s.user.Receiving? {
        OneGoesOn(g, s.rhs, inner);
      }
    case MoverSend => MoverSendsAlone(f, g, s);
    case ReceiveBegin => StartsWithOne(s.rhs);
    case DrainBegin => StartsWithOne(s.rhs);
    case ReceiveEnd =>
      StartsWithOne(s.rhs);
      OneLast(s.rhs.clients[0]);
    case _ =>
  }

  lemma OneLast<In, Out>(c: Client<In, Out>)
    requires OneEnd(c) && c.Ready?
    ensures |c.last| == 1
  {
  }

  lemma {:induction false} RunKeepsOwing<In, Mid, Out>(
    f: In -> Mid, g: Mid -> Out, s: System<In, Mid, Out>, steps: seq<Step<In, Mid>>)
    requires Owing(s) && IsRun(f, g, s, steps)
    ensures Owing(RunOf(f, g, s, steps))
    decreases |steps|
  {
    hide Owing, Enabled, Apply;
    if steps != [] {
      StepKeepsOwing(f, g, s, steps[0]);
      RunKeepsOwing(f, g, Apply(f, g, s, steps[0]), steps[1..]);
    }
  }

  /** A run all of whose steps are taken while the client is inside a call. */
  predicate CallRun<In, Mid, Out>(
    f: In -> Mid, g: Mid -> Out, s: System<In, Mid, Out>, steps: seq<Step<In, Mid>>)
    decreases |steps|
  {
    steps == [] ||
    (!s.user.Idle? && Enabled(s, steps[0]) && CallRun(f, g, Apply(f, g, s, steps[0]), steps[1..]))
  }

  lemma {:induction false} CallIsRun<In, Mid, Out>(
    f: In -> Mid, g: Mid -> Out, s: System<In, Mid, Out>, steps: seq<Step<In, Mid>>)
    requires CallRun(f, g, s, steps)
    ensures IsRun(f, g, s, steps)
    decreases |steps|
  {
    if steps != [] {
      CallIsRun(f, g, Apply(f, g, s, steps[0]), steps[1..]);
    }
  }

  lemma StepKeepsHanding<In, Mid, Out>(
    f: In -> Mid, g: Mid -> Out, s: System<In, Mid, Out>, got: seq<Out>, n: int, step: Step<In, Mid>)
    requires Owing(s) && Handing(s, got, n) && !s.user.Idle? && Enabled(s, step)
    ensures Handing(Apply(f, g, s, step), got, n)
    ensures step.SendOn? || Apply(f, g, s, step).sent == s.sent
  {
    hide OneEnd, ApplyClient, ApplyStep, CpuWorker.Enabled;
    if step.ReceiveEnd? {
      OneLast(s.rhs.clients[0]);
      var last := s.rhs.clients[0].last;
      if s.user.purpose.DrainAll? {
        assert got + s.user.purpose.results + last == got + (s.user.purpose.results + last);
      }
    } else if step.SendEnd? {
      assert got + [] == got;
    }
  }

  lemma {:induction false} CallKeepsHanding<In, Mid, Out>(
    f: In -> Mid, g: Mid -> Out, s: System<In, Mid, Out>, got: seq<Out>, n: int, steps: seq<Step<In, Mid>>)
    requires Owing(s) && Handing(s, got, n) && CallRun(f, g, s, steps)
    ensures IsRun(f, g, s, steps) && Handing(RunOf(f, g, s, steps), got, n)
    ensures s.user.Receiving? || s.user.Idle? ==> RunOf(f, g, s, steps).sent == s.sent
    decreases |steps|
  {
    hide Owing, Handing, Enabled, Apply;
    if steps != [] {
      StepKeepsOwing(f, g, s, steps[0]);
      StepKeepsHanding(f, g, s, got, n, steps[0]);
      StaysReceiving(f, g, s, steps[0]);
      CallKeepsHanding(f, g, Apply(f, g, s, steps[0]), got, n, steps[1..]);
    }
  }

  lemma StaysReceiving<In, Mid, Out>(
    f: In -> Mid, g: Mid -> Out, s: System<In, Mid, Out>, step: Step<In, Mid>)
    requires Enabled(s, step)
    ensures s.user.Receiving? ==> var after := Apply(f, g, s, step);
                                  (after.user.Receiving? || after.user.Idle?) && !step.SendOn?
  {
  }

  lemma StartOwes<In, Mid, Out>(s: System<In, Mid, Out>)
    requires Init(s)
    ensures Owing(s)
  {
  }

  /** A receive hands back the one value that was received since it began. */
  lemma {:induction false} ReceiveHandsBack<In, Mid, Out>(
    f: In -> Mid, g: Mid -> Out, s: System<In, Mid, Out>, before: seq<Step<In, Mid>>, steps: seq<Step<In, Mid>>)
    requires Init(s) && IsRun(f, g, s, before) && Enabled(RunOf(f, g, s, before), ReceiveBegin)
    requires CallRun(f, g, Apply(f, g, RunOf(f, g, s, before), ReceiveBegin), steps)
    ensures IsRun(f, g, Apply(f, g, RunOf(f, g, s, before), ReceiveBegin), steps)
    ensures var begin := RunOf(f, g, s, before);
            var end := RunOf(f, g, Apply(f, g, begin, ReceiveBegin), steps);
            end.user.Idle? ==> |end.user.last| == 1 && end.got == begin.got + end.user.last
  {
    var begin := RunOf(f, g, s, before);
    StartOwes(s);
    RunKeepsOwing(f, g, s, before);
    StepKeepsOwing(f, g, begin, ReceiveBegin);
    CallKeepsHanding(f, g, Apply(f, g, begin, ReceiveBegin), begin.got, 1, steps);
  }

  /** A drain hands back, in order, exactly what both functions make of all that was sent and not received. */
  lemma {:induction false} DrainHandsBack<In, Mid, Out>(
    f: In -> Mid, g: Mid -> Out, s: System<In, Mid, Out>, before: seq<Step<In, Mid>>, steps: seq<Step<In, Mid>>)
    requires Init(s) && IsRun(f, g, s, before) && Enabled(RunOf(f, g, s, before), DrainBegin)
    requires CallRun(f, g, Apply(f, g, RunOf(f, g, s, before), DrainBegin), steps)
    ensures IsRun(f, g, Apply(f, g, RunOf(f, g, s, before), DrainBegin), steps)
    ensures var begin := RunOf(f, g, s, before);
            var end := RunOf(f, g, Apply(f, g, begin, DrainBegin), steps);
            && |begin.got| <= |begin.sent|
            && (end.user.Idle? ==>
                  end.got == begin.got + end.user.last && end.user.last == Map(g, Map(f, begin.sent))[|begin.got|..])
  {
    hide Map, Enabled, Handing, Owing, Apply, Init, IsRun, RunOf, CallRun, LhsInv, RhsInv;
    var begin := RunOf(f, g, s, before);
    var begun := Apply(f, g, begin, DrainBegin);
    StartOwes(s);
    RunKeepsOwing(f, g, s, before);
    StepKeepsOwing(f, g, begin, DrainBegin);
    ClientGetsPrefix(f, g, s, before);
    DrainStarts(f, g, begin);
    CallKeepsHanding(f, g, begun, begin.got, |begin.sent| - |begin.got|, steps);
    var end := RunOf(f, g, begun, steps);
    InitInv(f, g, s);
    RunKeepsInv(f, g, s, before);
    StepKeepsInv(f, g, begin, DrainBegin);
    RunKeepsInv(f, g, begun, steps);
    GotPrefix(f, g, end);
    HandedAll(f, g, end, begin.got, |begin.sent| - |begin.got|);
  }

  lemma DrainStarts<In, Mid, Out>(f: In -> Mid, g: Mid -> Out, s: System<In, Mid, Out>)
    requires Owing(s) && Enabled(s, DrainBegin) && |s.got| <= |s.sent|
    ensures var begun := Apply(f, g, s, DrainBegin);
            && Handing(begun, s.got, |s.sent| - |s.got|) && begun.sent == s.sent
            && (begun.user.Receiving? || begun.user.Idle?)
  {
    assert s.got + [] == s.got;
  }

  lemma HandedAll<In, Mid, Out>(f: In -> Mid, g: Mid -> Out, s: System<In, Mid, Out>, got: seq<Out>, n: int)
    requires Handing(s, got, n) && |got| + n == |s.sent| && s.got <= Map(g, Map(f, s.sent))
    ensures s.user.Idle? ==> s.got == got + s.user.last && s.user.last == Map(g, Map(f, s.sent))[|got|..]
  {
    hide Map;
  }

  lemma GotPrefix<In, Mid, Out>(f: In -> Mid, g: Mid -> Out, s: System<In, Mid, Out>)
    requires LhsInv(f, s) && RhsInv(g, s)
    ensures s.got <= Map(g, Map(f, s.sent))
  {
    ReceivedPrefix(f, s.lhs);
    ReceivedPrefix(g, s.rhs);
    assert s.lhs.pushed <= s.sent;
    assert s.rhs.pushed <= s.lhs.received;
    MapPrefix(f, s.lhs.pushed, s.sent);
    MapPrefix(g, s.rhs.pushed, s.lhs.received);
    MapPrefix(g, s.lhs.received, Map(f, s.sent));
  }

  // ---------------------------------------------------------------- a call goes on until nothing is left

  /** Neither worker is finalised while the pipeline is in use. */
  ghost predicate Alive<In, Mid, Out>(s: System<In, Mid, Out>) {
    s.lhs.finaliser.Live? && s.rhs.finaliser.Live?
  }

  lemma StepKeepsAlive<In, Mid, Out>(
    f: In -> Mid, g: Mid -> Out, s: System<In, Mid, Out>, step: Step<In, Mid>)
    requires Alive(s) && Enabled(s, step)
    ensures Alive(Apply(f, g, s, step))
  {
  }

  lemma {:induction false} RunKeepsAlive<In, Mid, Out>(
    f: In -> Mid, g: Mid -> Out, s: System<In, Mid, Out>, steps: seq<Step<In, Mid>>)
    requires Alive(s) && IsRun(f, g, s, steps)
    ensures Alive(RunOf(f, g, s, steps))
    decreases |steps|
  {
    hide Enabled, Apply;
    if steps != [] {
      StepKeepsAlive(f, g, s, steps[0]);
      RunKeepsAlive(f, g, Apply(f, g, s, steps[0]), steps[1..]);
    }
  }

  /** A worker with nothing in it and nothing on its way into it. */
  ghost predicate Empty<In, Out>(w: CpuWorker.System<In, Out>, pusher: nat) {
    && pusher < |w.clients| && w.clients[pusher].Ready? && w.thread.InWaiting?
    && w.input.items == [] && w.output.items == []
  }

  /** While one client receives from a worker, something in it can move, or nothing is left in it. */
  lemma WorkerMoves<In, Out>(f: In -> Out, w: CpuWorker.System<In, Out>, pusher: nat, receiver: nat)
    returns (step: CpuWorker.Step<In>)
    requires CpuWorker.Inv(f, w) && |w.clients| == 2 && w.finaliser.Live?
    requires pusher < 2 && receiver < 2 && pusher != receiver
    requires Pushes(w.clients[pusher]) && Receives(w.clients[receiver]) && !w.clients[receiver].Ready?
    ensures (Inside(step, pusher, receiver) && CpuWorker.Enabled(w, step))
         || (Empty(w, pusher) && w.clients[receiver].Waiting?)
  {
    hide Map, InOrder, CpuWorker.Counted;
    var c, p := w.clients[receiver], w.clients[pusher];
    NoPanic(f, w, receiver);
    TwoCounts(w);
    step := InWait;
    match c {
      case Taking(_) => step := OutTake(receiver);
      case Counting(_, _) => step := Uncount(receiver);
      case Waiting(_) =>
        if w.output.semaphore > 0 {
          step := OutWait(receiver);
        } else {
          match w.thread {
            case InTaking => step := InTake;
            case Applying(_) => step := ApplyFn;
            case Sending(_) => step := OutPush;
            case OutPosting => step := OutPost;
            case InWaiting =>
              match p {
                case PushPosting(_) => step := PushPost(pusher);
                case Pushing(rest) => step := if rest == [] then PushDone(pusher) else PushOne(pusher);
                case _ =>
              }
            case _ => assert false;
          }
        }
    }
  }

  lemma TwoCounts<In, Out>(w: CpuWorker.System<In, Out>)
    requires |w.clients| == 2
    ensures Pipe.Count(PostingInput(), w.clients)
         == (if w.clients[0].PushPosting? then 1 else 0) + (if w.clients[1].PushPosting? then 1 else 0)
    ensures Pipe.Count(PastOutputWait(), w.clients)
         == (if w.clients[0].Taking? then 1 else 0) + (if w.clients[1].Taking? then 1 else 0)
  {
    assert w.clients[..1][..0] == [] && w.clients[..1][0] == w.clients[0];
  }

  /** The client has all that will ever come: both functions over what was sent when the drain began. */
  ghost predicate Exhausted<In, Mid, Out>(f: In -> Mid, g: Mid -> Out, s: System<In, Mid, Out>, sent: seq<In>) {
    s.user.Receiving? && s.mover.Moving? && s.got == Map(g, Map(f, sent))
  }

  ghost predicate ExhaustedAt<In, Mid, Out>(f: In -> Mid, g: Mid -> Out, s: System<In, Mid, Out>, n: nat)
    requires n <= |s.sent|
  {
    Exhausted(f, g, s, s.sent[..n])
  }

  /** While a call is under way some step is enabled, unless it waits for more than will ever come. */
  lemma CallGoesOn<In, Mid, Out>(f: In -> Mid, g: Mid -> Out, s: System<In, Mid, Out>, sent: seq<In>)
    returns (step: Step<In, Mid>)
    requires LhsInv(f, s) && RhsInv(g, s) && Owing(s) && Alive(s) && !s.user.Idle?
    requires s.mover.Fresh? || Begun(f, g, s, sent)
    ensures Enabled(s, step) || Exhausted(f, g, s, sent)
  {
    hide Map;
    step := SendOn;
    match s.user {
      case Counted(_) =>
      case SendingOn =>
        var c := s.lhs.clients[0];
        step := if c.Ready? then SendEnd
                else if c.PushPosting? then Lhs(PushPost(0))
                else if c.rest == [] then Lhs(PushDone(0)) else Lhs(PushOne(0));
      case Receiving(_) =>
        if s.rhs.clients[0].Ready? {
          step := ReceiveEnd;
        } else {
          var inner := WorkerMoves(g, s.rhs, 1, 0);
          if Inside(inner, 1, 0) && CpuWorker.Enabled(s.rhs, inner) {
            step := Rhs(inner);
          } else {
            step := MoverGoesOn(f, g, s, sent);
          }
        }
    }
  }

  /** With nothing left in the second worker. */
  lemma MoverGoesOn<In, Mid, Out>(f: In -> Mid, g: Mid -> Out, s: System<In, Mid, Out>, sent: seq<In>)
    returns (step: Step<In, Mid>)
    requires LhsInv(f, s) && RhsInv(g, s) && Owing(s) && Alive(s) && s.user.Receiving?
    requires Empty(s.rhs, 1) && s.rhs.clients[0].Waiting?
    requires s.mover.Fresh? || Begun(f, g, s, sent)
    ensures Enabled(s, step) || Exhausted(f, g, s, sent)
  {
    step := MoverDrain;
    if s.mover.Draining? {
      if s.lhs.clients[1].Ready? {
        step := MoverSend;
      } else {
        var inner := WorkerMoves(f, s.lhs, 0, 1);
        step := Lhs(inner);
        NothingOwed(f, g, s, sent);
      }
    } else if s.mover.Moving? {
      AllDelivered(f, g, s, sent);
    }
  }

  /** The drain does not wait for more than was sent. */
  lemma NothingOwed<In, Mid, Out>(f: In -> Mid, g: Mid -> Out, s: System<In, Mid, Out>, sent: seq<In>)
    requires Begun(f, g, s, sent)
    ensures !(Empty(s.lhs, 0) && s.lhs.clients[1].Waiting?)
  {
    assert |Results(f, s.lhs)| == |s.lhs.pushed|;
  }

  lemma AllDelivered<In, Mid, Out>(f: In -> Mid, g: Mid -> Out, s: System<In, Mid, Out>, sent: seq<In>)
    requires Begun(f, g, s, sent) && Owing(s) && s.user.Receiving? && s.mover.Moving?
    requires Empty(s.rhs, 1) && s.rhs.clients[0].Waiting?
    ensures s.got == Map(g, Map(f, sent))
  {
    DeliversOnly(f, g, s, sent);
    assert |Results(g, s.rhs)| == |s.rhs.pushed|;
  }

  ghost predicate FreshOrBegun<In, Mid, Out>(f: In -> Mid, g: Mid -> Out, s: System<In, Mid, Out>) {
    LhsInv(f, s) && RhsInv(g, s) && (s.mover.Fresh? || exists n: nat :: n <= |s.sent| && BegunAt(f, g, s, n))
  }

  /** The drain began when the client had sent `n` values. */
  ghost predicate BegunAt<In, Mid, Out>(f: In -> Mid, g: Mid -> Out, s: System<In, Mid, Out>, n: nat)
    requires n <= |s.sent|
  {
    Begun(f, g, s, s.sent[..n])
  }

  lemma StepKeepsMover<In, Mid, Out>(
    f: In -> Mid, g: Mid -> Out, s: System<In, Mid, Out>, step: Step<In, Mid>)
    requires FreshOrBegun(f, g, s) && Enabled(s, step)
    ensures FreshOrBegun(f, g, Apply(f, g, s, step))
  {
    hide LhsInv, RhsInv, Begun;
    StepKeepsInv(f, g, s, step);
    if step.MoverDrain? {
      DrainBegins(f, g, s);
      BegunSent(f, g, Apply(f, g, s, step), s.sent);
    } else if s.mover.Fresh? {
      StaysFresh(f, g, s, step);
    } else {
      var n: nat :| n <= |s.sent| && BegunAt(f, g, s, n);
      StepKeepsBegun(f, g, s, s.sent[..n], step);
      BegunSent(f, g, Apply(f, g, s, step), s.sent[..n]);
    }
  }

  lemma StaysFresh<In, Mid, Out>(
    f: In -> Mid, g: Mid -> Out, s: System<In, Mid, Out>, step: Step<In, Mid>)
    requires s.mover.Fresh? && Enabled(s, step) && !step.MoverDrain?
    ensures Apply(f, g, s, step).mover.Fresh?
  {
  }

  lemma {:induction false} RunKeepsMover<In, Mid, Out>(
    f: In -> Mid, g: Mid -> Out, s: System<In, Mid, Out>, steps: seq<Step<In, Mid>>)
    requires FreshOrBegun(f, g, s) && IsRun(f, g, s, steps)
    ensures FreshOrBegun(f, g, RunOf(f, g, s, steps))
    decreases |steps|
  {
    hide FreshOrBegun, Enabled, Apply;
    if steps != [] {
      StepKeepsMover(f, g, s, steps[0]);
      RunKeepsMover(f, g, Apply(f, g, s, steps[0]), steps[1..]);
    }
  }

  /** In every reachable state: a client that is in no call can begin any, and while it is in one some step is
      enabled, unless it waits for more than the drain found: it has received both functions over all that was sent
      by some moment, and is in a receive. */
  lemma {:induction false} CallsGoOn<In, Mid, Out>(
    f: In -> Mid, g: Mid -> Out, s: System<In, Mid, Out>, steps: seq<Step<In, Mid>>) returns (step: Step<In, Mid>)
    requires Init(s) && IsRun(f, g, s, steps)
    ensures var now := RunOf(f, g, s, steps);
            if now.user.Idle?
            then Enabled(now, ReceiveBegin) && Enabled(now, DrainBegin)
                 && forall values :: Enabled(now, SendBegin(values))
            else Enabled(now, step) || exists n: nat :: n <= |now.sent| && ExhaustedAt(f, g, now, n)
  {
    hide LhsInv, RhsInv, Owing, Begun, Exhausted, Init, Apply, IsRun, RunOf;
    var now := RunOf(f, g, s, steps);
    InitInv(f, g, s);
    StartOwes(s);
    StartsAlive(s);
    RunKeepsMover(f, g, s, steps);
    RunKeepsOwing(f, g, s, steps);
    RunKeepsAlive(f, g, s, steps);
    step := SendEnd;
    if now.user.Idle? {
      IdleCanBegin(f, g, now);
    } else if now.mover.Fresh? {
      step := CallGoesOn(f, g, now, []);
      FreshIsNotExhausted(f, g, now);
    } else {
      var n: nat :| n <= |now.sent| && BegunAt(f, g, now, n);
      step := CallGoesOn(f, g, now, now.sent[..n]);
      assert !Enabled(now, step) ==> ExhaustedAt(f, g, now, n);
    }
  }

  lemma StartsAlive<In, Mid, Out>(s: System<In, Mid, Out>)
    requires Init(s)
    ensures Alive(s) && s.mover.Fresh?
  {
  }

  lemma IdleCanBegin<In, Mid, Out>(f: In -> Mid, g: Mid -> Out, s: System<In, Mid, Out>)
    requires LhsInv(f, s) && RhsInv(g, s) && Alive(s) && s.user.Idle?
    ensures Enabled(s, ReceiveBegin) && Enabled(s, DrainBegin) && forall values :: Enabled(s, SendBegin(values))
  {
  }

  lemma FreshIsNotExhausted<In, Mid, Out>(f: In -> Mid, g: Mid -> Out, s: System<In, Mid, Out>)
    requires s.mover.Fresh?
    ensures !Exhausted(f, g, s, [])
  {
  }

  lemma BegunSent<In, Mid, Out>(f: In -> Mid, g: Mid -> Out, s: System<In, Mid, Out>, sent: seq<In>)
    requires Begun(f, g, s, sent)
    ensures sent <= s.sent && BegunAt(f, g, s, |sent|)
  {
    assert s.sent[..|sent|] == sent;
  }
}
