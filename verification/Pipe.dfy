/**
  The runtime's pipe: a growing buffer guarded by a mutex, and a semaphore that counts what
  may be taken.  Sending and closing are a locked section followed by a post; receiving is a
  wait followed by a locked section.  Threads may interleave between the two halves.
*/
module Pipe {
  import opened Wrappers

  /** What threads see of a pipe between atomic steps. */
  datatype State<T> = State(items: seq<T>, closed: bool, semaphore: nat)

  /** The locked half of a send; on a closed pipe the runtime panics. */
  function Pushed<T>(p: State<T>, value: T): State<T>
    requires !p.closed
  {
    p.(items := p.items + [value])
  }

  function Posted<T>(p: State<T>): State<T> {
    p.(semaphore := p.semaphore + 1)
  }

  /** A wait blocks while the semaphore is zero. */
  function Waited<T>(p: State<T>): State<T>
    requires p.semaphore > 0
  {
    p.(semaphore := p.semaphore - 1)
  }

  /** The locked half of a receive: the oldest item, or nothing once closed and empty. */
  function Taken<T>(p: State<T>): (State<T>, Option<T>)
    requires p.items != [] || p.closed
  {
    if p.closed && p.items == [] then (p, None)
    else (p.(items := p.items[1..]), Some(p.items[0]))
  }

  /** The locked half of a close. */
  function Closed<T>(p: State<T>): State<T> {
    p.(closed := true)
  }

  // ---------------------------------------------------------------- the buffer

  /** The pipe as the runtime stores it.  Each method is one locked section or one semaphore call. */
  class Buffer<T(0)> {
    var closed: bool
    var semaphore: nat
    var usedSize: nat
    var values: array<T>

    ghost predicate Valid()
      reads this
    {
      usedSize <= values.Length
    }

    ghost function Abstract(): State<T>
      requires Valid()
      reads this, values
    {
      State(values[..usedSize], closed, semaphore)
    }

    constructor ()
      ensures Valid() && fresh(values) && Abstract() == State([], false, 0)
    {
      closed, semaphore, usedSize := false, 0, 0;
      values := new T[3];
    }

    /** `panicked` is true where the runtime panics; the pipe is then unchanged. */
    method Push(value: T) returns (panicked: bool)
      requires Valid()
      modifies this`usedSize, this`values, values
      ensures Valid() && (values == old(values) || fresh(values))
      ensures panicked <==> old(closed)
      ensures Abstract() == if panicked then old(Abstract()) else Pushed(old(Abstract()), value)
    {
      if closed {
        return true;
      }
      if usedSize == values.Length {
        Grow();
      }
      values[usedSize] := value;
      usedSize := usedSize + 1;
      panicked := false;
    }

    /** Reallocates with room for one more. */
    method Grow()
      requires Valid()
      modifies this`values
      ensures Valid() && fresh(values) && values.Length == old(values.Length) + 1
      ensures Abstract() == old(Abstract())
    {
      var grown := new T[values.Length + 1];
      var i := 0;
      while i < values.Length
        invariant 0 <= i <= values.Length < grown.Length && values == old(values)
        invariant usedSize == old(usedSize) <= values.Length
        invariant grown[..i] == values[..i]
      {
        grown[i] := values[i];
        i := i + 1;
      }
      assert grown[..usedSize] == values[..usedSize];
      values := grown;
    }

    method Take() returns (value: Option<T>)
      requires Valid() && (usedSize > 0 || closed)
      modifies this`usedSize, values
      ensures Valid()
      ensures (Abstract(), value) == Taken(old(Abstract()))
    {
      if closed && usedSize == 0 {
        return None;
      }
      value := Some(values[0]);
      usedSize := usedSize - 1;
      ghost var was := old(values[..usedSize]);
      var i := 0;
      while i < usedSize
        invariant 0 <= i <= usedSize == |was| - 1 < values.Length
        invariant forall k :: 0 <= k < i ==> values[k] == was[k + 1]
        invariant forall k :: i < k <= usedSize ==> values[k] == was[k]
      {
        values[i] := values[i + 1];
        i := i + 1;
      }
      assert forall k :: 0 <= k < usedSize ==> values[..usedSize][k] == was[1..][k];
      assert Abstract().items == was[1..] && old(Abstract()).items == was;
    }

    method Close()
      requires Valid()
      modifies this`closed
      ensures Valid() && Abstract() == Closed(old(Abstract()))
    {
      closed := true;
    }

    method Post()
      requires Valid()
      modifies this`semaphore
      ensures Valid() && Abstract() == Posted(old(Abstract()))
    {
      semaphore := semaphore + 1;
    }

    method Wait()
      requires Valid() && semaphore > 0
      modifies this`semaphore
      ensures Valid() && Abstract() == Waited(old(Abstract()))
    {
      semaphore := semaphore - 1;
    }
  }

  // ---------------------------------------------------------------- counting threads

  /** How many of the elements satisfy `p`. */
  function Count<T>(p: T -> bool, xs: seq<T>): (n: nat)
    ensures n <= |xs|
  {
    if xs == [] then 0 else Count(p, xs[..|xs| - 1]) + (if p(xs[|xs| - 1]) then 1 else 0)
  }

  lemma {:induction false} CountUpdate<T>(p: T -> bool, xs: seq<T>, i: nat, x: T)
    requires i < |xs|
    ensures Count(p, xs[i := x]) == Count(p, xs) - (if p(xs[i]) then 1 else 0) + (if p(x) then 1 else 0)
    ensures p(xs[i]) ==> Count(p, xs) > 0
  {
    var n := |xs| - 1;
    if i == n {
      assert xs[i := x][..n] == xs[..n];
    } else {
      CountUpdate(p, xs[..n], i, x);
      assert xs[i := x][..n] == xs[..n][i := x];
    }
  }

  lemma {:induction false} CountZero<T>(p: T -> bool, xs: seq<T>)
    requires forall i :: 0 <= i < |xs| ==> !p(xs[i])
    ensures Count(p, xs) == 0
  {
    if xs != [] {
      CountZero(p, xs[..|xs| - 1]);
    }
  }

  // ---------------------------------------------------------------- any number of threads

  /** Where a thread is: outside, between the halves of a send or close, or past a wait. */
  datatype Thread = Outside | Posting | PastWait

  /** The pipe, its threads and what has happened so far. */
  datatype System<T> = System(
    pipe: State<T>,
    threads: seq<Thread>,
    sent: seq<T>,
    delivered: seq<T>,
    closes: nat,
    refusals: nat)

  datatype Step<T> =
    | Push(thread: nat, value: T)
    | Close(thread: nat)
    | Post(thread: nat)
    | Wait(thread: nat)
    | Take(thread: nat)

  /** A push on a closed pipe panics, so it is not a step. */
  predicate Enabled<T(==)>(s: System<T>, step: Step<T>) {
    step.thread < |s.threads| &&
    match step
    case Push(t, _) => s.threads[t].Outside? && !s.pipe.closed
    case Close(t) => s.threads[t].Outside?
    case Post(t) => s.threads[t].Posting?
    case Wait(t) => s.threads[t].Outside? && s.pipe.semaphore > 0
    case Take(t) => s.threads[t].PastWait? && (s.pipe.items != [] || s.pipe.closed)
  }

  function Apply<T(==)>(s: System<T>, step: Step<T>): System<T>
    requires Enabled(s, step)
  {
    match step
    case Push(t, value) =>
      s.(pipe := Pushed(s.pipe, value), threads := s.threads[t := Posting], sent := s.sent + [value])
    case Close(t) =>
      s.(pipe := Closed(s.pipe), threads := s.threads[t := Posting], closes := s.closes + 1)
    case Post(t) => s.(pipe := Posted(s.pipe), threads := s.threads[t := Outside])
    case Wait(t) => s.(pipe := Waited(s.pipe), threads := s.threads[t := PastWait])
    case Take(t) =>
      var (pipe, value) := Taken(s.pipe);
      var after := s.(pipe := pipe, threads := s.threads[t := Outside]);
      match value
      case Some(v) => after.(delivered := s.delivered + [v])
      case None => after.(refusals := s.refusals + 1)
  }

  const IsPosting: Thread -> bool := (t: Thread) => t.Posting?
  const IsPastWait: Thread -> bool := (t: Thread) => t.PastWait?

  /** Every token is an item stored or a close not yet noticed; what was sent is delivered or stored. */
  ghost predicate Inv<T>(s: System<T>) {
    && s.pipe.semaphore + Count(IsPastWait, s.threads) + Count(IsPosting, s.threads)
       == |s.pipe.items| + s.closes - s.refusals
    && s.refusals <= s.closes
    && (s.pipe.closed <==> s.closes > 0)
    && s.sent == s.delivered + s.pipe.items
  }

  ghost predicate Init<T>(s: System<T>) {
    && s.pipe == State([], false, 0)
    && (forall t :: 0 <= t < |s.threads| ==> s.threads[t] == Outside)
    && s.sent == [] && s.delivered == [] && s.closes == 0 && s.refusals == 0
  }

  lemma InitInv<T>(s: System<T>)
    requires Init(s)
    ensures Inv(s)
  {
    CountZero(IsPosting, s.threads);
    CountZero(IsPastWait, s.threads);
  }

  lemma StepKeepsInv<T>(s: System<T>, step: Step<T>)
    requires Inv(s) && Enabled(s, step)
    ensures Inv(Apply(s, step))
  {
    hide Count;
    var t := step.thread;
    var after := Apply(s, step);
    CountUpdate(IsPosting, s.threads, t, after.threads[t]);
    CountUpdate(IsPastWait, s.threads, t, after.threads[t]);
    match step
    case Take(_) =>
      if s.pipe.items != [] {
        assert s.pipe.items == [s.pipe.items[0]] + s.pipe.items[1..];
      }
    case _ =>
  }

  /** A run is a sequence of steps, each enabled where it is taken. */
  predicate IsRun<T(==)>(s: System<T>, steps: seq<Step<T>>)
    decreases |steps|
  {
    steps == [] || (Enabled(s, steps[0]) && IsRun(Apply(s, steps[0]), steps[1..]))
  }

  function RunOf<T(==)>(s: System<T>, steps: seq<Step<T>>): System<T>
    requires IsRun(s, steps)
    decreases |steps|
  {
    if steps == [] then s else RunOf(Apply(s, steps[0]), steps[1..])
  }

  lemma {:induction false} RunKeepsInv<T>(s: System<T>, steps: seq<Step<T>>)
    requires Inv(s) && IsRun(s, steps)
    ensures Inv(RunOf(s, steps))
    decreases |steps|
  {
    if steps != [] {
      StepKeepsInv(s, steps[0]);
      RunKeepsInv(Apply(s, steps[0]), steps[1..]);
    }
  }

  /** In every interleaving: a thread past its wait always has an item to take or a close to notice, so
      no receive reads an empty buffer; what has been delivered is a prefix of what was sent. */
  lemma NoEmptyTake<T>(s: System<T>, steps: seq<Step<T>>, t: nat)
    requires Init(s) && IsRun(s, steps)
    requires t < |s.threads|
    ensures var now := RunOf(s, steps);
            && now.delivered <= now.sent
            && (t < |now.threads| && now.threads[t].PastWait? ==> Enabled(now, Take(t)))
  {
    InitInv(s);
    RunKeepsInv(s, steps);
    var now := RunOf(s, steps);
    if t < |now.threads| && now.threads[t].PastWait? {
      CountUpdate(IsPastWait, now.threads, t, Outside);
    }
  }

  /** A receive is refused only once the pipe is closed and everything ever sent has been delivered;
      and from then on no send can be started, so that stays so. */
  lemma RefusedWhenAllDelivered<T>(s: System<T>, steps: seq<Step<T>>, t: nat, value: T)
    requires Init(s) && IsRun(s, steps)
    requires Enabled(RunOf(s, steps), Take(t))
    requires Taken(RunOf(s, steps).pipe).1 == None
    ensures var now := RunOf(s, steps);
            && now.pipe.closed && now.closes > now.refusals
            && now.delivered == now.sent
            && !Enabled(now, Push(t, value))
  {
    InitInv(s);
    RunKeepsInv(s, steps);
    var now := RunOf(s, steps);
    CountUpdate(IsPastWait, now.threads, t, Outside);
    assert now.delivered + now.pipe.items == now.delivered;
  }

  /** With nothing half done, a thread can pass its wait exactly when there is an item to take or a close to notice. */
  lemma WaitsExactlyWhenEmpty<T>(s: System<T>, steps: seq<Step<T>>, t: nat)
    requires Init(s) && IsRun(s, steps)
    requires t < |RunOf(s, steps).threads|
    requires forall u :: 0 <= u < |RunOf(s, steps).threads| ==> RunOf(s, steps).threads[u].Outside?
    ensures var now := RunOf(s, steps);
            (Enabled(now, Wait(t)) <==> now.sent != now.delivered || now.closes > now.refusals)
  {
    InitInv(s);
    RunKeepsInv(s, steps);
    var now := RunOf(s, steps);
    CountZero(IsPosting, now.threads);
    CountZero(IsPastWait, now.threads);
    assert now.pipe.items == [] ==> now.delivered + now.pipe.items == now.delivered;
  }

  /** A thread outside the pipe can always close it, and can push until someone has. */
  lemma OutsideCanAct<T>(s: System<T>, steps: seq<Step<T>>, t: nat, value: T)
    requires Init(s) && IsRun(s, steps) && t < |RunOf(s, steps).threads| && RunOf(s, steps).threads[t].Outside?
    ensures Enabled(RunOf(s, steps), Close(t))
    ensures Enabled(RunOf(s, steps), Push(t, value)) <==> RunOf(s, steps).closes == 0
  {
    InitInv(s);
    RunKeepsInv(s, steps);
  }
}
