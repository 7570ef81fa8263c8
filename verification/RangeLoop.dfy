/**
  `for x: range(start, end, step)`: the generated code counts instead of building the vector
  and iterating over it.  Integers are unbounded here; `LoopVarStaysInside` says which
  additions the counting loop makes, and so when the runtime's 32-bit integers suffice.
*/
module RangeLoop {
  import opened Sequences

  /** The runtime's loop test; a zero step never iterates. */
  predicate Continue(step: int, lhs: int, rhs: int) {
    if step == 0 then false else if step > 0 then lhs < rhs else lhs > rhs
  }

  /** How far the loop variable is from ending the loop. */
  function Distance(start: int, end: int, step: int): int {
    if step > 0 then end - start else start - end
  }

  /** The values of a range, in order. */
  function RangeFrom(start: int, end: int, step: int): seq<int>
    decreases Distance(start, end, step)
  {
    if !Continue(step, start, end) then [] else [start] + RangeFrom(start + step, end, step)
  }

  /** The vector the runtime builds. */
  method Range(start: int, end: int, step: int) returns (r: seq<int>)
    ensures r == RangeFrom(start, end, step)
  {
    r := [];
    if step == 0 {
      return;
    }
    var val := start;
    if step < 0 {
      if end > start {
        return;
      }
      while val > end
        invariant r + RangeFrom(val, end, step) == RangeFrom(start, end, step)
        decreases val - end
      {
        assert r + ([val] + RangeFrom(val + step, end, step)) == r + [val] + RangeFrom(val + step, end, step);
        r := r + [val];
        val := val + step;
      }
    } else {
      if end < start {
        return;
      }
      while val < end
        invariant r + RangeFrom(val, end, step) == RangeFrom(start, end, step)
        decreases end - val
      {
        assert r + ([val] + RangeFrom(val + step, end, step)) == r + [val] + RangeFrom(val + step, end, step);
        r := r + [val];
        val := val + step;
      }
    }
  }

  function Value(start: int, step: int, k: int): int {
    start + k * step
  }

  lemma NextValue(start: int, step: int, k: int)
    ensures Value(start + step, step, k) == Value(start, step, k + 1)
    ensures Value(start, step, k + 1) == Value(start, step, k) + step
    ensures Value(start, step, 0) == start
  {
    assert (k + 1) * step == k * step + step;
  }

  /** A range is the arithmetic progression from `start` up to, and not including, `end`: its k-th value is
      `start + k * step`, all of them are on the near side of `end`, and the next one would not be. */
  lemma {:induction false} RangeIsProgression(start: int, end: int, step: int)
    requires step != 0
    ensures var r := RangeFrom(start, end, step);
            && (forall k :: 0 <= k < |r| ==> r[k] == Value(start, step, k) && Continue(step, r[k], end))
            && !Continue(step, Value(start, step, |r|), end)
    decreases Distance(start, end, step)
  {
    hide Value;
    NextValue(start, step, 0);
    if Continue(step, start, end) {
      RangeIsProgression(start + step, end, step);
      var rest := RangeFrom(start + step, end, step);
      var r := RangeFrom(start, end, step);
      NextValue(start, step, |rest|);
      forall k | 0 <= k < |r|
        ensures r[k] == Value(start, step, k) && Continue(step, r[k], end)
      {
        if k > 0 {
          NextValue(start, step, k - 1);
          assert r[k] == rest[k - 1];
        }
      }
    }
  }

  /** Upwards every value is below the end and the next would not be; downwards the other way round; and a step of zero
      gives nothing. */
  lemma RangeDirections(start: int, end: int, step: int)
    ensures var r := RangeFrom(start, end, step);
            && (step > 0 ==> (forall k :: 0 <= k < |r| ==> r[k] == start + k * step < end) && end <= start + |r| * step)
            && (step < 0 ==> (forall k :: 0 <= k < |r| ==> r[k] == start + k * step > end) && end >= start + |r| * step)
            && (step == 0 ==> r == [])
  {
    if step != 0 {
      RangeIsProgression(start, end, step);
      var r := RangeFrom(start, end, step);
      assert Value(start, step, |r|) == start + |r| * step;
      forall k | 0 <= k < |r|
        ensures r[k] == start + k * step
      {
        assert r[k] == Value(start, step, k);
      }
    }
  }

  /** Every value the loop variable takes, the one that ends the loop included, lies from `start` to short of
      `end + step`: when those fit the runtime's integers no addition overflows. */
  lemma {:induction false} LoopVarStaysInside(start: int, end: int, step: int, k: nat)
    requires step != 0 && k <= |RangeFrom(start, end, step)|
    ensures step > 0 ==> start <= Value(start, step, k) && (k > 0 ==> Value(start, step, k) < end + step)
    ensures step < 0 ==> Value(start, step, k) <= start && (k > 0 ==> end + step < Value(start, step, k))
  {
    hide Value;
    NextValue(start, step, 0);
    if k > 0 {
      LoopVarStaysInside(start, end, step, k - 1);
      RangeIsProgression(start, end, step);
      NextValue(start, step, k - 1);
      assert Continue(step, RangeFrom(start, end, step)[k - 1], end);
    }
  }

  // ---------------------------------------------------------------- the two loops

  /** What one iteration does: the new state, what it leaves in the loop variable, and whether it breaks. */
  datatype Outcome<S> = Outcome(state: S, loopVar: int, broke: bool)

  /** The meaning of iterating over a vector: assigning the loop variable has no effect on the iteration. */
  function Iterate<S>(body: (S, int) -> Outcome<S>, xs: seq<int>, s: S): S {
    if xs == [] then s
    else
      var o := body(s, xs[0]);
      if o.broke then o.state else Iterate(body, xs[1..], o.state)
  }

  /** The generated loop over a vector. */
  method VectorLoop<S>(body: (S, int) -> Outcome<S>, vect: seq<int>, s: S) returns (final: S)
    ensures final == Iterate(body, vect, s)
  {
    final := s;
    var index := 0;
    while index < |vect|
      invariant 0 <= index <= |vect|
      invariant Iterate(body, vect[index..], final) == Iterate(body, vect, s)
    {
      var o := body(final, vect[index]);
      assert vect[index..][0] == vect[index] && vect[index..][1..] == vect[index + 1..];
      final := o.state;
      if o.broke {
        return;
      }
      index := index + 1;
    }
  }

  /** No iteration that goes on assigns the loop variable. */
  ghost predicate KeepsLoopVar<S(!new)>(body: (S, int) -> Outcome<S>) {
    forall s, v :: body(s, v).broke || body(s, v).loopVar == v
  }

  /** The first `n` iterations over a vector: the state and the loop variable at the start of each. */
  function VectorVisits<S>(body: (S, int) -> Outcome<S>, n: nat, xs: seq<int>, s: S): seq<(S, int)> {
    if n == 0 || xs == [] then []
    else
      var o := body(s, xs[0]);
      [(s, xs[0])] + if o.broke then [] else VectorVisits(body, n - 1, xs[1..], o.state)
  }

  /** The first `n` iterations of the counting loop, which goes on from whatever the body left. */
  function CountingVisits<S>(body: (S, int) -> Outcome<S>, n: nat, v: int, end: int, step: int, s: S): seq<(S, int)> {
    if n == 0 || !Continue(step, v, end) then []
    else
      var o := body(s, v);
      [(s, v)] + if o.broke then [] else CountingVisits(body, n - 1, o.loopVar + step, end, step, o.state)
  }

  /** The state after some iterations that started in `s`. */
  function StateAfter<S>(body: (S, int) -> Outcome<S>, visits: seq<(S, int)>, s: S): S {
    if visits == [] then s else body(visits[|visits| - 1].0, visits[|visits| - 1].1).state
  }

  /** The generated counting loop, for `n` iterations at most: with a body that assigns the loop variable it need
      not end. */
  method CountingLoop<S(!new)>(body: (S, int) -> Outcome<S>, n: nat, start: int, end: int, step: int, s: S)
    returns (final: S)
    ensures final == StateAfter(body, CountingVisits(body, n, start, end, step, s), s)
  {
    hide RangeFrom, Iterate, KeepsLoopVar, StateAfter, CountingVisits;
    final := s;
    var i, turns := start, 0;
    NoVisits(body, s);
    ghost var visits := [];
    while turns < n && Continue(step, i, end)
      invariant turns <= n && final == StateAfter(body, visits, s)
      invariant visits + CountingVisits(body, n - turns, i, end, step, final)
             == CountingVisits(body, n, start, end, step, s)
    {
      var o := body(final, i);
      NextVisit(body, n - turns, i, end, step, final);
      LastVisit(body, visits, (final, i), s);
      ghost var rest := if o.broke then []
          else CountingVisits(body, n - turns - 1, o.loopVar + step, end, step, o.state);
      Assoc(visits, [(final, i)], rest);
      visits := visits + [(final, i)];
      final := o.state;
      if o.broke {
        assert visits + [] == visits;
        return;
      }
      i := o.loopVar;
      i := i + step;
      turns := turns + 1;
    }
    LoopEnded(body, n - turns, i, end, step, final);
    assert visits + [] == visits;
  }

  lemma NoVisits<S>(body: (S, int) -> Outcome<S>, s: S)
    ensures StateAfter(body, [], s) == s
  {
  }

  lemma LastVisit<S>(body: (S, int) -> Outcome<S>, visits: seq<(S, int)>, last: (S, int), s: S)
    ensures StateAfter(body, visits + [last], s) == body(last.0, last.1).state
  {
  }

  lemma NextVisit<S>(body: (S, int) -> Outcome<S>, n: nat, v: int, end: int, step: int, s: S)
    requires n != 0 && Continue(step, v, end)
    ensures var o := body(s, v);
            var rest := if o.broke then [] else CountingVisits(body, n - 1, o.loopVar + step, end, step, o.state);
            CountingVisits(body, n, v, end, step, s) == [(s, v)] + rest
  {
  }

  lemma LoopEnded<S>(body: (S, int) -> Outcome<S>, n: nat, v: int, end: int, step: int, s: S)
    requires n == 0 || !Continue(step, v, end)
    ensures CountingVisits(body, n, v, end, step, s) == []
  {
  }

  /** With a body that keeps the loop variable, enough turns of the counting loop are iteration over the range. */
  lemma CountingIsIteration<S(!new)>(
    body: (S, int) -> Outcome<S>, n: nat, start: int, end: int, step: int, s: S)
    requires KeepsLoopVar(body) && n >= |RangeFrom(start, end, step)|
    ensures StateAfter(body, CountingVisits(body, n, start, end, step, s), s)
         == Iterate(body, RangeFrom(start, end, step), s)
  {
    SameVisits(body, n, start, end, step, s);
    VisitsAreIteration(body, n, RangeFrom(start, end, step), s);
  }

  /** Enough iterations over a vector are all of them. */
  lemma {:induction false} VisitsAreIteration<S>(body: (S, int) -> Outcome<S>, n: nat, xs: seq<int>, s: S)
    requires n >= |xs|
    ensures StateAfter(body, VectorVisits(body, n, xs, s), s) == Iterate(body, xs, s)
  {
    hide StateAfter;
    NoVisits(body, s);
    if xs != [] {
      var o := body(s, xs[0]);
      var rest := if o.broke then [] else VectorVisits(body, n - 1, xs[1..], o.state);
      FirstVisit(body, (s, xs[0]), rest, s);
      NoVisits(body, o.state);
      if !o.broke {
        VisitsAreIteration(body, n - 1, xs[1..], o.state);
      }
    }
  }

  lemma FirstVisit<S>(body: (S, int) -> Outcome<S>, first: (S, int), rest: seq<(S, int)>, s: S)
    ensures StateAfter(body, [first] + rest, s) == StateAfter(body, rest, body(first.0, first.1).state)
  {
  }

  lemma {:induction false} SameVisits<S(!new)>(
    body: (S, int) -> Outcome<S>, n: nat, v: int, end: int, step: int, s: S)
    requires KeepsLoopVar(body)
    ensures CountingVisits(body, n, v, end, step, s) == VectorVisits(body, n, RangeFrom(v, end, step), s)
  {
    if n != 0 && Continue(step, v, end) {
      var o := body(s, v);
      assert RangeFrom(v, end, step)[1..] == RangeFrom(v + step, end, step);
      if !o.broke {
        SameVisits(body, n - 1, v + step, end, step, o.state);
      }
    }
  }

  /** The two loops agree on this much of this range. */
  predicate Agree<S(==)>(body: (S, int) -> Outcome<S>, n: nat, start: int, end: int, step: int, s: S) {
    CountingVisits(body, n, start, end, step, s) == VectorVisits(body, n, RangeFrom(start, end, step), s)
  }

  /** The expansion is transparent, iteration for iteration and on every range, exactly when the body does not
      assign the loop variable in an iteration that goes on. */
  lemma ExpansionIsTransparent<S(!new)>(body: (S, int) -> Outcome<S>)
    ensures KeepsLoopVar(body) <==> forall n: nat, start, end, step, s :: Agree(body, n, start, end, step, s)
  {
    if KeepsLoopVar(body) {
      forall n: nat, start, end, step, s
        ensures Agree(body, n, start, end, step, s)
      {
        SameVisits(body, n, start, end, step, s);
      }
    } else {
      var s, v :| !body(s, v).broke && body(s, v).loopVar != v;
      AssignedLoopVarShows(body, s, v);
      assert !Agree(body, 2, v, v + 2, 1, s);
    }
  }

  /** A body that assigns the loop variable and goes on is told apart by a range of two values. */
  lemma AssignedLoopVarShows<S>(body: (S, int) -> Outcome<S>, s: S, v: int)
    requires !body(s, v).broke && body(s, v).loopVar != v
    ensures CountingVisits(body, 2, v, v + 2, 1, s) != VectorVisits(body, 2, RangeFrom(v, v + 2, 1), s)
  {
    var o := body(s, v);
    var r := RangeFrom(v, v + 2, 1);
    assert RangeFrom(v + 1, v + 2, 1) == [v + 1] + RangeFrom(v + 2, v + 2, 1);
    assert r[1..] == RangeFrom(v + 1, v + 2, 1);
    var counting, vector := CountingVisits(body, 2, v, v + 2, 1, s), VectorVisits(body, 2, r, s);
    var second := VectorVisits(body, 1, r[1..], o.state);
    assert vector == [(s, v)] + second;
    assert second[0] == (o.state, v + 1);
    var next := CountingVisits(body, 1, o.loopVar + 1, v + 2, 1, o.state);
    assert counting == [(s, v)] + next;
    if next != [] {
      assert next[0].1 == o.loopVar + 1;
    }
    assert counting[1..] == next && vector[1..] == second;
  }
}
