/** Completing a parallel pass: from list to list, and over all lists of an iteration. */
module ParallelProgress {
  import opened Sync
  import opened Slices
  import opened Barrier
  import opened BarrierInvariant
  import opened BarrierTheorems
  import opened ParallelPass

  /** Runs of any step relation; what follows about putting runs together needs no more. */
  ghost predicate Steps<S(!new), A>(step: (S, A, S) -> bool, s: S, acts: seq<A>, t: S)
    decreases |acts|
  {
    if acts == [] then s == t else exists n :: step(s, acts[0], n) && Steps(step, n, acts[1..], t)
  }

  lemma {:induction false} StepsAppend<S(!new), A>(step: (S, A, S) -> bool, s: S, a: seq<A>, t: S, b: seq<A>, u: S)
    requires Steps(step, s, a, t) && Steps(step, t, b, u)
    ensures Steps(step, s, a + b, u)
    decreases |a|
  {
    if a == [] {
      assert a + b == b;
    } else {
      var n :| step(s, a[0], n) && Steps(step, n, a[1..], t);
      StepsAppend(step, n, a[1..], t, b, u);
      assert (a + b)[1..] == a[1..] + b;
    }
  }

  ghost predicate IsStep(p: Plan, d: PState, a: Action, e: PState)
  {
    PShaped(p, d) && PEnabled(p, d, a) && e == PNext(p, d, a)
  }

  ghost function StepOf(p: Plan): (PState, Action, PState) -> bool
  {
    (d, a, e) => IsStep(p, d, a, e)
  }

  lemma {:induction false} RunIsSteps(p: Plan, d: PState, acts: seq<Action>, e: PState)
    requires PShaped(p, d)
    ensures PRun(p, d, acts, e) <==> Steps(StepOf(p), d, acts, e)
    decreases |acts|
  {
    if acts != [] && PEnabled(p, d, acts[0]) {
      RunIsSteps(p, PNext(p, d, acts[0]), acts[1..], e);
      assert StepOf(p)(d, acts[0], PNext(p, d, acts[0]));
    }
  }

  lemma RunAppends(p: Plan, d: PState, a: seq<Action>, e: PState, b: seq<Action>, f: PState)
    requires PShaped(p, d) && PRun(p, d, a, e) && PShaped(p, e) && PRun(p, e, b, f)
    ensures PRun(p, d, a + b, f)
  {
    RunIsSteps(p, d, a, e);
    RunIsSteps(p, e, b, f);
    RunIsSteps(p, d, a + b, f);
    StepsAppend(StepOf(p), d, a, e, b, f);
  }

  lemma OneStep(p: Plan, d: PState, a: Action)
    requires PShaped(p, d) && PEnabled(p, d, a)
    ensures PRun(p, d, [a], PNext(p, d, a))
  {
    assert [a][1..] == [];
  }

  /** A round of the barrier is also a round of the system with the thread data. */
  lemma {:induction false} RoundLifts(p: Plan, d: PState, acts: seq<Action>, t: State) returns (e: PState)
    requires PInv(p, d) && RoundRun(ConfigOf(p), d.s, acts, t)
    ensures PRun(p, d, acts, e) && e.s == t && PInv(p, e)
    decreases |acts|
  {
    if acts == [] {
      e := d;
    } else {
      PNextKeeps(p, d, acts[0]);
      e := RoundLifts(p, PNext(p, d, acts[0]), acts[1..], t);
    }
  }

  /** Where the main thread goes after list `cur`. */
  predicate Follows(p: Plan, s: State, t: State)
  {
    if s.cur + 1 < |p.sizes| then t.cur == s.cur + 1 && t.iter == s.iter else t.cur == 0 && t.iter == s.iter + 1
  }

  lemma Enters(p: Plan, d: PState) returns (e: PState)
    requires PInv(p, d) && d.s.cpc.Outside? && AllSucceeded(d.slots)
    ensures PRun(p, d, [Step], e) && PInv(p, e) && InBarrier(e.s) && e.s.cur == d.s.cur && e.s.iter == d.s.iter
  {
    e := PNext(p, d, Step);
    OneStep(p, d, Step);
    PNextKeeps(p, d, Step);
  }

  lemma Leaves(p: Plan, d: PState) returns (e: PState)
    requires PInv(p, d) && d.s.cpc.DropDone?
    ensures PRun(p, d, [Step], e) && PInv(p, e) && e.s.cpc.Outside? && Follows(p, d.s, e.s)
  {
    e := PNext(p, d, Step);
    OneStep(p, d, Step);
    PNextKeeps(p, d, Step);
  }

  /** One rank list, from outside its barrier to outside again. */
  lemma ListCompletes(p: Plan, d: PState) returns (acts: seq<Action>, e: PState)
    requires PInv(p, d) && d.s.cpc.Outside? && AllSucceeded(d.slots) && AllCreated(ConfigOf(p), d.s.cur)
    ensures PRun(p, d, acts, e) && PInv(p, e) && e.s.cpc.Outside? && Follows(p, d.s, e.s)
  {
    var c := ConfigOf(p);
    var inside := Enters(p, d);
    var round, t := RoundEnds(c, inside.s);
    RoundStays(c, inside.s, round, t);
    var ended := RoundLifts(p, inside, round, t);
    e := Leaves(p, ended);
    RunAppends(p, inside, round, ended, [Step], e);
    RunAppends(p, d, [Step], inside, round + [Step], e);
    acts := [Step] + (round + [Step]);
  }

  lemma {:induction false} VisitedPrefix(p: Plan, i: nat, l: nat, n: nat)
    requires l <= n <= |p.sizes| && NoneStopped(p.env(i), Visited(p, i, n))
    ensures NoneStopped(p.env(i), Visited(p, i, l))
    decreases n
  {
    if l < n {
      assert Visited(p, i, n - 1) <= Visited(p, i, n);
      VisitedPrefix(p, i, l, n - 1);
    }
  }

  ghost predicate EveryThreadCreated(p: Plan)
    requires ValidPlan(p)
  {
    forall l :: 0 <= l < |p.sizes| ==> AllCreated(ConfigOf(p), l)
  }

  lemma {:induction false} PassCompletes(p: Plan, d: PState) returns (acts: seq<Action>, e: PState)
    requires PInv(p, d) && d.s.cpc.Outside? && AllSucceeded(d.slots) && EveryThreadCreated(p)
    requires NoneStopped(p.env(d.s.iter), Visited(p, d.s.iter, |p.sizes|))
    ensures PRun(p, d, acts, e) && PInv(p, e) && e.s.cpc.Outside? && e.s.cur == 0 && e.s.iter == d.s.iter + 1
    decreases |p.sizes| - d.s.cur
  {
    acts, e := ListCompletes(p, d);
    if e.s.cur != 0 {
      VisitedPrefix(p, e.s.iter, e.s.cur, |p.sizes|);
      SucceededIff(p, e);
      var first, middle := acts, e;
      var rest;
      rest, e := PassCompletes(p, middle);
      RunAppends(p, d, first, middle, rest, e);
      acts := first + rest;
    }
  }

  ghost predicate CanComplete(p: Plan, d: PState)
    requires PShaped(p, d)
  {
    exists acts: seq<Action>, e: PState :: PRun(p, d, acts, e) && Completed(d, e)
  }

  /** The next iteration is about to begin and nothing has failed. */
  predicate Completed(d: PState, e: PState)
  {
    e.s.cpc.Outside? && e.s.cur == 0 && e.s.iter == d.s.iter + 1 && AllSucceeded(e.slots)
  }

  /** With all threads created, an iteration over all rank lists can be brought to its end if and only
      if none of its objects stops its clock. */
  lemma CompletionPossibleIff(p: Plan, d: PState)
    requires PReachable(p, d) && PShaped(p, d) && d.s.cpc.Outside? && d.s.cur == 0 && AllSucceeded(d.slots)
    requires EveryThreadCreated(p)
    ensures CanComplete(p, d) <==> NoneStopped(p.env(d.s.iter), Visited(p, d.s.iter, |p.sizes|))
  {
    Invariant(p, d);
    if CanComplete(p, d) {
      var acts: seq<Action>, e: PState :| PRun(p, d, acts, e) && Completed(d, e);
      PRunKeeps(p, d, acts, e);
      CompletedIff(p, d, e);
    }
    if NoneStopped(p.env(d.s.iter), Visited(p, d.s.iter, |p.sizes|)) {
      var acts, e := PassCompletes(p, d);
      CompletedIff(p, d, e);
    }
  }

  lemma CompletedIff(p: Plan, d: PState, e: PState)
    requires PInv(p, e) && e.s.cpc.Outside? && e.s.cur == 0 && e.s.iter == d.s.iter + 1
    ensures Completed(d, e) <==> NoneStopped(p.env(d.s.iter), Visited(p, d.s.iter, |p.sizes|))
  {
    SucceededIff(p, e);
  }
}
