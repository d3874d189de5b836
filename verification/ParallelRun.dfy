/** The parallel pass inside the main loop: whatever the interleaving, a pass with a pool of threads comes
    out as the pass function says. */
module ParallelRun {
  import opened Sync
  import opened Slices
  import opened Barrier
  import opened ParallelPass
  import opened ParallelProgress
  import MainLoop

  /** The pool synchronises, in iteration i, the objects that the pass visits, at the clock of the pass. */
  ghost predicate Serves(p: Plan, i: nat, g: MainLoop.Globals, m: MainLoop.Loop, inp: MainLoop.Answers)
  {
    p.env(i) == MainLoop.EnvAt(g, m.stepTo) && inp.objs == Visited(p, i, |p.sizes|)
  }

  /** When an iteration over all rank lists is over, under any interleaving, the rest of the pass done with
      the threads' slots gives what the pass function says for the objects in the order of one thread. */
  method FinishIteration(p: Plan, ghost d: PState, i: nat, g: MainLoop.Globals, m: MainLoop.Loop,
                         inp: MainLoop.Answers, step: Time, data: array<SyncData>) returns (o: MainLoop.Outcome)
    requires PReachable(p, d) && d.s.cpc.Outside? && d.s.cur == 0 && d.s.iter == i + 1
    requires Serves(p, i, g, m, inp) && data[..] == d.slots
    requires step == MainLoop.Least(MainLoop.InternalTimes(inp)) && !(step != TS_NEVER && step <= m.stepTo)
    ensures o == MainLoop.Pass(g, m, inp)
  {
    ParallelPassRefinesSequential(p, d);
    o := MainLoop.FinishPass(g, m, inp, step, data, JoinAll(d.slots));
  }

  /** A pass stopped at a status check, after any of its rank lists, is one the pass function stops as
      well. */
  lemma StoppedPass(p: Plan, d: PState, g: MainLoop.Globals, m: MainLoop.Loop, inp: MainLoop.Answers)
    requires PReachable(p, d) && d.s.cpc.Outside? && !AllSucceeded(d.slots)
    requires Serves(p, DoneLists(p, d.s).0, g, m, inp)
    ensures MainLoop.Pass(g, m, inp).Stop?
  {
    var (i, l) := DoneLists(p, d.s);
    FailureStopsPassIff(p, d);
    VisitedGrows(p, i, l, |p.sizes|);
    var k :| 0 <= k < |Visited(p, i, l)| && Stopped(p.env(i), Visited(p, i, l)[k]);
    assert Stopped(p.env(i), inp.objs[k]);
    FoldFails(p.env(i), inp.objs);
  }

  lemma {:induction false} VisitedGrows(p: Plan, i: nat, l: nat, n: nat)
    requires l <= n <= |p.sizes|
    ensures Visited(p, i, l) <= Visited(p, i, n)
    decreases n
  {
    if l < n { VisitedGrows(p, i, l, n - 1); }
  }

  // ---------------------------------------------------------------------------
  // Whole runs
  // ---------------------------------------------------------------------------

  /** What a pass comes to if the slots merge to `total`. */
  function PoolOutcome(g: MainLoop.Globals, m: MainLoop.Loop, inp: MainLoop.Answers, total: SyncData): MainLoop.Outcome
  {
    var t := MainLoop.Least(MainLoop.InternalTimes(inp));
    if t != TS_NEVER && t <= m.stepTo then MainLoop.Stop(MainLoop.InternalSync)
    else if total.status.FAILED? then MainLoop.Stop(MainLoop.ObjectSync)
    else
      MainLoop.Advanced(g, m, inp, Min(Min(t, MainLoop.Least(inp.transforms)), total.stepTo),
                        (if g.stop == TS_NEVER then 0 else 1) + total.hardEvent)
  }

  /** The pool does iteration k, under some interleaving. */
  ghost predicate Iterates(p: Plan, d: PState, k: nat, e: PState)
  {
    && PShaped(p, d) && (exists acts: seq<Action> :: PRun(p, d, acts, e))
    && e.s.cpc.Outside? && e.s.cur == 0 && e.s.iter == k + 1
  }

  /** Pass k of a run with a pool: the pool does its iteration, and the main thread goes on with its slots. */
  ghost predicate PoolPassAt(p: Plan, g: MainLoop.Globals, world: MainLoop.Oracle, ms: seq<MainLoop.Loop>,
                             ds: seq<PState>, k: nat)
    requires k + 1 < |ms| == |ds|
  {
    && MainLoop.Running(g, ms[k]) && Iterates(p, ds[k], k, ds[k + 1])
    && PoolOutcome(g, ms[k], world(k, ms[k].stepTo), JoinAll(ds[k + 1].slots)) == MainLoop.Going(ms[k + 1])
  }

  ghost predicate PoolRun(p: Plan, g: MainLoop.Globals, world: MainLoop.Oracle, clock: Time, ms: seq<MainLoop.Loop>,
                          ds: seq<PState>)
    requires ValidPlan(p)
  {
    && |ds| == |ms| > 0 && ms[0] == MainLoop.Start(g, clock) && ds[0] == PInitial(p)
    && forall k :: 0 <= k < |ms| - 1 ==> PoolPassAt(p, g, world, ms, ds, k)
  }

  /** The pool synchronises, in each iteration, the objects that the pass would visit. */
  ghost predicate ServesAll(p: Plan, g: MainLoop.Globals, world: MainLoop.Oracle, ms: seq<MainLoop.Loop>)
  {
    forall k :: 0 <= k < |ms| - 1 ==> Serves(p, k, g, ms[k], world(k, ms[k].stepTo))
  }

  lemma OutcomeOf(g: MainLoop.Globals, m: MainLoop.Loop, inp: MainLoop.Answers, total: SyncData)
    requires total == Fold(MainLoop.EnvAt(g, m.stepTo), inp.objs)
    ensures PoolOutcome(g, m, inp, total) == MainLoop.Pass(g, m, inp)
  {
  }

  lemma MergedOutcome(p: Plan, d: PState, k: nat, g: MainLoop.Globals, m: MainLoop.Loop, inp: MainLoop.Answers)
    requires PInv(p, d) && d.s.cpc.Outside? && d.s.cur == 0 && d.s.iter == k + 1 && Serves(p, k, g, m, inp)
    ensures PoolOutcome(g, m, inp, JoinAll(d.slots)) == MainLoop.Pass(g, m, inp)
  {
    MergedIsFold(p, d);
    OutcomeOf(g, m, inp, JoinAll(d.slots));
  }

  lemma {:induction false} PoolKeeps(p: Plan, g: MainLoop.Globals, world: MainLoop.Oracle, clock: Time,
                                     ms: seq<MainLoop.Loop>, ds: seq<PState>, k: nat)
    requires ValidPlan(p) && PoolRun(p, g, world, clock, ms, ds) && k < |ds|
    ensures PInv(p, ds[k]) && ds[k].s.cpc.Outside? && ds[k].s.cur == 0 && ds[k].s.iter == k
  {
    if k == 0 {
      Started(p);
    } else {
      PoolKeeps(p, g, world, clock, ms, ds, k - 1);
      assert PoolPassAt(p, g, world, ms, ds, k - 1);
      var acts: seq<Action> :| PRun(p, ds[k - 1], acts, ds[k]);
      PRunKeeps(p, ds[k - 1], acts, ds[k]);
    }
  }

  lemma Started(p: Plan)
    requires ValidPlan(p)
    ensures PShaped(p, PInitial(p)) && PInv(p, PInitial(p))
  {
    var d := PInitial(p);
    assert PRun(p, d, [], d);
    Invariant(p, d);
  }

  /** A run with a pool, whatever the interleaving of every pass, is a run of the main loop. */
  lemma PoolRunIsTrace(p: Plan, g: MainLoop.Globals, world: MainLoop.Oracle, clock: Time, ms: seq<MainLoop.Loop>,
                       ds: seq<PState>)
    requires ValidPlan(p) && PoolRun(p, g, world, clock, ms, ds) && ServesAll(p, g, world, ms)
    ensures MainLoop.Trace(g, world, clock, ms)
  {
    forall k | 0 <= k < |ms| - 1
      ensures MainLoop.Running(g, ms[k])
      ensures MainLoop.Pass(g, ms[k], world(k, ms[k].stepTo)) == MainLoop.Going(ms[k + 1])
    {
      PoolKeeps(p, g, world, clock, ms, ds, k + 1);
      assert PoolPassAt(p, g, world, ms, ds, k) && Serves(p, k, g, ms[k], world(k, ms[k].stepTo));
      MergedOutcome(p, ds[k + 1], k, g, ms[k], world(k, ms[k].stepTo));
    }
  }

  lemma GoingIsFine(g: MainLoop.Globals, m: MainLoop.Loop, inp: MainLoop.Answers)
    requires MainLoop.Pass(g, m, inp).Going?
    ensures NoneStopped(MainLoop.EnvAt(g, m.stepTo), inp.objs)
  {
    FoldFails(MainLoop.EnvAt(g, m.stepTo), inp.objs);
  }

  lemma PoolIterates(p: Plan, d: PState) returns (e: PState)
    requires PInv(p, d) && d.s.cpc.Outside? && d.s.cur == 0 && AllSucceeded(d.slots) && EveryThreadCreated(p)
    requires NoneStopped(p.env(d.s.iter), Visited(p, d.s.iter, |p.sizes|))
    ensures Iterates(p, d, d.s.iter, e) && PInv(p, e) && AllSucceeded(e.slots)
  {
    var acts;
    acts, e := PassCompletes(p, d);
    SucceededIff(p, e);
  }

  lemma PoolCanPass(p: Plan, d: PState, k: nat, g: MainLoop.Globals, m: MainLoop.Loop, inp: MainLoop.Answers)
    returns (e: PState)
    requires PInv(p, d) && d.s.cpc.Outside? && d.s.cur == 0 && d.s.iter == k && AllSucceeded(d.slots)
    requires EveryThreadCreated(p) && Serves(p, k, g, m, inp) && MainLoop.Pass(g, m, inp).Going?
    ensures Iterates(p, d, k, e) && PInv(p, e) && AllSucceeded(e.slots)
    ensures PoolOutcome(g, m, inp, JoinAll(e.slots)) == MainLoop.Pass(g, m, inp)
  {
    GoingIsFine(g, m, inp);
    e := PoolIterates(p, d);
    MergedOutcome(p, e, k, g, m, inp);
  }

  lemma {:induction false} TraceHasPoolRun(p: Plan, g: MainLoop.Globals, world: MainLoop.Oracle, clock: Time,
                                           ms: seq<MainLoop.Loop>) returns (ds: seq<PState>)
    requires ValidPlan(p) && EveryThreadCreated(p) && MainLoop.Trace(g, world, clock, ms) && ServesAll(p, g, world, ms)
    ensures PoolRun(p, g, world, clock, ms, ds) && AllSucceeded(ds[|ds| - 1].slots)
  {
    var n := |ms| - 1;
    if n == 0 {
      ds := [PInitial(p)];
    } else {
      var less := ms[..n];
      forall k | 0 <= k < |less| - 1 ensures Serves(p, k, g, less[k], world(k, less[k].stepTo)) {
        assert Serves(p, k, g, ms[k], world(k, ms[k].stepTo));
      }
      var es := TraceHasPoolRun(p, g, world, clock, less);
      PoolKeeps(p, g, world, clock, less, es, n - 1);
      assert Serves(p, n - 1, g, ms[n - 1], world(n - 1, ms[n - 1].stepTo));
      assert MainLoop.Pass(g, ms[n - 1], world(n - 1, ms[n - 1].stepTo)) == MainLoop.Going(ms[n - 1 + 1]);
      var e := PoolCanPass(p, es[n - 1], n - 1, g, ms[n - 1], world(n - 1, ms[n - 1].stepTo));
      ds := es + [e];
      forall k | 0 <= k < n ensures PoolPassAt(p, g, world, ms, ds, k) {
        if k < n - 1 { assert PoolPassAt(p, g, world, less, es, k); }
      }
    }
  }

  /** With all threads created, the runs of the main loop with a pool of threads are the runs of the main loop with
      one: the same times, step by step, and the same ends. */
  lemma PoolRunsIff(p: Plan, g: MainLoop.Globals, world: MainLoop.Oracle, clock: Time, ms: seq<MainLoop.Loop>)
    requires ValidPlan(p) && EveryThreadCreated(p) && ServesAll(p, g, world, ms)
    ensures (exists ds :: PoolRun(p, g, world, clock, ms, ds)) <==> MainLoop.Trace(g, world, clock, ms)
  {
    if ds :| PoolRun(p, g, world, clock, ms, ds) { PoolRunIsTrace(p, g, world, clock, ms, ds); }
    if MainLoop.Trace(g, world, clock, ms) { var _ := TraceHasPoolRun(p, g, world, clock, ms); }
  }
}
