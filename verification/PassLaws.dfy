/** What a pass of the main loop comes to, in terms of what objects, internal syncs, transforms and commits answer
    and the clock alone; and when a run is given up for want of convergence. */
module PassLaws {
  import opened Sync
  import opened Slices
  import opened MainLoop
  import opened ObjectLaws

  // ---------------------------------------------------------------------------
  // One pass
  // ---------------------------------------------------------------------------

  predicate InternalsLate(clock: int, inp: MainLoop.Answers)
  {
    inp.schedule <= clock || inp.loadshape <= clock || inp.transform <= clock || inp.enduse <= clock
  }

  ghost predicate ObjectsLate(clock: int, objs: seq<Obj>)
  {
    exists k :: 0 <= k < |objs| && AnswersLate(clock, objs[k])
  }

  /** An object in service commits with a time not after the clock; 1 means success, 0 failure. */
  predicate CommitsLate(clock: int, o: CommitObj)
  {
    o.inSvc <= clock <= o.outSvc && o.ret != 1 && o.ret <= clock
  }

  /** What an object's commit asks for; those of objects not in service, and those that answer 1, ask for nothing. */
  predicate CommitsTo(clock: int, o: CommitObj, r: int)
  {
    r == if o.inSvc <= clock <= o.outSvc && o.ret != 1 then o.ret else TS_NEVER
  }

  ghost predicate AnyCommitsLate(clock: int, objs: seq<CommitObj>)
  {
    exists k :: 0 <= k < |objs| && CommitsLate(clock, objs[k])
  }

  /** `times` is what the objects ask for, and `step` the earliest of that and of what internal syncs and transforms
      ask for. */
  ghost predicate Asked(g: Globals, clock: int, inp: MainLoop.Answers, times: seq<int>, step: int)
  {
    && |times| == |inp.objs| && (forall k :: 0 <= k < |times| ==> AsksFor(EnvAt(g, clock), inp.objs[k], times[k]))
    && Earliest(step, [inp.schedule, inp.loadshape, inp.transform, inp.enduse] + inp.transforms + times)
  }

  lemma InternalsLateIff(clock: int, inp: MainLoop.Answers)
    requires clock < TS_NEVER
    ensures Least(InternalTimes(inp)) <= clock <==> InternalsLate(clock, inp)
  {
    var t := InternalTimes(inp);
    LeastIsEarliest(t);
    assert t[0] == inp.schedule && t[1] == inp.loadshape && t[2] == inp.transform && t[3] == inp.enduse;
  }

  lemma CommitLateIff(clock: int, objs: seq<CommitObj>)
    requires 0 <= clock < TS_NEVER
    ensures CommitTime(clock, objs) <= clock <==> AnyCommitsLate(clock, objs)
  {
    var times := CommitTimes(clock, objs);
    LeastIsEarliest(times);
    forall k | 0 <= k < |objs|
      ensures times[k] <= clock <==> CommitsLate(clock, objs[k])
      ensures CommitFails(clock, objs[k]) ==> CommitsLate(clock, objs[k])
    {
    }
    if AnyCommitsLate(clock, objs) {
      var k :| 0 <= k < |objs| && CommitsLate(clock, objs[k]);
      assert Least(times) <= times[k];
    }
  }

  /** Committing fails, with an invalid time, if an object in service answers 0; it comes to the earliest time
      committed to otherwise. */
  lemma CommitTimeMeans(clock: int, objs: seq<CommitObj>, commits: seq<int>)
    requires |commits| == |objs| && forall k :: 0 <= k < |objs| ==> CommitsTo(clock, objs[k], commits[k])
    ensures if exists k :: 0 <= k < |objs| && objs[k].inSvc <= clock <= objs[k].outSvc && objs[k].ret == 0
            then CommitTime(clock, objs) == TS_INVALID else Earliest(CommitTime(clock, objs), commits)
  {
    assert CommitTimes(clock, objs) == commits;
    LeastIsEarliest(commits);
    if k :| 0 <= k < |objs| && objs[k].inSvc <= clock <= objs[k].outSvc && objs[k].ret == 0 {
      assert CommitFails(clock, objs[k]);
    }
  }

  lemma StepIsAsked(g: Globals, clock: int, inp: MainLoop.Answers, times: seq<int>, step: int)
    requires 0 <= clock < TS_NEVER && Asked(g, clock, inp, times, step) && !ObjectsLate(clock, inp.objs)
    ensures Fold(EnvAt(g, clock), inp.objs).status.SUCCESS? && StepTime(g, clock, inp) == step
  {
    var env := EnvAt(g, clock);
    var internals := [inp.schedule, inp.loadshape, inp.transform, inp.enduse];
    ObjectsFailIff(env, inp.objs);
    StepTimeIsAsked(env, inp.objs, times);
    LeastIsEarliest(InternalTimes(inp));
    LeastIsEarliest(inp.transforms);
    EarliestConcat(Least(InternalTimes(inp)), Least(inp.transforms), internals, inp.transforms);
    EarliestConcat(Min(Least(InternalTimes(inp)), Least(inp.transforms)), Fold(env, inp.objs).stepTo,
                   internals + inp.transforms, times);
    EarliestUnique(StepTime(g, clock, inp), step, internals + inp.transforms + times);
  }

  /** A pass stops the run for exactly one of these reasons, in this order: an internal sync asks for a time not after
      the clock; an object in service asks for one before it; the clock is to move and an object in service commits
      with a time not after it, or fails; the clock is to stay and only one iteration is left. */
  lemma PassStopsIff(g: Globals, m: Loop, inp: MainLoop.Answers, times: seq<int>, step: int)
    requires 0 <= m.stepTo < TS_NEVER && Asked(g, m.stepTo, inp, times, step)
    ensures Pass(g, m, inp) == Stop(InternalSync) <==> InternalsLate(m.stepTo, inp)
    ensures Pass(g, m, inp) == Stop(ObjectSync) <==> !InternalsLate(m.stepTo, inp) && ObjectsLate(m.stepTo, inp.objs)
    ensures !InternalsLate(m.stepTo, inp) && !ObjectsLate(m.stepTo, inp.objs) ==>
              && (Pass(g, m, inp) == Stop(Commit) <==> step != m.stepTo && AnyCommitsLate(m.stepTo, inp.commits))
              && (Pass(g, m, inp) == Stop(Convergence) <==> step == m.stepTo && m.counter == 1)
  {
    InternalsLateIff(m.stepTo, inp);
    ObjectsFailIff(EnvAt(g, m.stepTo), inp.objs);
    CommitLateIff(m.stepTo, inp.commits);
    if !ObjectsLate(m.stepTo, inp.objs) { StepIsAsked(g, m.stepTo, inp, times, step); }
    Reasons(g, m, inp, InternalsLate(m.stepTo, inp), ObjectsLate(m.stepTo, inp.objs), step,
            AnyCommitsLate(m.stepTo, inp.commits));
  }

  /** The pass function, by what decides it. */
  lemma Reasons(g: Globals, m: Loop, inp: MainLoop.Answers, late: bool, failed: bool, step: int, uncommitted: bool)
    requires m.stepTo < TS_NEVER && late == (Least(InternalTimes(inp)) <= m.stepTo)
    requires failed == Fold(EnvAt(g, m.stepTo), inp.objs).status.FAILED?
    requires !failed ==> step == StepTime(g, m.stepTo, inp)
    requires uncommitted == (CommitTime(m.stepTo, inp.commits) <= m.stepTo)
    ensures Pass(g, m, inp) == Stop(InternalSync) <==> late
    ensures Pass(g, m, inp) == Stop(ObjectSync) <==> !late && failed
    ensures !late && !failed ==>
              && (Pass(g, m, inp) == Stop(Commit) <==> step != m.stepTo && uncommitted)
              && (Pass(g, m, inp) == Stop(Convergence) <==> step == m.stepTo && m.counter == 1)
  {
  }

  /** Otherwise the run goes on at the earliest time asked for, or committed to if the clock moves. Without a stop
      time it goes on only if some object asks for a hard event. */
  lemma PassGoesOn(g: Globals, m: Loop, inp: MainLoop.Answers, times: seq<int>, step: int, commits: seq<int>)
    requires 0 <= m.stepTo < TS_NEVER && Asked(g, m.stepTo, inp, times, step) && Pass(g, m, inp).Going?
    requires |commits| == |inp.commits|
    requires forall k :: 0 <= k < |commits| ==> CommitsTo(m.stepTo, inp.commits[k], commits[k])
    ensures var n := Pass(g, m, inp).m;
            && n.clock == m.stepTo && (step == m.stepTo ==> n.stepTo == step && n.counter == m.counter - 1)
            && (step != m.stepTo ==> Earliest(n.stepTo, commits + [step]) && n.counter == g.limit)
            && (0 < n.hardEvent <==>
                  g.stop != TS_NEVER || exists k :: 0 <= k < |inp.objs| && AsksHard(m.stepTo, inp.objs[k]))
  {
    PassStopsIff(g, m, inp, times, step);
    StepIsAsked(g, m.stepTo, inp, times, step);
    HardMeans(g, m, inp);
    if step != m.stepTo {
      assert CommitTimes(m.stepTo, inp.commits) == commits;
      LeastIsEarliest(commits);
      EarliestConcat(Least(commits), step, commits, [step]);
    }
  }

  lemma HardMeans(g: Globals, m: Loop, inp: MainLoop.Answers)
    requires 0 <= m.stepTo < TS_NEVER && Pass(g, m, inp).Going?
    ensures 0 < Pass(g, m, inp).m.hardEvent <==>
              g.stop != TS_NEVER || exists k :: 0 <= k < |inp.objs| && AsksHard(m.stepTo, inp.objs[k])
  {
    HardEventsIff(g, m, inp);
    forall k | 0 <= k < |inp.objs| ensures Hard(EnvAt(g, m.stepTo), inp.objs[k]) <==> AsksHard(m.stepTo, inp.objs[k]) {
      HardIff(EnvAt(g, m.stepTo), inp.objs[k]);
    }
  }

  // ---------------------------------------------------------------------------
  // Giving up
  // ---------------------------------------------------------------------------

  /** The first of the passes in a row that share the last clock value has the full count. */
  lemma RowStart(g: Globals, world: Oracle, clock: Time, ms: seq<Loop>) returns (i: nat)
    requires Trace(g, world, clock, ms)
    ensures i < |ms| && SameClock(ms, i, |ms| - 1) && ms[i].counter == g.limit
    ensures i > 0 ==> ms[i - 1].stepTo != ms[|ms| - 1].stepTo
  {
    var k := |ms| - 1;
    i := k;
    while i > 0 && ms[i - 1].stepTo == ms[k].stepTo
      invariant i <= k && SameClock(ms, i, k)
    {
      i := i - 1;
    }
    if i > 0 { TraceTick(g, world, clock, ms, i - 1); }
  }

  /** The run is given up for want of convergence exactly when as many passes in a row as the limit allows, with this
      one, were made at one clock value, and this one asks for it again. */
  lemma ConvergenceStopsIff(g: Globals, world: Oracle, clock: Time, ms: seq<Loop>, inp: MainLoop.Answers,
                            times: seq<int>, step: int)
    requires Trace(g, world, clock, ms) && 0 < g.limit
    requires var m := ms[|ms| - 1];
             inp == world(|ms| - 1, m.stepTo) && 0 <= m.stepTo < TS_NEVER && Asked(g, m.stepTo, inp, times, step)
    ensures var m := ms[|ms| - 1];
            Pass(g, m, inp) == Stop(Convergence) <==>
              && !InternalsLate(m.stepTo, inp) && !ObjectsLate(m.stepTo, inp.objs) && step == m.stepTo
              && g.limit <= |ms| && SameClock(ms, |ms| - g.limit, |ms| - 1)
  {
    var k := |ms| - 1;
    var i := RowStart(g, world, clock, ms);
    CounterCountsPasses(g, world, clock, ms, i, k);
    PassStopsIff(g, ms[k], inp, times, step);
    assert ms[k].counter == g.limit - (k - i);
  }
}
