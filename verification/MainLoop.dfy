/** The executive's main loop: what one pass does to the clock, and what follows for whole runs,
    with the answers of objects, internal syncs, transforms and commits left arbitrary. */
module MainLoop {
  import opened Sync
  import opened Slices

  const TS_INVALID: int := -1

  /** stop time, iteration limit and minimum timestep. */
  datatype Globals = Globals(stop: Time, limit: int, minStep: int)

  /** What an object's commit answers; 0 is a failure. */
  datatype CommitObj = CommitObj(inSvc: int, outSvc: int, ret: Time)

  /** Everything the outside world answers during one pass: the four internal syncs, the objects in
      the order they are visited, the transforms run after each of the three traversals, commits. */
  datatype Answers = Answers(schedule: Time, loadshape: Time, transform: Time, enduse: Time,
                             objs: seq<Obj>, transforms: seq<Time>, commits: seq<CommitObj>)

  /** What the outside world answers in pass k at clock c. */
  type Oracle = (nat, int) -> Answers

  /** The main loop's variables between passes. */
  datatype Loop = Loop(clock: int, stepTo: Time, hardEvent: int, counter: int)

  datatype Failure = InternalSync | ObjectSync | Commit | Convergence

  datatype Outcome = Going(m: Loop) | Stop(why: Failure)

  // ---------------------------------------------------------------------------
  // Earliest times
  // ---------------------------------------------------------------------------

  /** r is the earliest of the times, or TS_NEVER if none of them is before it. */
  ghost predicate Earliest(r: int, times: seq<int>)
  {
    && r <= TS_NEVER
    && (forall k :: 0 <= k < |times| ==> r <= times[k])
    && (r == TS_NEVER || r in times)
  }

  lemma EarliestUnique(r: int, s: int, times: seq<int>)
    requires Earliest(r, times) && Earliest(s, times)
    ensures r == s
  {
    if r != TS_NEVER { assert s <= r; }
    if s != TS_NEVER { assert r <= s; }
  }

  lemma EarliestConcat(r: int, s: int, a: seq<int>, b: seq<int>)
    requires Earliest(r, a) && Earliest(s, b)
    ensures Earliest(Min(r, s), a + b)
  {
    assert forall k :: 0 <= k < |b| ==> (a + b)[|a| + k] == b[k];
  }

  function Least(times: seq<Time>): Time
  {
    if times == [] then TS_NEVER else Min(Least(times[..|times| - 1]), times[|times| - 1])
  }

  lemma {:induction false} LeastIsEarliest(times: seq<Time>)
    ensures Earliest(Least(times), times)
    decreases |times|
  {
    if times != [] {
      var init := times[..|times| - 1];
      LeastIsEarliest(init);
      assert forall k :: 0 <= k < |init| ==> times[k] == init[k];
    }
  }

  // ---------------------------------------------------------------------------
  // The parts of a pass
  // ---------------------------------------------------------------------------

  function InternalTimes(inp: Answers): seq<Time>
  {
    [inp.schedule, inp.loadshape, inp.transform, inp.enduse]
  }

  /** Synchronising schedules, loadshapes, schedule transforms and end uses. */
  method SyncInternals(inp: Answers) returns (t2: Time)
    ensures Earliest(t2, InternalTimes(inp)) && t2 == Least(InternalTimes(inp))
  {
    t2 := TS_NEVER;
    if inp.schedule < t2 { t2 := inp.schedule; }
    if inp.loadshape < t2 { t2 := inp.loadshape; }
    if inp.transform < t2 { t2 := inp.transform; }
    if inp.enduse < t2 { t2 := inp.enduse; }
    LeastIsEarliest(InternalTimes(inp));
    EarliestUnique(t2, Least(InternalTimes(inp)), InternalTimes(inp));
  }

  predicate InService(t0: int, o: CommitObj) { o.inSvc <= t0 <= o.outSvc }

  predicate CommitFails(t0: int, o: CommitObj) { InService(t0, o) && CommitAnswer(o) == 0 }

  /** A commit that answers 1, the old convention for success, means no next event. */
  function CommitAnswer(o: CommitObj): Time { if o.ret == 1 then TS_NEVER else o.ret }

  /** The answers of the objects in service; the others are not asked. */
  function CommitTimes(t0: int, objs: seq<CommitObj>): seq<Time>
  {
    seq(|objs|, k requires 0 <= k < |objs| => if InService(t0, objs[k]) then CommitAnswer(objs[k]) else TS_NEVER)
  }

  predicate AnyCommitFails(t0: int, objs: seq<CommitObj>)
  {
    exists k :: 0 <= k < |objs| && CommitFails(t0, objs[k])
  }

  function CommitTime(t0: int, objs: seq<CommitObj>): Time
  {
    if AnyCommitFails(t0, objs) then TS_INVALID else Least(CommitTimes(t0, objs))
  }

  /** Committing all objects: the earliest answer, or TS_INVALID as soon as one of them fails. */
  method CommitAll(t0: int, objs: seq<CommitObj>) returns (min: Time)
    ensures AnyCommitFails(t0, objs) ==> min == TS_INVALID
    ensures !AnyCommitFails(t0, objs) ==> Earliest(min, CommitTimes(t0, objs))
    ensures min == CommitTime(t0, objs)
  {
    min := TS_NEVER;
    var times := CommitTimes(t0, objs);
    for k := 0 to |objs|
      invariant min == Least(times[..k])
      invariant forall j :: 0 <= j < k ==> !CommitFails(t0, objs[j])
    {
      assert times[..k + 1][..k] == times[..k];
      if InService(t0, objs[k]) {
        var curr := CommitAnswer(objs[k]);
        if curr == 0 {
          return TS_INVALID;
        } else if curr < min {
          min := curr;
        }
      }
    }
    assert times[..|objs|] == times;
    LeastIsEarliest(times);
  }

  // ---------------------------------------------------------------------------
  // One pass
  // ---------------------------------------------------------------------------

  predicate Running(g: Globals, m: Loop)
  {
    0 < m.counter && m.stepTo <= g.stop && m.stepTo < TS_NEVER && 0 < m.hardEvent
  }

  function EnvAt(g: Globals, clock: int): Env { Env(clock, g.minStep) }

  /** The step time before commits are asked. */
  function StepTime(g: Globals, clock: int, inp: Answers): Time
  {
    Min(Min(Least(InternalTimes(inp)), Least(inp.transforms)), Fold(EnvAt(g, clock), inp.objs).stepTo)
  }

  function HardCount(g: Globals, clock: int, inp: Answers): int
  {
    (if g.stop == TS_NEVER then 0 else 1) + Fold(EnvAt(g, clock), inp.objs).hardEvent
  }

  /** The end of a pass: commits if the clock moves, the iteration limit if it does not. */
  function Advanced(g: Globals, m: Loop, inp: Answers, step: Time, hardEvent: int): Outcome
  {
    var clock := m.stepTo;
    if step != clock then
      var commit := CommitTime(clock, inp.commits);
      if commit <= clock then Stop(Commit) else Going(Loop(clock, Min(step, commit), hardEvent, g.limit))
    else if m.counter - 1 == 0 then Stop(Convergence)
    else Going(Loop(clock, step, hardEvent, m.counter - 1))
  }

  function Pass(g: Globals, m: Loop, inp: Answers): Outcome
  {
    var clock := m.stepTo;
    var t := Least(InternalTimes(inp));
    if t != TS_NEVER && t <= clock then Stop(InternalSync)
    else if Fold(EnvAt(g, clock), inp.objs).status.FAILED? then Stop(ObjectSync)
    else Advanced(g, m, inp, StepTime(g, clock, inp), HardCount(g, clock, inp))
  }

  /** The times objects announce, rounded to the minimum timestep, in visiting order. */
  function ObjectTimes(env: Env, objs: seq<Obj>): seq<int>
  {
    seq(|objs|, k requires 0 <= k < |objs| => Announced(env, objs[k]))
  }

  lemma {:induction false} FoldIsEarliest(env: Env, objs: seq<Obj>)
    requires Fold(env, objs).status.SUCCESS?
    ensures Earliest(Fold(env, objs).stepTo, ObjectTimes(env, objs))
    decreases |objs|
  {
    if objs != [] {
      var init := objs[..|objs| - 1];
      FoldLast(env, objs);
      FoldIsEarliest(env, init);
      OneMoreTime(env, objs, Fold(env, init).stepTo);
    }
  }

  lemma OneMoreTime(env: Env, objs: seq<Obj>, r: int)
    requires objs != [] && Earliest(r, ObjectTimes(env, objs[..|objs| - 1]))
    ensures Earliest(Min(r, Min(TS_NEVER, Announced(env, objs[|objs| - 1]))), ObjectTimes(env, objs))
  {
    var times := ObjectTimes(env, objs);
    assert times[..|objs| - 1] == ObjectTimes(env, objs[..|objs| - 1]);
    EarliestSnoc(r, times);
  }

  lemma FoldLast(env: Env, objs: seq<Obj>)
    requires objs != [] && Fold(env, objs).status.SUCCESS?
    ensures Fold(env, objs[..|objs| - 1]).status.SUCCESS?
    ensures Fold(env, objs).stepTo
            == Min(Fold(env, objs[..|objs| - 1]).stepTo, Min(TS_NEVER, Announced(env, objs[|objs| - 1])))
  {
  }

  lemma EarliestSnoc(r: int, times: seq<int>)
    requires times != [] && Earliest(r, times[..|times| - 1])
    ensures Earliest(Min(r, Min(TS_NEVER, times[|times| - 1])), times)
  {
    assert forall k :: 0 <= k < |times| - 1 ==> times[k] == times[..|times| - 1][k];
  }

  /** The times announced before commits are asked. */
  function StepTimes(g: Globals, clock: int, inp: Answers): seq<int>
  {
    InternalTimes(inp) + inp.transforms + ObjectTimes(EnvAt(g, clock), inp.objs)
  }

  lemma StepTimeIsEarliest(g: Globals, clock: int, inp: Answers)
    requires Fold(EnvAt(g, clock), inp.objs).status.SUCCESS?
    ensures Earliest(StepTime(g, clock, inp), StepTimes(g, clock, inp))
  {
    var env := EnvAt(g, clock);
    var a, b := Least(InternalTimes(inp)), Least(inp.transforms);
    LeastIsEarliest(InternalTimes(inp));
    LeastIsEarliest(inp.transforms);
    EarliestConcat(a, b, InternalTimes(inp), inp.transforms);
    FoldIsEarliest(env, inp.objs);
    var times := InternalTimes(inp) + inp.transforms;
    EarliestConcat(Min(a, b), Fold(env, inp.objs).stepTo, times, ObjectTimes(env, inp.objs));
  }

  /** The clock never passes an announced event and never stops where nothing was announced: the next
      clock value is exactly the earliest time announced by an internal sync, a transform, an object
      (after rounding) or, if the clock is to move, a commit. */
  lemma NextClockIsEarliest(g: Globals, m: Loop, inp: Answers)
    requires 0 <= m.stepTo && Pass(g, m, inp).Going?
    ensures var clock := m.stepTo;
            var commits := if StepTime(g, clock, inp) == clock then [] else CommitTimes(clock, inp.commits);
            Earliest(Pass(g, m, inp).m.stepTo, StepTimes(g, clock, inp) + commits)
  {
    var clock := m.stepTo;
    StepTimeIsEarliest(g, clock, inp);
    if StepTime(g, clock, inp) == clock {
      assert StepTimes(g, clock, inp) + [] == StepTimes(g, clock, inp);
    } else {
      LeastIsEarliest(CommitTimes(clock, inp.commits));
      EarliestConcat(StepTime(g, clock, inp), CommitTime(clock, inp.commits),
                     StepTimes(g, clock, inp), CommitTimes(clock, inp.commits));
    }
  }

  predicate TransformsOK(clock: int, inp: Answers)
  {
    forall k :: 0 <= k < |inp.transforms| ==> clock <= inp.transforms[k]
  }

  lemma ObjectTimesLater(g: Globals, clock: int, objs: seq<Obj>)
    requires 0 <= clock < TS_NEVER && Fold(EnvAt(g, clock), objs).status.SUCCESS?
    ensures clock <= Fold(EnvAt(g, clock), objs).stepTo
    decreases |objs|
  {
    if objs != [] {
      FoldLast(EnvAt(g, clock), objs);
      ObjectTimesLater(g, clock, objs[..|objs| - 1]);
      AnnouncedLater(EnvAt(g, clock), objs[|objs| - 1]);
      LastNotStopped(EnvAt(g, clock), objs);
    }
  }

  lemma LastNotStopped(env: Env, objs: seq<Obj>)
    requires objs != [] && Fold(env, objs).status.SUCCESS?
    ensures !Stopped(env, objs[|objs| - 1])
  {
  }

  lemma AnnouncedLater(env: Env, o: Obj)
    requires 0 <= env.clock
    ensures !Stopped(env, o) ==> env.clock <= Announced(env, o)
  {
    var t := EventTime(env, o);
    if 1 < env.minStep && env.clock < t < TS_NEVER { RoundUpExactIff(t, env.minStep); }
  }

  /** Objects, internal syncs and commits are checked against the clock; transforms are not. After a
      pass that does not stop the run, the clock does not go back if and only if no transform
      answered with a time in the past. */
  lemma ClockMonotoneIff(g: Globals, m: Loop, inp: Answers)
    requires 0 <= m.stepTo < TS_NEVER && Pass(g, m, inp).Going?
    ensures m.stepTo <= Pass(g, m, inp).m.stepTo <==> TransformsOK(m.stepTo, inp)
  {
    var clock := m.stepTo;
    ObjectTimesLater(g, clock, inp.objs);
    LeastIsEarliest(inp.transforms);
    if TransformsOK(clock, inp) {
      assert clock <= Least(inp.transforms);
    } else {
      var k :| 0 <= k < |inp.transforms| && inp.transforms[k] < clock;
      assert Least(inp.transforms) <= inp.transforms[k];
    }
  }

  /** A pass that moves the clock refills the counter; a pass that does not uses one unit of it. */
  lemma Tick(g: Globals, m: Loop, inp: Answers, n: Loop)
    requires Pass(g, m, inp) == Going(n)
    ensures n.clock == m.stepTo
    ensures n.stepTo == m.stepTo ==> n.counter == m.counter - 1 != 0
    ensures n.stepTo != m.stepTo ==> n.counter == g.limit
  {
  }

  /** With a finite stop time the loop never ends for lack of hard events; without one, it goes on
      only if some object announced a hard event. */
  lemma HardEventsIff(g: Globals, m: Loop, inp: Answers)
    requires Pass(g, m, inp).Going?
    ensures 0 < Pass(g, m, inp).m.hardEvent <==> g.stop != TS_NEVER || AnyHard(EnvAt(g, m.stepTo), inp.objs)
  {
    HardCounts(EnvAt(g, m.stepTo), inp.objs);
  }

  predicate AnyHard(env: Env, objs: seq<Obj>) { exists k :: 0 <= k < |objs| && Hard(env, objs[k]) }

  lemma {:induction false} HardCounts(env: Env, objs: seq<Obj>)
    ensures 0 <= Fold(env, objs).hardEvent
    ensures 0 < Fold(env, objs).hardEvent <==> AnyHard(env, objs)
    decreases |objs|
  {
    if objs != [] {
      var init := objs[..|objs| - 1];
      HardCounts(env, init);
      LastHard(env, objs);
    }
  }

  lemma LastHard(env: Env, objs: seq<Obj>)
    requires objs != []
    ensures AnyHard(env, objs) <==> AnyHard(env, objs[..|objs| - 1]) || Hard(env, objs[|objs| - 1])
  {
    var init := objs[..|objs| - 1];
    if AnyHard(env, objs) {
      var k :| 0 <= k < |objs| && Hard(env, objs[k]);
      if k < |init| { assert Hard(env, init[k]); }
    }
    if AnyHard(env, init) {
      var k :| 0 <= k < |init| && Hard(env, init[k]);
      assert Hard(env, objs[k]);
    }
  }

  // ---------------------------------------------------------------------------
  // Whole runs
  // ---------------------------------------------------------------------------

  function Start(g: Globals, clock: Time): Loop { Loop(clock, clock, 1, g.limit) }

  /** The loop's variables before the first pass, after the first, and so on. */
  ghost predicate Trace(g: Globals, world: Oracle, clock: Time, ms: seq<Loop>)
  {
    && |ms| > 0
    && ms[0] == Start(g, clock)
    && forall k :: 0 <= k < |ms| - 1 ==>
         Running(g, ms[k]) && Pass(g, ms[k], world(k, ms[k].stepTo)) == Going(ms[k + 1])
  }

  /** No transform ever answers with a time in the past. */
  ghost predicate Honest(world: Oracle)
  {
    forall k: nat, c: int :: TransformsOK(c, world(k, c))
  }

  /** None did in these passes. */
  ghost predicate HonestSoFar(world: Oracle, ms: seq<Loop>)
  {
    forall k :: 0 <= k < |ms| - 1 ==> HonestAt(world, ms, k)
  }

  ghost predicate HonestAt(world: Oracle, ms: seq<Loop>, k: nat)
    requires k < |ms|
  {
    TransformsOK(ms[k].stepTo, world(k, ms[k].stepTo))
  }

  lemma HonestWorld(world: Oracle, ms: seq<Loop>)
    requires Honest(world)
    ensures HonestSoFar(world, ms)
  {
  }

  lemma TraceTick(g: Globals, world: Oracle, clock: Time, ms: seq<Loop>, k: nat)
    requires Trace(g, world, clock, ms) && k + 1 < |ms|
    ensures Running(g, ms[k]) && ms[k + 1].clock == ms[k].stepTo
    ensures ms[k + 1].stepTo == ms[k].stepTo ==> ms[k + 1].counter == ms[k].counter - 1 > 0
    ensures ms[k + 1].stepTo != ms[k].stepTo ==> ms[k + 1].counter == g.limit
    ensures 0 <= ms[k].stepTo ==> (ms[k].stepTo <= ms[k + 1].stepTo <==> HonestAt(world, ms, k))
  {
    Tick(g, ms[k], world(k, ms[k].stepTo), ms[k + 1]);
    if 0 <= ms[k].stepTo { ClockMonotoneIff(g, ms[k], world(k, ms[k].stepTo)); }
  }

  lemma {:induction false} ClockAscends(g: Globals, world: Oracle, clock: Time, ms: seq<Loop>, i: nat, j: nat)
    requires Trace(g, world, clock, ms) && HonestSoFar(world, ms) && 0 <= clock && i <= j < |ms|
    ensures clock <= ms[i].stepTo <= ms[j].stepTo
    decreases j
  {
    if 0 < j {
      ClockAscends(g, world, clock, ms, if i < j then i else j - 1, j - 1);
      assert HonestAt(world, ms, j - 1);
      TraceTick(g, world, clock, ms, j - 1);
    }
  }

  ghost predicate NeverBack(ms: seq<Loop>)
  {
    forall k :: 0 <= k < |ms| - 1 ==> ms[k].stepTo <= ms[k + 1].stepTo
  }

  /** Over a whole run the clock never goes back if and only if no transform answered with a time in the
      past. */
  lemma NeverBackIff(g: Globals, world: Oracle, clock: Time, ms: seq<Loop>)
    requires Trace(g, world, clock, ms) && 0 <= clock
    ensures NeverBack(ms) <==> HonestSoFar(world, ms)
  {
    if HonestSoFar(world, ms) {
      forall k | 0 <= k < |ms| - 1 ensures ms[k].stepTo <= ms[k + 1].stepTo {
        ClockAscends(g, world, clock, ms, k, k + 1);
      }
    }
    if NeverBack(ms) {
      forall k | 0 <= k < |ms| - 1 ensures HonestAt(world, ms, k) {
        StaysAbove(clock, ms, k);
        TraceTick(g, world, clock, ms, k);
      }
    }
  }

  lemma {:induction false} StaysAbove(clock: Time, ms: seq<Loop>, k: nat)
    requires k < |ms| && ms[0].stepTo == clock && NeverBack(ms)
    ensures clock <= ms[k].stepTo
  {
    if k > 0 {
      StaysAbove(clock, ms, k - 1);
      assert ms[k - 1].stepTo <= ms[k - 1 + 1].stepTo;
    }
  }

  /** The clock starts where it was and never passes the stop time. */
  lemma ClockStops(g: Globals, world: Oracle, clock: Time, ms: seq<Loop>, j: nat)
    requires Trace(g, world, clock, ms) && j < |ms|
    ensures ms[0].clock == clock
    ensures j > 0 ==> ms[j].clock <= g.stop
  {
    if 0 < j { TraceTick(g, world, clock, ms, j - 1); }
  }

  /** Whole-run clock safety: unless a transform answered with a time in the past, the clock of a pass is
      never before that of an earlier one, and it never passes the stop time. */
  lemma ClockSafety(g: Globals, world: Oracle, clock: Time, ms: seq<Loop>, i: nat, j: nat)
    requires Trace(g, world, clock, ms) && HonestSoFar(world, ms) && 0 <= clock && i <= j < |ms|
    ensures ms[i].clock <= ms[j].clock
    ensures j > 0 ==> ms[j].clock <= g.stop
  {
    ClockStops(g, world, clock, ms, j);
    if 0 < j {
      ClockAscends(g, world, clock, ms, 0, j - 1);
      TraceTick(g, world, clock, ms, j - 1);
      if 0 < i {
        ClockAscends(g, world, clock, ms, i - 1, j - 1);
        TraceTick(g, world, clock, ms, i - 1);
      }
    }
  }

  /** From i to j the next clock value does not change. */
  ghost predicate SameClock(ms: seq<Loop>, i: nat, j: nat)
    requires j < |ms|
  {
    forall k :: i <= k <= j ==> ms[k].stepTo == ms[j].stepTo
  }

  lemma {:induction false} CounterCountsPasses(g: Globals, world: Oracle, clock: Time, ms: seq<Loop>, i: nat, j: nat)
    requires Trace(g, world, clock, ms) && i <= j < |ms| && SameClock(ms, i, j)
    ensures ms[j].counter == ms[i].counter - (j - i) && (i < j ==> 0 < ms[j].counter)
    decreases j - i
  {
    if i < j {
      assert ms[j - 1].stepTo == ms[j].stepTo;
      CounterCountsPasses(g, world, clock, ms, i, j - 1);
      TraceTick(g, world, clock, ms, j - 1);
    }
  }

  lemma {:induction false} CounterWithinLimit(g: Globals, world: Oracle, clock: Time, ms: seq<Loop>, i: nat)
    requires Trace(g, world, clock, ms) && i < |ms|
    ensures ms[i].counter <= g.limit
    decreases i
  {
    if 0 < i {
      CounterWithinLimit(g, world, clock, ms, i - 1);
      TraceTick(g, world, clock, ms, i - 1);
    }
  }

  /** Whatever transforms answer, at most `limit` passes in a row share one clock value. */
  lemma PassesPerClock(g: Globals, world: Oracle, clock: Time, ms: seq<Loop>, i: nat, j: nat)
    requires Trace(g, world, clock, ms) && i < j < |ms| && SameClock(ms, i, j)
    ensures j - i < g.limit
  {
    CounterCountsPasses(g, world, clock, ms, i, j);
    CounterWithinLimit(g, world, clock, ms, i);
  }

  /** Unless a transform answered with a time in the past, passes that share a clock value are in a row. */
  lemma SharedClockInARow(g: Globals, world: Oracle, clock: Time, ms: seq<Loop>, i: nat, j: nat)
    requires Trace(g, world, clock, ms) && HonestSoFar(world, ms) && 0 <= clock && i <= j < |ms|
    requires ms[i].stepTo == ms[j].stepTo
    ensures SameClock(ms, i, j)
  {
    forall k | i <= k <= j ensures ms[k].stepTo == ms[j].stepTo {
      ClockAscends(g, world, clock, ms, i, k);
      ClockAscends(g, world, clock, ms, k, j);
    }
  }

  /** The last clock value the loop can run at. */
  function Last(g: Globals): int { Min(g.stop, TS_NEVER - 1) }

  function Potential(g: Globals, m: Loop): int { (Last(g) - m.stepTo) * g.limit + m.counter }

  lemma PotentialDrops(g: Globals, m: Loop, n: Loop)
    requires 0 < m.counter <= g.limit
    requires if n.stepTo == m.stepTo then n.counter == m.counter - 1 else m.stepTo < n.stepTo && n.counter == g.limit
    ensures Potential(g, n) < Potential(g, m)
  {
    if m.stepTo < n.stepTo {
      ProductStep(Last(g) - n.stepTo, Last(g) - m.stepTo - 1, g.limit);
      ProductStep(Last(g) - m.stepTo - 1, Last(g) - m.stepTo - 1, g.limit);
    }
  }

  lemma {:induction false} PotentialAfter(g: Globals, world: Oracle, clock: Time, ms: seq<Loop>, i: nat)
    requires Trace(g, world, clock, ms) && HonestSoFar(world, ms) && 0 <= clock && i < |ms|
    ensures Potential(g, ms[i]) + i <= Potential(g, ms[0])
    decreases i
  {
    if 0 < i {
      PotentialAfter(g, world, clock, ms, i - 1);
      CounterWithinLimit(g, world, clock, ms, i - 1);
      ClockAscends(g, world, clock, ms, i - 1, i);
      TraceTick(g, world, clock, ms, i - 1);
      PotentialDrops(g, ms[i - 1], ms[i]);
    }
  }

  lemma PotentialPositive(g: Globals, m: Loop)
    requires Running(g, m) && m.counter <= g.limit
    ensures 0 < Potential(g, m)
  {
    ProductStep(0, Last(g) - m.stepTo, g.limit);
  }

  lemma PotentialAtStart(g: Globals, clock: Time)
    ensures Potential(g, Start(g, clock)) == g.limit * (Last(g) - clock + 1)
  {
    assert g.limit * (Last(g) - clock + 1) == (Last(g) - clock) * g.limit + g.limit;
  }

  /** Every run is finite, with at most limit * (stop - start + 1) passes, whatever the answers; a
      further pass that stops the run is included in the bound. */
  lemma TotalPasses(g: Globals, world: Oracle, clock: Time, ms: seq<Loop>)
    requires Trace(g, world, clock, ms) && HonestSoFar(world, ms) && 0 <= clock
    ensures Running(g, ms[|ms| - 1]) ==> |ms| <= g.limit * (Last(g) - clock + 1)
    ensures |ms| > 1 ==> |ms| - 1 <= g.limit * (Last(g) - clock + 1)
  {
    var k := if Running(g, ms[|ms| - 1]) then |ms| - 1 else |ms| - 2;
    if 0 <= k {
      PotentialAfter(g, world, clock, ms, k);
      CounterWithinLimit(g, world, clock, ms, k);
      PotentialPositive(g, ms[k]);
      PotentialAtStart(g, clock);
    }
  }

  // ---------------------------------------------------------------------------
  // The loop itself
  // ---------------------------------------------------------------------------

  /** One thread visiting a list: its objects go to slot 0. */
  method SyncListAlone(data: array<SyncData>, env: Env, objs: seq<Obj>)
    requires 0 < data.Length
    modifies data
    ensures data[0] == Join(old(data[0]), Fold(env, objs))
    ensures forall n :: 0 < n < data.Length ==> data[n] == old(data[n])
  {
    SyncSlice(data, 0, env, objs, Slice(0, |objs|));
    assert Part(objs, Slice(0, |objs|)) == objs;
    assert forall n :: 0 <= n < data.Length ==> data[n] == data[..][n];
  }

  /** Transforms can only bring the step closer. */
  method RunTransforms(step: Time, transforms: seq<Time>) returns (earlier: Time)
    ensures earlier == Min(step, Least(transforms))
  {
    earlier := step;
    for i := 0 to |transforms|
      invariant earlier == Min(step, Least(transforms[..i]))
    {
      assert transforms[..i + 1][..i] == transforms[..i];
      if transforms[i] < earlier { earlier := transforms[i]; }
    }
    assert transforms[..|transforms|] == transforms;
  }

  lemma OneSlot(d: SyncData)
    ensures JoinAll([d]) == d
  {
    assert [d][..0] == [];
  }

  /** Resetting the slot and visiting the objects, with one thread. */
  method SyncFromReset(data: array<SyncData>, env: Env, objs: seq<Obj>)
    requires data.Length == 1
    modifies data
    ensures data[0] == Fold(env, objs)
  {
    data[0] := Fresh;
    SyncListAlone(data, env, objs);
    JoinFresh(Fold(env, objs));
  }

  /** No slot reports a failure exactly if their merge does not. */
  method NoFailure(data: array<SyncData>, ghost total: SyncData) returns (ok: bool)
    requires JoinAll(data[..]) == total
    ensures ok <==> total.status.SUCCESS?
  {
    ok := CheckStatus(data);
    AllSucceededJoins(data[..]);
  }

  method MergeTotal(sync: SyncData, data: array<SyncData>, ghost total: SyncData) returns (merged: SyncData)
    requires JoinAll(data[..]) == total
    ensures merged.stepTo == Min(sync.stepTo, total.stepTo)
    ensures merged.hardEvent == sync.hardEvent + total.hardEvent
  {
    merged := MergeThreads(sync, data);
  }

  /** What follows the visits, whatever the number of threads: if the slots merge to what one thread would
      have collected, the rest of the pass comes out as the pass function says. */
  method FinishPass(g: Globals, m: Loop, inp: Answers, step: Time, data: array<SyncData>, ghost total: SyncData)
    returns (o: Outcome)
    requires step == Least(InternalTimes(inp)) && !(step != TS_NEVER && step <= m.stepTo)
    requires JoinAll(data[..]) == total == Fold(EnvAt(g, m.stepTo), inp.objs)
    ensures o == Pass(g, m, inp)
  {
    var ok := NoFailure(data, total);
    if !ok { return Stop(ObjectSync); }
    var earlier := RunTransforms(step, inp.transforms);
    var sync := MergeTotal(SyncData(earlier, if g.stop == TS_NEVER then 0 else 1, SUCCESS), data, total);
    o := Advance(g, m, inp, sync);
  }

  /** The clock advances or the iteration is counted. */
  method Advance(g: Globals, m: Loop, inp: Answers, sync: SyncData) returns (o: Outcome)
    ensures o == Advanced(g, m, inp, sync.stepTo, sync.hardEvent)
  {
    var now := m.stepTo;
    if sync.stepTo != now {
      var commit := CommitAll(now, inp.commits);
      if commit <= now { return Stop(Commit); }
      return Going(Loop(now, if commit < sync.stepTo then commit else sync.stepTo, sync.hardEvent, g.limit));
    } else {
      var counter := m.counter - 1;
      if counter == 0 { return Stop(Convergence); }
      return Going(Loop(now, sync.stepTo, sync.hardEvent, counter));
    }
  }

  /** The body of the main loop, with one thread. */
  method RunPass(g: Globals, m: Loop, inp: Answers, data: array<SyncData>) returns (o: Outcome)
    requires data.Length == 1
    modifies data
    ensures o == Pass(g, m, inp)
  {
    var step := SyncInternals(inp);
    if step != TS_NEVER && step <= m.stepTo { return Stop(InternalSync); }
    SyncFromReset(data, EnvAt(g, m.stepTo), inp.objs);
    assert data[..] == [data[0]];
    OneSlot(data[0]);
    o := FinishPass(g, m, inp, step, data, data[0]);
  }

  lemma TraceExtends(g: Globals, world: Oracle, clock: Time, ms: seq<Loop>, n: Loop)
    requires Trace(g, world, clock, ms)
    requires var k := |ms| - 1; Running(g, ms[k]) && Pass(g, ms[k], world(k, ms[k].stepTo)) == Going(n)
    ensures Trace(g, world, clock, ms + [n])
  {
  }

  /** The main loop ends, and what it leaves is the end of a trace. It ends well exactly if the next step is after the
      stop time or never, or no hard event is left; otherwise the next pass stops the run. Unless the start is after
      the stop time, it does not end well before a pass was made. */
  method ExecStart(g: Globals, world: Oracle, clock: Time) returns (status: Status, m: Loop, ghost ms: seq<Loop>)
    requires 0 <= clock && Honest(world)
    ensures Trace(g, world, clock, ms) && m == ms[|ms| - 1]
    ensures 0 < g.limit ==>
      (status.SUCCESS? <==> g.stop < m.stepTo || m.stepTo == TS_NEVER || m.hardEvent <= 0)
    ensures status.FAILED? ==> Pass(g, m, world(|ms| - 1, m.stepTo)).Stop?
    ensures status.SUCCESS? && |ms| == 1 ==> g.limit <= 0 || g.stop < clock || clock == TS_NEVER
  {
    m := Start(g, clock);
    ms := [m];
    var data := new SyncData[1](_ => Fresh);
    var k := 0;
    while Running(g, m)
      invariant k == |ms| - 1 && Trace(g, world, clock, ms) && m == ms[k]
      invariant 0 < g.limit ==> 0 < m.counter
      decreases TS_NEVER - m.stepTo, m.counter
    {
      HonestWorld(world, ms);
      ClockAscends(g, world, clock, ms, 0, k);
      var o := RunPass(g, m, world(k, m.stepTo), data);
      if o.Stop? { return FAILED, m, ms; }
      Tick(g, m, world(k, m.stepTo), o.m);
      ClockMonotoneIff(g, m, world(k, m.stepTo));
      TraceExtends(g, world, clock, ms, o.m);
      m := o.m;
      ms := ms + [m];
      k := k + 1;
    }
    return SUCCESS, m, ms;
  }

  // ---------------------------------------------------------------------------
  // What an unchecked transform can do
  // ---------------------------------------------------------------------------

  /** A schedule that always answers 5 and, at clock 5, a transform that answers 4. */
  function Dishonest(k: nat, c: int): Answers
  {
    if c == 5 then Answers(TS_NEVER, TS_NEVER, TS_NEVER, TS_NEVER, [], [4], [])
    else Answers(5, TS_NEVER, TS_NEVER, TS_NEVER, [], [], [])
  }

  /** Without the assumption on transforms the loop need not end: with this transform the clock
      alternates between 5 and 4 through any number of passes, stop time 10, and is still running. */
  lemma {:induction false} PastTransformRunsForever(n: nat, limit: int) returns (ms: seq<Loop>)
    requires 0 < limit
    ensures |ms| == n + 1 && Trace(Globals(10, limit, 1), Dishonest, 5, ms)
    ensures Running(Globals(10, limit, 1), ms[n])
    ensures ms[n].stepTo == if n % 2 == 0 then 5 else 4
    ensures 0 < n && n % 2 == 1 ==> ms[n].stepTo < ms[n].clock
    decreases n
  {
    var g := Globals(10, limit, 1);
    if n == 0 {
      ms := [Start(g, 5)];
    } else {
      var init := PastTransformRunsForever(n - 1, limit);
      var m := init[n - 1];
      var inp := Dishonest(n - 1, m.stepTo);
      assert Least([]) == TS_NEVER && Least([4]) == 4;
      assert Least(InternalTimes(inp)) == if m.stepTo == 5 then TS_NEVER else 5 by {
        LeastIsEarliest(InternalTimes(inp));
        EarliestUnique(Least(InternalTimes(inp)), if m.stepTo == 5 then TS_NEVER else 5, InternalTimes(inp));
      }
      ms := init + [Pass(g, m, inp).m];
    }
  }
}
