/** What an object's answer does to a pass, in terms of its service dates, its answer and the clock alone. */
module ObjectLaws {
  import opened Sync
  import opened Slices
  import MainLoop

  predicate InService(clock: int, o: Obj) { o.inSvc <= clock <= o.outSvc }

  predicate PastService(clock: int, o: Obj) { o.inSvc <= clock && o.outSvc < clock }

  /** Times below -1 stand for their magnitude. */
  function Magnitude(t: int): int { if t < -1 then -t else t }

  // ---------------------------------------------------------------------------
  // Objects that are not in service
  // ---------------------------------------------------------------------------

  lemma FoldOne(env: Env, o: Obj)
    ensures Fold(env, [o]) == Join(Fresh, Contribution(env, o))
  {
    assert [o][..0] == [];
  }

  /** The record of a list, from those of the objects before one of them, of that one, and of those after. */
  lemma FoldAround(env: Env, a: seq<Obj>, o: Obj, b: seq<Obj>, c: SyncData)
    requires c == Contribution(env, o)
    ensures Fold(env, a + [o] + b) == Join(Join(Fold(env, a), Join(Fresh, c)), Fold(env, b))
  {
    FoldConcat(env, a + [o], b);
    FoldConcat(env, a, [o]);
    FoldOne(env, o);
  }

  lemma SameTimeAnnounced(env: Env, o: Obj, p: Obj, t: int, u: int)
    requires t == EventTime(env, o) && t == EventTime(env, p) && u == Announced(env, p)
    ensures Announced(env, o) == u
  {
  }

  /** An object past its service date changes nothing, wherever it is. */
  lemma PastServiceIgnored(env: Env, a: seq<Obj>, o: Obj, b: seq<Obj>)
    requires PastService(env.clock, o) && env.clock <= TS_NEVER
    ensures Fold(env, a + [o] + b) == Fold(env, a + b)
  {
    FoldAround(env, a, o, b, Fresh);
    FoldConcat(env, a, b);
  }

  /** An object not yet in service is as good as one in service that answers with the date. */
  lemma AwaitsService(env: Env, a: seq<Obj>, o: Obj, b: seq<Obj>, asked: Obj)
    requires env.clock < o.inSvc && InService(env.clock, asked) && asked.ret == o.inSvc
    ensures Fold(env, a + [o] + b) == Fold(env, a + [asked] + b)
  {
    SameTimeAnnounced(env, o, asked, EventTime(env, asked), Announced(env, asked));
    FoldAround(env, a, o, b, Contribution(env, asked));
    FoldAround(env, a, asked, b, Contribution(env, asked));
  }

  // ---------------------------------------------------------------------------
  // Soft events
  // ---------------------------------------------------------------------------

  /** An answer below -1 means its magnitude, except that it is no hard event. */
  lemma SoftEvent(env: Env, a: seq<Obj>, o: Obj, b: seq<Obj>)
    requires InService(env.clock, o) && o.ret < -1
    ensures var soft, hard := Fold(env, a + [o] + b), Fold(env, a + [o.(ret := -o.ret)] + b);
            && soft.stepTo == hard.stepTo && soft.status == hard.status
            && hard.hardEvent == soft.hardEvent + if -o.ret == TS_NEVER then 0 else 1
  {
    var p := o.(ret := -o.ret);
    var c, n := Contribution(env, p), if -o.ret == TS_NEVER then 0 else 1;
    SoftContribution(env, o, p, c, n);
    FoldAround(env, a, p, b, c);
    FoldAround(env, a, o, b, c.(hardEvent := c.hardEvent - n));
    FewerHard(Fold(env, a), c, Fold(env, b), n);
  }

  lemma SoftContribution(env: Env, o: Obj, p: Obj, c: SyncData, n: int)
    requires InService(env.clock, o) && o.ret < -1 && p == o.(ret := -o.ret)
    requires c == Contribution(env, p) && n == if -o.ret == TS_NEVER then 0 else 1
    ensures Contribution(env, o) == c.(hardEvent := c.hardEvent - n)
  {
    SameTimeAnnounced(env, o, p, -o.ret, Announced(env, p));
  }

  lemma FewerHard(x: SyncData, c: SyncData, y: SyncData, n: int)
    ensures var d := c.(hardEvent := c.hardEvent - n);
            Join(Join(x, Join(Fresh, d)), y)
            == Join(Join(x, Join(Fresh, c)), y).(hardEvent := Join(Join(x, Join(Fresh, c)), y).hardEvent - n)
  {
  }

  // ---------------------------------------------------------------------------
  // Failures, hard events and times
  // ---------------------------------------------------------------------------

  /** The object is in service and asks for a time before the clock. */
  predicate AnswersLate(clock: int, o: Obj) { InService(clock, o) && Magnitude(o.ret) < clock }

  lemma StopsIfLate(env: Env, o: Obj)
    requires 0 <= env.clock <= TS_NEVER
    ensures Stopped(env, o) <==> AnswersLate(env.clock, o)
  {
  }

  /** The objects fail a pass if and only if one in service asks for a time before the clock. */
  lemma ObjectsFailIff(env: Env, objs: seq<Obj>)
    requires 0 <= env.clock <= TS_NEVER
    ensures Fold(env, objs).status.FAILED? <==> exists k :: 0 <= k < |objs| && AnswersLate(env.clock, objs[k])
  {
    FoldFails(env, objs);
    forall k | 0 <= k < |objs| ensures Stopped(env, objs[k]) <==> AnswersLate(env.clock, objs[k]) {
      StopsIfLate(env, objs[k]);
    }
  }

  /** The object counts as a hard event: it waits for its in-service date, or asks for a time above -2, in either
      case not for never. */
  predicate AsksHard(clock: int, o: Obj)
  {
    if clock < o.inSvc then o.inSvc != TS_NEVER else o.outSvc >= clock && -1 <= o.ret && o.ret != TS_NEVER
  }

  lemma HardIff(env: Env, o: Obj)
    requires 0 <= env.clock <= TS_NEVER
    ensures Hard(env, o) <==> AsksHard(env.clock, o)
  {
  }

  /** As many hard events are counted as there are objects that ask for one. */
  lemma {:induction false} HardEventsCounted(env: Env, objs: seq<Obj>)
    requires 0 <= env.clock <= TS_NEVER
    ensures Fold(env, objs).hardEvent == |set k | 0 <= k < |objs| && AsksHard(env.clock, objs[k])|
    decreases |objs|
  {
    if objs != [] {
      var n := |objs| - 1;
      HardEventsCounted(env, objs[..n]);
      HardIff(env, objs[n]);
      OneMoreAsks(env.clock, objs);
    }
  }

  lemma OneMoreAsks(clock: int, objs: seq<Obj>)
    requires objs != []
    ensures var n := |objs| - 1;
            |set k | 0 <= k < |objs| && AsksHard(clock, objs[k])|
            == |set k | 0 <= k < n && AsksHard(clock, objs[..n][k])| + if AsksHard(clock, objs[n]) then 1 else 0
  {
    var n := |objs| - 1;
    var before := set k | 0 <= k < n && AsksHard(clock, objs[..n][k]);
    var all := set k | 0 <= k < |objs| && AsksHard(clock, objs[k]);
    assert all == before + if AsksHard(clock, objs[n]) then {n} else {};
  }

  /** r is the time the object asks for: its in-service date, the magnitude of its answer, or never; a later time
      than the clock's is put off to the next multiple of the minimum timestep. */
  ghost predicate AsksFor(env: Env, o: Obj, r: int)
  {
    var t := if env.clock < o.inSvc then o.inSvc else if o.outSvc < env.clock then TS_NEVER else Magnitude(o.ret);
    if 1 < env.minStep && env.clock < t < TS_NEVER then LeastMultipleFrom(r, t, env.minStep) else r == t
  }

  lemma AnnouncedIsAsked(env: Env, o: Obj)
    requires 0 <= env.clock
    ensures AsksFor(env, o, Announced(env, o))
  {
    if 1 < env.minStep && env.clock < EventTime(env, o) < TS_NEVER { AnnouncedIsLeast(env, o); }
  }

  lemma AsksForOne(env: Env, o: Obj, r: int, s: int)
    requires AsksFor(env, o, r) && AsksFor(env, o, s)
    ensures r == s
  {
  }

  /** If no object fails, the time that the objects' pass yields is the earliest they ask for. */
  lemma StepTimeIsAsked(env: Env, objs: seq<Obj>, times: seq<int>)
    requires 0 <= env.clock && Fold(env, objs).status.SUCCESS? && |times| == |objs|
    requires forall k :: 0 <= k < |objs| ==> AsksFor(env, objs[k], times[k])
    ensures MainLoop.Earliest(Fold(env, objs).stepTo, times)
  {
    MainLoop.FoldIsEarliest(env, objs);
    forall k | 0 <= k < |objs| ensures times[k] == MainLoop.ObjectTimes(env, objs)[k] {
      AnnouncedIsAsked(env, objs[k]);
      AsksForOne(env, objs[k], times[k], Announced(env, objs[k]));
    }
    assert times == MainLoop.ObjectTimes(env, objs);
  }
}
