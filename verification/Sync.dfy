/** Synchronising one object: the sync_data record, the arithmetic of event times and the
    algebra that lets results of different threads be merged. */
module Sync {

  const TS_NEVER: int := 0x7FFF_FFFF_FFFF_FFFF

  datatype Status = SUCCESS | FAILED

  /** A TIMESTAMP never exceeds the largest 64-bit value. */
  type Time = t: int | t <= TS_NEVER witness 0

  /** What one thread (or the main loop) accumulates during a pass. */
  datatype SyncData = SyncData(stepTo: Time, hardEvent: int, status: Status)

  /** An object as the executive sees it; `ret` is what object_sync answers when asked. */
  datatype Obj = Obj(inSvc: int, outSvc: int, ret: int)

  /** The globals an object's synchronisation reads. */
  datatype Env = Env(clock: int, minStep: int)

  const Fresh: SyncData := SyncData(TS_NEVER, 0, SUCCESS)

  function Min(a: int, b: int): int { if b < a then b else a }

  // ---------------------------------------------------------------------------
  // Event times
  // ---------------------------------------------------------------------------

  /** C integer division, which truncates toward zero. */
  function CDiv(a: int, b: int): int
    requires 0 < b
  {
    if 0 <= a then a / b else -((-a) / b)
  }

  /** The minimum-timestep rounding of the executive. */
  function RoundUp(t: int, g: int): int
    requires 0 < g
  {
    (CDiv(t - 1, g) + 1) * g
  }

  /** The rounding the test loop and the debugger use instead. */
  function RoundPast(t: int, g: int): int
    requires 0 < g
  {
    (CDiv(t, g) + 1) * g
  }

  predicate Multiple(m: int, g: int)
    requires 0 < g
  {
    m % g == 0
  }

  ghost predicate LeastMultipleFrom(r: int, t: int, g: int)
    requires 0 < g
  {
    t <= r && Multiple(r, g) && forall m :: t <= m && Multiple(m, g) ==> r <= m
  }

  lemma MulStep(j: int, k: int, g: int)
    requires 0 < g && j < k
    ensures j * g + g <= k * g
  {
    calc {
      j * g + g;
    ==
      (j + 1) * g;
    <=
      k * g;
    }
  }

  /** Euclidean division determines quotient and remainder. */
  lemma DivUnique(m: int, g: int, q: int, r: int)
    requires 0 < g && m == q * g + r && 0 <= r < g
    ensures m / g == q && m % g == r
  {
    var p := m / g;
    assert m == p * g + m % g;
    if p < q { MulStep(p, q, g); } else if q < p { MulStep(q, p, g); }
  }

  /** A multiple of g in a window of length g starting at t is the least one from t on. */
  lemma LeastInWindow(k: int, t: int, g: int)
    requires 0 < g && t <= k * g < t + g
    ensures LeastMultipleFrom(k * g, t, g)
  {
    DivUnique(k * g, g, k, 0);
    forall m | t <= m && Multiple(m, g) ensures k * g <= m {
      assert m == (m / g) * g;
      if m / g < k { MulStep(m / g, k, g); }
    }
  }

  /** q + 1 steps of g, with the product expanded. */
  function Step(q: int, g: int): (k: int)
    ensures k == q + 1 && k * g == q * g + g
  {
    q + 1
  }

  /** For t <= 0, with 1 - t = q*g + r, truncation yields (1-q)*g, which overshoots unless r is zero. */
  lemma RoundUpNegative(t: int, g: int)
    requires 0 < g && t <= 0
    ensures LeastMultipleFrom(RoundUp(t, g), t, g) <==> Multiple(t - 1, g)
  {
    var s := 1 - t;
    var q, r := s / g, s % g;
    assert s == q * g + r;
    var k := Step(-q, g);
    assert (-q) * g == -(q * g);
    assert RoundUp(t, g) == k * g;
    if r == 0 {
      DivUnique(t - 1, g, -q, 0);
      LeastInWindow(k, t, g);
    } else {
      DivUnique(t - 1, g, -q - 1, g - r) by { assert (-q - 1) * g == -(q * g) - g; }
      DivUnique((-q) * g, g, -q, 0);
      assert t <= (-q) * g < k * g && Multiple((-q) * g, g);
    }
  }

  /** The executive rounds to the least multiple of the minimum timestep not before t exactly when
      t is positive or t-1 is itself a multiple: truncation toward zero spoils the rest. */
  lemma RoundUpExactIff(t: int, g: int)
    requires 0 < g
    ensures LeastMultipleFrom(RoundUp(t, g), t, g) <==> 1 <= t || Multiple(t - 1, g)
  {
    if 1 <= t {
      var q := (t - 1) / g;
      LeastInWindow(Step(q, g), t, g);
    } else {
      RoundUpNegative(t, g);
    }
  }

  /** For the times the executive rounds, the two roundings agree except on exact multiples,
      where the test loop and the debugger go one whole timestep further. */
  lemma RoundingsDiffer(t: int, g: int)
    requires 0 < g && 1 <= t
    ensures RoundPast(t, g) == if Multiple(t, g) then RoundUp(t, g) + g else RoundUp(t, g)
    ensures RoundPast(t, g) != RoundUp(t, g) <==> Multiple(t, g)
  {
    var q := t / g;
    assert t == q * g + t % g;
    assert (q + 1) * g == q * g + g;
    if Multiple(t, g) {
      LeastInWindow(q, t, g);
    } else {
      LeastInWindow(q + 1, t, g);
    }
    RoundUpExactIff(t, g);
  }

  /** Truncating division is monotone. */
  lemma CDivMonotone(a: int, b: int, g: int)
    requires 0 < g && a <= b
    ensures CDiv(a, g) <= CDiv(b, g)
  {
    if 0 <= a {
      DivMonotone(a, b, g);
    } else if b < 0 {
      DivMonotone(-b, -a, g);
    } else {
      DivNatural(-a, g);
      DivNatural(b, g);
    }
  }

  lemma DivNatural(a: nat, g: int)
    requires 0 < g
    ensures 0 <= a / g
  {
  }

  lemma DivMonotone(a: int, b: int, g: int)
    requires 0 < g && a <= b
    ensures a / g <= b / g
  {
    if b / g < a / g {
      assert a == a / g * g + a % g && b == b / g * g + b % g;
      MulStep(b / g, a / g, g);
    }
  }

  lemma RoundUpMonotone(a: int, b: int, g: int)
    requires 0 < g && a <= b
    ensures RoundUp(a, g) <= RoundUp(b, g)
  {
    var k, n := CDiv(a - 1, g) + 1, CDiv(b - 1, g) + 1;
    CDivMonotone(a - 1, b - 1, g);
    if k < n { MulStep(k, n, g); }
  }

  /** Rounding commutes with taking the earlier of two events, so rounding each event and then
      minimising is the same as minimising and then rounding. */
  lemma RoundUpMin(a: int, b: int, g: int)
    requires 0 < g
    ensures RoundUp(Min(a, b), g) == Min(RoundUp(a, g), RoundUp(b, g))
  {
    if a <= b { RoundUpMonotone(a, b, g); } else { RoundUpMonotone(b, a, g); }
  }

  // ---------------------------------------------------------------------------
  // One object
  // ---------------------------------------------------------------------------

  /** The object's answer once service dates are respected. */
  function Answer(env: Env, o: Obj): int
  {
    if env.clock < o.inSvc then o.inSvc
    else if env.clock <= o.outSvc then o.ret
    else TS_NEVER
  }

  /** A soft event is announced by a negative time other than -1. */
  predicate Soft(env: Env, o: Obj) { Answer(env, o) < -1 }

  predicate Hard(env: Env, o: Obj) { !Soft(env, o) && Answer(env, o) != TS_NEVER }

  function EventTime(env: Env, o: Obj): int
  {
    if Soft(env, o) then -Answer(env, o) else Answer(env, o)
  }

  predicate Stopped(env: Env, o: Obj) { EventTime(env, o) < env.clock }

  /** The time the object contributes to the next clock value. */
  function Announced(env: Env, o: Obj): int
  {
    var t := EventTime(env, o);
    if 1 < env.minStep && env.clock < t < TS_NEVER then RoundUp(t, env.minStep) else t
  }

  /** From a clock of zero or more only positive times are rounded, so the executive's rounding is exact. */
  lemma AnnouncedIsLeast(env: Env, o: Obj)
    requires 0 <= env.clock && 1 < env.minStep && env.clock < EventTime(env, o) < TS_NEVER
    ensures LeastMultipleFrom(Announced(env, o), EventTime(env, o), env.minStep)
  {
    RoundUpExactIff(EventTime(env, o), env.minStep);
  }

  /** What a single object adds to a sync_data record. */
  function Contribution(env: Env, o: Obj): SyncData
  {
    SyncData(if Stopped(env, o) then TS_NEVER else Min(TS_NEVER, Announced(env, o)),
             if Hard(env, o) then 1 else 0,
             if Stopped(env, o) then FAILED else SUCCESS)
  }

  /** Merging two records: earliest step, total hard events, failure if either failed. */
  function Join(a: SyncData, b: SyncData): SyncData
  {
    SyncData(Min(a.stepTo, b.stepTo), a.hardEvent + b.hardEvent,
             if a.status.FAILED? then FAILED else b.status)
  }

  /** The executive's per-object step, branch by branch: it changes only its own thread's slot,
      and adds to it exactly the object's contribution. */
  method DoObjectSync(data: array<SyncData>, thread: nat, env: Env, o: Obj)
    requires thread < data.Length
    modifies data
    ensures data[..] == old(data[..])[thread := Join(old(data[thread]), Contribution(env, o))]
  {
    var thisT;
    if env.clock < o.inSvc {
      thisT := o.inSvc;
    } else if env.clock <= o.outSvc {
      thisT := o.ret;
    } else {
      thisT := TS_NEVER;
    }
    if thisT < -1 {
      thisT := -thisT;
    } else if thisT != TS_NEVER {
      data[thread] := data[thread].(hardEvent := data[thread].hardEvent + 1);
    }
    if thisT < env.clock {
      data[thread] := data[thread].(status := FAILED);
    } else {
      if 1 < env.minStep && env.clock < thisT < TS_NEVER {
        thisT := (CDiv(thisT - 1, env.minStep) + 1) * env.minStep;
      }
      if data[thread].stepTo > thisT {
        data[thread] := data[thread].(stepTo := thisT);
      }
    }
  }
}
