/** A network as one of the objects the executive commits: the main loop calls it in time. */
module NetworkInRun {
  import opened Options
  import opened Sync
  import opened Network
  import opened NetworkRuns
  import opened LinkedRuns
  import opened LinkedNetwork
  import MainLoop

  // ---------------------------------------------------------------------------
  // One pass
  // ---------------------------------------------------------------------------

  /** A network is one of the objects that the executive commits. */
  ghost predicate Commits(inp: MainLoop.Answers, k: nat, clock: int, next: Time)
  {
    && k < |inp.commits| && MainLoop.InService(clock, inp.commits[k])
    && inp.commits[k].ret == next
  }

  lemma CommitTimeBelow(inp: MainLoop.Answers, k: nat, clock: int, next: Time)
    requires Commits(inp, k, clock, next) && next != 1
    ensures MainLoop.CommitTime(clock, inp.commits) <= next || MainLoop.AnyCommitFails(clock, inp.commits)
  {
    var times := MainLoop.CommitTimes(clock, inp.commits);
    MainLoop.LeastIsEarliest(times);
    assert times[k] == MainLoop.CommitAnswer(inp.commits[k]);
  }

  /** The executive never lets the clock pass the time a network asked for, so that calls are in time. */
  lemma ExecutiveCallsInTime(g: MainLoop.Globals, m: MainLoop.Loop, inp: MainLoop.Answers, k: nat, next: Time)
    requires Commits(inp, k, m.stepTo, next) && next != 1 && 0 <= m.stepTo
    requires MainLoop.Pass(g, m, inp).Going? && MainLoop.Pass(g, m, inp).m.stepTo != m.stepTo
    ensures MainLoop.Pass(g, m, inp).m.stepTo <= next
  {
    CommitTimeBelow(inp, k, m.stepTo, next);
  }

  /** If a call delivers something and the latency rounds up to zero or less, it answers with the end time. */
  lemma AnswersEndTime(bw: real, nifs: seq<Sender>, t: Tick)
    requires |t.offers| == |nifs| && t.now < TS_NEVER && Ceil(t.latency) <= 0
    requires Commit(bw, nifs, t).delivered != []
    ensures Commit(bw, nifs, t).next == t.now + Ceil(t.latency)
  {
    var r := Served(bw, nifs, t);
    AnswersLateIff(bw, nifs, t);
    CallAllFirst(r, t.now, t.latency);
    var i, m :| 0 <= i < |r| && m in r[i].box && CallAll(r, t.now, t.latency) == Call(m, t.now, t.latency);
    if !Done(m) { LateWake(m, t.now); }
  }

  lemma LateWake(m: Msg, now: int)
    requires now < TS_NEVER
    ensures now < Wake(m, now)
  {
  }

  /** Without latency, the call that delivers a message ends the run, "model commit failed", unless the answer is
      one, which the executive takes for success. */
  lemma DeliveryWithoutLatencyFailsRun(g: MainLoop.Globals, m: MainLoop.Loop, inp: MainLoop.Answers, k: nat,
                                       bw: real, nifs: seq<Sender>, t: Tick)
    requires |t.offers| == |nifs| && 0 <= t.now == m.stepTo < TS_NEVER && Ceil(t.latency) <= 0
    requires t.now + Ceil(t.latency) != 1 && Commit(bw, nifs, t).delivered != []
    requires Commits(inp, k, m.stepTo, Commit(bw, nifs, t).next)
    ensures MainLoop.Pass(g, m, inp).Going? ==> MainLoop.Pass(g, m, inp).m.stepTo == m.stepTo
  {
    AnswersEndTime(bw, nifs, t);
    LateCommitStays(g, m, inp, k, t.now + Ceil(t.latency));
  }

  /** A pass in which an object commits with a time not after the clock cannot move it. */
  lemma LateCommitStays(g: MainLoop.Globals, m: MainLoop.Loop, inp: MainLoop.Answers, k: nat, next: Time)
    requires Commits(inp, k, m.stepTo, next) && next != 1 && 0 <= m.stepTo && next <= m.stepTo
    ensures MainLoop.Pass(g, m, inp).Going? ==> MainLoop.Pass(g, m, inp).m.stepTo == m.stepTo
  {
    CommitTimeBelow(inp, k, m.stepTo, next);
  }

  // ---------------------------------------------------------------------------
  // Whole runs
  // ---------------------------------------------------------------------------

  /** A pass commits if the clock is about to move. */
  ghost predicate CallsAt(g: MainLoop.Globals, world: MainLoop.Oracle, ms: seq<MainLoop.Loop>, k: nat)
    requires k < |ms|
  {
    MainLoop.StepTime(g, ms[k].stepTo, world(k, ms[k].stepTo)) != ms[k].stepTo
  }

  /** The calls a network gets in the first n passes; `tick(k)` is what pass k would bring. */
  ghost function TicksOf(g: MainLoop.Globals, world: MainLoop.Oracle, ms: seq<MainLoop.Loop>, tick: nat -> Tick, n: nat)
    : seq<Tick>
    requires n <= |ms|
  {
    if n == 0 then []
    else TicksOf(g, world, ms, tick, n - 1) + if CallsAt(g, world, ms, n - 1) then [tick(n - 1)] else []
  }

  /** What a call brings: offers for every interface, no negative size or latency. */
  ghost predicate Sensible(t: Tick, n: nat)
  {
    && |t.offers| == n && 0 <= Ceil(t.latency)
    && forall i :: 0 <= i < |t.offers| && t.offers[i].Some? ==> 0.0 <= t.offers[i].value.size
  }

  /** The network is object c of the model: called at the clock of each committing pass, it answers what its
      commit function says. */
  ghost predicate Answering(bw: real, caps: seq<real>, g: MainLoop.Globals, world: MainLoop.Oracle, clock: Time,
                            ms: seq<MainLoop.Loop>, tick: nat -> Tick, c: nat)
  {
    && (forall k :: 0 <= k < |ms| ==> Sensible(tick(k), |caps|) && tick(k).now == ms[k].stepTo)
    && (forall k :: 0 <= k < |ms| - 1 ==> AnswersAt(bw, caps, g, world, clock, ms, tick, c, k))
  }

  lemma {:induction false} TicksSized(g: MainLoop.Globals, world: MainLoop.Oracle, ms: seq<MainLoop.Loop>,
                                      tick: nat -> Tick, n: nat, size: nat)
    requires n <= |ms| && forall k :: 0 <= k < |ms| ==> |tick(k).offers| == size
    ensures forall j :: 0 <= j < |TicksOf(g, world, ms, tick, n)| ==>
              |TicksOf(g, world, ms, tick, n)[j].offers| == size
  {
    if n > 0 { TicksSized(g, world, ms, tick, n - 1, size); }
  }

  ghost predicate AnswersAt(bw: real, caps: seq<real>, g: MainLoop.Globals, world: MainLoop.Oracle, clock: Time,
                            ms: seq<MainLoop.Loop>, tick: nat -> Tick, c: nat, k: nat)
    requires k < |ms| && forall j :: 0 <= j < |ms| ==> |tick(j).offers| == |caps|
  {
    TicksSized(g, world, ms, tick, k + 1, |caps|);
    CallsAt(g, world, ms, k) ==>
      Commits(world(k, ms[k].stepTo), c, ms[k].stepTo, After(bw, caps, clock, TicksOf(g, world, ms, tick, k + 1)).next)
  }

  lemma TimelyGrows(bw: real, caps: seq<real>, t0: int, ts: seq<Tick>, t: Tick)
    requires Timely(bw, caps, t0, ts) && InTime(After(bw, caps, t0, ts), t)
    ensures Timely(bw, caps, t0, ts + [t])
    ensures After(bw, caps, t0, ts + [t]) == Commit(bw, After(bw, caps, t0, ts).nifs, t)
  {
    var us := ts + [t];
    assert us[..|ts|] == ts;
    forall k | 0 <= k < |us| ensures InTimeAt(bw, caps, t0, us, k) {
      assert us[..k] == ts[..k];
      if k < |ts| { assert InTimeAt(bw, caps, t0, ts, k); } else { assert ts[..k] == ts; }
    }
  }

  /** Without negative latency a network never asks for a time in the past. */
  lemma AsksForNowOrLater(bw: real, nifs: seq<Sender>, t: Tick)
    requires |t.offers| == |nifs| && t.now <= TS_NEVER && 0 <= Ceil(t.latency)
    ensures t.now <= Commit(bw, nifs, t).next
  {
    CallAllFirst(Served(bw, nifs, t), t.now, t.latency);
  }

  /** Between two passes the clock is never outside the time the network gave itself. */
  ghost predicate Paces(net: Net, m: MainLoop.Loop) { net.now <= m.stepTo <= net.next }

  /** A pass that moves the clock, seen from the network. */
  lemma PassPaces(g: MainLoop.Globals, m: MainLoop.Loop, inp: MainLoop.Answers, n: MainLoop.Loop,
                  net: Net, after: Net, t: Tick, c: nat)
    requires Paces(net, m) && 2 <= m.stepTo && t.now == m.stepTo && Sensible(t, |net.nifs|)
    requires after.now == t.now <= after.next
    requires MainLoop.Pass(g, m, inp) == MainLoop.Going(n) && MainLoop.StepTime(g, m.stepTo, inp) != m.stepTo
    requires m.stepTo <= n.stepTo
    requires Commits(inp, c, m.stepTo, after.next)
    ensures InTime(net, t) && Paces(after, n)
  {
    ExecutiveCallsInTime(g, m, inp, c, after.next);
  }

  /** The calls a network gets along a run of the main loop are in time, each of them, so that everything
      proved of timely calls holds of the network in that run. */
  lemma {:induction false} RunCallsInTime(bw: real, caps: seq<real>, g: MainLoop.Globals, world: MainLoop.Oracle,
                                          clock: Time, ms: seq<MainLoop.Loop>, tick: nat -> Tick, c: nat, n: nat)
    requires MainLoop.Trace(g, world, clock, ms) && MainLoop.HonestSoFar(world, ms) && 2 <= clock && n < |ms|
    requires 0.0 < bw && forall i :: 0 <= i < |caps| ==> 0.0 < caps[i]
    requires Answering(bw, caps, g, world, clock, ms, tick, c)
    ensures CalledInTime(bw, caps, clock, TicksOf(g, world, ms, tick, n), ms[n])
  {
    if n > 0 {
      var k := n - 1;
      RunCallsInTime(bw, caps, g, world, clock, ms, tick, c, k);
      MainLoop.ClockAscends(g, world, clock, ms, k, n);
      MainLoop.ClockAscends(g, world, clock, ms, 0, k);
      var ts := TicksOf(g, world, ms, tick, k);
      if CallsAt(g, world, ms, k) {
        TimelyCall(bw, caps, g, world, clock, ms, tick, c, k, ts);
      } else {
        assert ts + [] == ts;
        NoCall(g, world, clock, ms, k);
      }
    }
  }

  /** Along any run of the main loop in which finished messages are always in front, the linked outboxes keep the
      accounts, and every message in an inbox, or read, was received in full and not a byte more. The steps are
      the calls that the main loop makes, and readings of inboxes between them. */
  lemma RunConservesBytes<A>(bw: real, caps: seq<real>, g: MainLoop.Globals, world: MainLoop.Oracle, clock: Time,
                             ms: seq<MainLoop.Loop>, tick: nat -> Tick, c: nat, n: nat, hs: seq<Step<A>>, w: nat)
    returns (s: LinkedNet<A>)
    requires MainLoop.Trace(g, world, clock, ms) && MainLoop.HonestSoFar(world, ms) && 2 <= clock && n < |ms|
    requires 0.0 < bw && forall i :: 0 <= i < |caps| ==> 0.0 < caps[i]
    requires Answering(bw, caps, g, world, clock, ms, tick, c)
    requires Calls(hs) == TicksOf(g, world, ms, tick, n)
    requires Proper(caps, hs) && AlwaysInFront(bw, caps, clock, hs) && Needed(bw, caps, clock, hs) <= w
    ensures LinkedAfter(bw, caps, hs, w) == Some(s) && Timely(bw, caps, clock, Calls(hs))
    ensures Accounted(Net(SendersOf(s, caps, w), s.used, [], NetAfter(bw, caps, clock, hs).now, s.next), bw)
    ensures Arrived(s, w, Whole)
  {
    RunCallsInTime(bw, caps, g, world, clock, ms, tick, c, n);
    s := LinkedBytesConserved(bw, caps, clock, hs, w);
  }

  /** These calls were in time, and the clock is within the time the network gave itself. */
  ghost predicate CalledInTime(bw: real, caps: seq<real>, t0: int, ts: seq<Tick>, m: MainLoop.Loop)
  {
    Timely(bw, caps, t0, ts) && Paces(After(bw, caps, t0, ts), m)
  }

  /** A pass that does not commit leaves the clock where it is. */
  lemma NoCall(g: MainLoop.Globals, world: MainLoop.Oracle, clock: Time, ms: seq<MainLoop.Loop>, k: nat)
    requires MainLoop.Trace(g, world, clock, ms) && k + 1 < |ms| && !CallsAt(g, world, ms, k)
    ensures ms[k + 1].stepTo == ms[k].stepTo
  {
  }

  lemma TimelyCall(bw: real, caps: seq<real>, g: MainLoop.Globals, world: MainLoop.Oracle, clock: Time,
                   ms: seq<MainLoop.Loop>, tick: nat -> Tick, c: nat, k: nat, ts: seq<Tick>)
    requires MainLoop.Trace(g, world, clock, ms) && k + 1 < |ms| && 2 <= ms[k].stepTo <= ms[k + 1].stepTo
    requires Answering(bw, caps, g, world, clock, ms, tick, c) && CallsAt(g, world, ms, k)
    requires ts == TicksOf(g, world, ms, tick, k) && CalledInTime(bw, caps, clock, ts, ms[k])
    ensures CalledInTime(bw, caps, clock, ts + [tick(k)], ms[k + 1])
  {
    var net, us := After(bw, caps, clock, ts), ts + [tick(k)];
    assert TicksOf(g, world, ms, tick, k + 1) == us;
    assert us[..|ts|] == ts && us[|ts|] == tick(k);
    assert AnswersAt(bw, caps, g, world, clock, ms, tick, c, k);
    AsksForNowOrLater(bw, net.nifs, tick(k));
    PassPaces(g, ms[k], world(k, ms[k].stepTo), ms[k + 1], net, Commit(bw, net.nifs, tick(k)), tick(k), c);
    TimelyGrows(bw, caps, clock, ts, tick(k));
  }
}
