/** The end-use pool inside its barrier: each thread takes the earliest change of its slice, and merges it into
    the shared time when it counts itself done. */
module EndusePool {
  import opened Sync
  import opened Slices
  import opened Barrier
  import opened BarrierInvariant
  import Enduse
  import MainLoop

  /** n end uses shared out in slices, one for each thread; in iteration i, called with time(i), the end use at
      position x that is synchronised at time t answers `answer(i, x, t)`. */
  datatype Pool = Pool(ss: seq<Slice>, n: nat, answer: (nat, nat, int) -> Time, created: nat -> bool,
                       time: nat -> int)

  ghost predicate ValidPool(p: Pool) { IsSlicing(p.ss, p.n) && |p.ss| < WORD }

  ghost function ConfigOf(p: Pool): (c: Config)
    requires ValidPool(p)
    ensures ValidConfig(c) && c.kind.TimeAndRun? && |c.lens| == 1 && |c.lens[0]| == |p.ss|
    ensures forall m :: 0 <= m < |p.ss| ==> c.lens[0][m] == p.ss[m].nObj
  {
    var lens := seq(|p.ss|, m requires 0 <= m < |p.ss| => p.ss[m].nObj);
    Config(TimeAndRun, [lens], (l: nat, m: nat) => p.created(m), p.time)
  }

  /** The protocol's state, each thread's earliest change so far, and the shared time. */
  datatype EState = EState(s: State, mins: seq<Time>, next: Time)

  ghost predicate EShaped(p: Pool, d: EState)
  {
    ValidPool(p) && Shaped(ConfigOf(p), d.s) && |d.mins| == |p.ss|
  }

  ghost predicate EEnabled(p: Pool, d: EState, a: Action)
    requires EShaped(p, d)
  {
    Enabled(ConfigOf(p), d.s, a)
  }

  /** Worker m's own variable: set when it starts on its slice, lowered by each end use, which it synchronises at the
      time it finds announced. */
  ghost function MinAfter(p: Pool, i: nat, m: nat, w: Worker, announced: int, own: Time): Time
    requires m < |p.ss|
  {
    if w.pc.Release? then TS_NEVER
    else if w.pc.Work? && w.k < p.ss[m].nObj then Min(own, p.answer(i, p.ss[m].first + w.k, announced))
    else own
  }

  /** The shared time: cleared when the call is announced, lowered by a worker that counts itself done. */
  ghost function ENext(p: Pool, d: EState, a: Action): (e: EState)
    requires EShaped(p, d) && EEnabled(p, d, a)
    ensures EShaped(p, e)
  {
    var t := Next(ConfigOf(p), d.s, a);
    if a.Step? && d.s.cpc.Bump? then EState(t, d.mins, TS_NEVER)
    else if a.Go? then
      var w := d.s.lists[a.l].workers[a.n];
      EState(t, d.mins[a.n := MinAfter(p, d.s.iter, a.n, w, d.s.lists[a.l].next.time, d.mins[a.n])],
             if w.pc.Count? then Min(d.next, d.mins[a.n]) else d.next)
    else EState(t, d.mins, d.next)
  }

  ghost function EInitial(p: Pool, first: Time): EState
    requires ValidPool(p)
  {
    EState(Initial(ConfigOf(p)), seq(|p.ss|, m => TS_NEVER), first)
  }

  ghost predicate ERun(p: Pool, d: EState, acts: seq<Action>, e: EState)
    requires EShaped(p, d)
    decreases |acts|
  {
    if acts == [] then d == e
    else EEnabled(p, d, acts[0]) && ERun(p, ENext(p, d, acts[0]), acts[1..], e)
  }

  ghost predicate EReachable(p: Pool, d: EState)
  {
    ValidPool(p) && exists first: Time, acts: seq<Action> ::
      EShaped(p, EInitial(p, first)) && ERun(p, EInitial(p, first), acts, d)
  }

  // ---------------------------------------------------------------------------
  // What the variables hold
  // ---------------------------------------------------------------------------

  /** The earliest change among c end uses from position `first` on, synchronised at the time of the call. */
  function MinTo(p: Pool, i: nat, first: nat, c: nat): Time
  {
    if c == 0 then TS_NEVER else Min(MinTo(p, i, first, c - 1), p.answer(i, first + c - 1, p.time(i)))
  }

  ghost predicate MinOK(p: Pool, i: nat, s: Slice, w: Worker, own: Time)
  {
    && (w.pc.Work? ==> own == MinTo(p, i, s.first, w.k))
    && (w.pc.Stamp? || w.pc.AskDone? || w.pc.Count? ==> own == MinTo(p, i, s.first, s.nObj))
  }

  /** The earliest change of the slices of the workers that have counted themselves done. */
  function Merged(p: Pool, i: nat, ws: seq<Worker>, next: Ticket): Time
    requires |ws| <= |p.ss|
  {
    if ws == [] then TS_NEVER
    else
      var m := |ws| - 1;
      Min(Merged(p, i, ws[..m], next),
          if Uncounted(ws[m], next) then TS_NEVER else MinTo(p, i, p.ss[m].first, p.ss[m].nObj))
  }

  /** The earliest change of the first m slices. */
  function Total(p: Pool, i: nat, m: nat): Time
    requires m <= |p.ss|
  {
    if m == 0 then TS_NEVER else Min(Total(p, i, m - 1), MinTo(p, i, p.ss[m - 1].first, p.ss[m - 1].nObj))
  }

  ghost predicate NextOK(p: Pool, d: EState)
    requires EShaped(p, d)
  {
    if CallOut(d.s) then d.next == Merged(p, d.s.iter, d.s.lists[0].workers, d.s.lists[0].next)
    else d.s.iter > 0 ==> d.next == Total(p, d.s.iter - 1, |p.ss|)
  }

  ghost predicate EInv(p: Pool, d: EState)
  {
    && EShaped(p, d) && Inv(ConfigOf(p), d.s) && TimeAnnounced(ConfigOf(p), d.s) && NextOK(p, d)
    && forall m :: 0 <= m < |p.ss| ==> MinOK(p, d.s.iter, p.ss[m], d.s.lists[0].workers[m], d.mins[m])
  }

  lemma {:induction false} MergedUpdate(p: Pool, i: nat, ws: seq<Worker>, next: Ticket, n: nat, w: Worker)
    requires n < |ws| <= |p.ss|
    ensures Uncounted(w, next) == Uncounted(ws[n], next) ==> Merged(p, i, ws[n := w], next) == Merged(p, i, ws, next)
    ensures Uncounted(ws[n], next) && !Uncounted(w, next) ==>
              Merged(p, i, ws[n := w], next)
              == Min(Merged(p, i, ws, next), MinTo(p, i, p.ss[n].first, p.ss[n].nObj))
    decreases |ws|
  {
    var m, vs := |ws| - 1, ws[n := w];
    if n == m {
      assert vs[..m] == ws[..m];
    } else {
      MergedUpdate(p, i, ws[..m], next, n, w);
      assert vs[..m] == ws[..m][n := w];
    }
  }

  lemma {:induction false} MergedSame(p: Pool, i: nat, ws: seq<Worker>, vs: seq<Worker>, next: Ticket)
    requires |ws| == |vs| <= |p.ss| && forall n :: 0 <= n < |ws| ==> Uncounted(ws[n], next) == Uncounted(vs[n], next)
    ensures Merged(p, i, ws, next) == Merged(p, i, vs, next)
    decreases |ws|
  {
    if ws != [] { MergedSame(p, i, ws[..|ws| - 1], vs[..|vs| - 1], next); }
  }

  lemma {:induction false} MergedNone(p: Pool, i: nat, ws: seq<Worker>, next: Ticket)
    requires |ws| <= |p.ss| && forall n :: 0 <= n < |ws| ==> Uncounted(ws[n], next)
    ensures Merged(p, i, ws, next) == TS_NEVER
    decreases |ws|
  {
    if ws != [] { MergedNone(p, i, ws[..|ws| - 1], next); }
  }

  lemma {:induction false} MergedAll(p: Pool, i: nat, ws: seq<Worker>, next: Ticket)
    requires |ws| <= |p.ss| && Left(ws, next) == 0
    ensures Merged(p, i, ws, next) == Total(p, i, |ws|)
    decreases |ws|
  {
    if ws != [] { MergedAll(p, i, ws[..|ws| - 1], next); }
  }

  // ---------------------------------------------------------------------------
  // Every step keeps it so
  // ---------------------------------------------------------------------------

  lemma Facts(p: Pool, s: State, m: nat)
    requires ValidPool(p) && Inv(ConfigOf(p), s) && m < |p.ss|
    ensures |s.lists| == 1 && s.cur == 0 && |s.lists[0].workers| == |p.ss|
    ensures WorkerOK(TimeAndRun, s.lists[0], p.ss[m].nObj, p.created(m), m, ViewOf(ConfigOf(p), s, 0))
    ensures BooksOK(s.lists[0], ViewOf(ConfigOf(p), s, 0))
  {
    var c := ConfigOf(p);
    assert ListOK(c.kind, s.lists[0], c.lens[0], Made(c, 0), ViewOf(c, s, 0));
    assert WorkerOK(c.kind, s.lists[0], c.lens[0][m], Made(c, 0)(m), m, ViewOf(c, s, 0));
  }

  lemma GoNext(p: Pool, s: State, n: nat)
    requires ValidPool(p) && Shaped(ConfigOf(p), s) && Enabled(ConfigOf(p), s, Go(0, n))
    ensures n < |p.ss|
    ensures var t := Next(ConfigOf(p), s, Go(0, n));
            && t.iter == s.iter && CallOut(t) == CallOut(s)
            && t.lists == s.lists[0 := WorkerStep(TimeAndRun, p.ss[n].nObj, s.lists[0], n)]
  {
  }

  /** What a worker's step depends on: it starts at the start of its slice, finds the time of
      the call announced, stamps a ticket that it does not have
      yet, and counts itself with it. */
  ghost predicate AtWork(p: Pool, i: nat, L: RankList, n: nat)
    requires n < |p.ss| && n < |L.workers|
  {
    var w := L.workers[n];
    && (w.pc.Work? ==> w.k <= p.ss[n].nObj && L.next.time == p.time(i)) && (w.pc.Release? ==> w.k == 0)
    && (w.pc.Stamp? ==> w.ticket != L.next) && (w.pc.Count? ==> w.ticket == L.next)
  }

  lemma WorkFacts(p: Pool, s: State, n: nat)
    requires ValidPool(p) && Inv(ConfigOf(p), s) && TimeAnnounced(ConfigOf(p), s) && n < |p.ss|
    ensures |s.lists| == 1 && |s.lists[0].workers| == |p.ss| && AtWork(p, s.iter, s.lists[0], n)
    ensures s.lists[0].workers[n].pc.Count? ==> CallOut(s)
  {
    Facts(p, s, n);
  }

  /** A worker's own step: its variable, and whether it is counted. */
  lemma OwnStep(p: Pool, i: nat, L: RankList, n: nat, own: Time)
    requires n < |p.ss| && n < |L.workers| && AtWork(p, i, L, n)
    requires WorkerCanGo(L, n) && MinOK(p, i, p.ss[n], L.workers[n], own)
    ensures var w := WorkerStep(TimeAndRun, p.ss[n].nObj, L, n).workers[n];
            && MinOK(p, i, p.ss[n], w, MinAfter(p, i, n, L.workers[n], L.next.time, own))
            && (if L.workers[n].pc.Count? then Uncounted(L.workers[n], L.next) && !Uncounted(w, L.next)
                else Uncounted(w, L.next) == Uncounted(L.workers[n], L.next))
  {
  }

  /** ... seen from the shared time. */
  lemma OwnMerge(p: Pool, i: nat, L: RankList, n: nat, own: Time)
    requires n < |p.ss| == |L.workers| && AtWork(p, i, L, n)
    requires WorkerCanGo(L, n) && MinOK(p, i, p.ss[n], L.workers[n], own)
    ensures var M := WorkerStep(TimeAndRun, p.ss[n].nObj, L, n);
            && |M.workers| == |L.workers| && M.next == L.next && M.workers == L.workers[n := M.workers[n]]
            && Merged(p, i, M.workers, M.next)
               == (if L.workers[n].pc.Count? then Min(Merged(p, i, L.workers, L.next), own)
                   else Merged(p, i, L.workers, L.next))
  {
    var M := WorkerStep(TimeAndRun, p.ss[n].nObj, L, n);
    OwnStep(p, i, L, n, own);
    assert M.workers == L.workers[n := M.workers[n]];
    MergedUpdate(p, i, L.workers, L.next, n, M.workers[n]);
  }

  lemma GoMerges(p: Pool, d: EState, n: nat)
    requires EInv(p, d) && EEnabled(p, d, Go(0, n))
    ensures NextOK(p, ENext(p, d, Go(0, n)))
  {
    GoNext(p, d.s, n);
    WorkFacts(p, d.s, n);
    OwnMerge(p, d.s.iter, d.s.lists[0], n, d.mins[n]);
  }

  lemma GoKeeps(p: Pool, d: EState, n: nat)
    requires EInv(p, d) && EEnabled(p, d, Go(0, n))
    ensures EInv(p, ENext(p, d, Go(0, n)))
  {
    NextKeeps(ConfigOf(p), d.s, Go(0, n));
    NextAnnounces(ConfigOf(p), d.s, Go(0, n));
    GoMerges(p, d, n);
    forall m | 0 <= m < |p.ss|
      ensures var e := ENext(p, d, Go(0, n)); MinOK(p, e.s.iter, p.ss[m], e.s.lists[0].workers[m], e.mins[m])
    {
      GoMin(p, d, n, m);
    }
  }

  lemma GoMin(p: Pool, d: EState, n: nat, m: nat)
    requires EInv(p, d) && EEnabled(p, d, Go(0, n)) && m < |p.ss|
    ensures var e := ENext(p, d, Go(0, n));
            |e.s.lists[0].workers| == |p.ss| && MinOK(p, e.s.iter, p.ss[m], e.s.lists[0].workers[m], e.mins[m])
  {
    GoNext(p, d.s, n);
    WorkFacts(p, d.s, n);
    if m == n { OwnStep(p, d.s.iter, d.s.lists[0], n, d.mins[n]); }
  }

  /** The other workers' variables have nothing to do with the main thread's steps. */
  lemma MainShape(p: Pool, s: State)
    requires ValidPool(p) && Inv(ConfigOf(p), s) && MainCanStep(s)
    ensures |s.lists| == 1 && s.cur == 0
    ensures var t := Next(ConfigOf(p), s, Step);
      && t.lists == [MainList(ConfigOf(p), s)]
      && t.iter == s.iter + (if s.cpc.DropDone? then 1 else 0)
      && (CallOut(t) <==> s.cpc.Bump? || (CallOut(s) && !s.cpc.DropDone?))
  {
  }

  /** Nobody is counted when a call has been announced. */
  lemma NoneCounted(p: Pool, s: State)
    requires ValidPool(p) && Inv(ConfigOf(p), s) && s.cpc.Bump?
    ensures var M := MainList(ConfigOf(p), s);
            |M.workers| == |p.ss| && Merged(p, s.iter, M.workers, M.next) == TS_NEVER
  {
    var M := MainList(ConfigOf(p), s);
    forall m | 0 <= m < |p.ss| ensures Uncounted(M.workers[m], M.next) { Facts(p, s, m); }
    Facts(p, s, 0);
    MergedNone(p, s.iter, M.workers, M.next);
  }

  /** All are counted when the main thread leaves. */
  lemma AllCounted(p: Pool, s: State)
    requires ValidPool(p) && Inv(ConfigOf(p), s) && s.cpc.DropDone?
    ensures |s.lists| == 1 && |s.lists[0].workers| == |p.ss|
    ensures Merged(p, s.iter, s.lists[0].workers, s.lists[0].next) == Total(p, s.iter, |p.ss|)
  {
    Facts(p, s, 0);
    MergedAll(p, s.iter, s.lists[0].workers, s.lists[0].next);
  }

  /** While a call is out, the main thread's steps count nobody. */
  lemma SameCounted(p: Pool, s: State)
    requires ValidPool(p) && Inv(ConfigOf(p), s) && MainCanStep(s) && CallOut(s)
    ensures var M := MainList(ConfigOf(p), s);
            && |s.lists| == 1 && |M.workers| == |s.lists[0].workers| == |p.ss|
            && Merged(p, s.iter, M.workers, M.next) == Merged(p, s.iter, s.lists[0].workers, s.lists[0].next)
  {
    var L, M := s.lists[s.cur], MainList(ConfigOf(p), s);
    Facts(p, s, 0);
    assert M.next == L.next && |M.workers| == |L.workers|;
    forall m | 0 <= m < |L.workers| ensures Uncounted(L.workers[m], L.next) == Uncounted(M.workers[m], L.next) { }
    MergedSame(p, s.iter, L.workers, M.workers, L.next);
  }

  lemma MainNext(p: Pool, d: EState)
    requires EInv(p, d) && EEnabled(p, d, Step)
    ensures NextOK(p, ENext(p, d, Step))
  {
    MainShape(p, d.s);
    if d.s.cpc.Bump? { NoneCounted(p, d.s); }
    else if d.s.cpc.DropDone? { AllCounted(p, d.s); }
    else if CallOut(d.s) { SameCounted(p, d.s); }
  }

  /** On its slice, or done with it and not yet counted. */
  predicate Busy(pc: WPc) { pc.Work? || pc.Stamp? || pc.AskDone? || pc.Count? }

  /** The main thread's steps do not touch busy workers, and when it leaves there are none. */
  lemma BusyStay(p: Pool, s: State, m: nat)
    requires ValidPool(p) && Inv(ConfigOf(p), s) && MainCanStep(s) && m < |p.ss|
    ensures var M := MainList(ConfigOf(p), s);
            && |s.lists| == 1 && |M.workers| == |s.lists[0].workers| == |p.ss|
            && (Busy(M.workers[m].pc) ==> M.workers[m] == s.lists[0].workers[m] && !s.cpc.DropDone?)
  {
    Facts(p, s, m);
    if s.cpc.DropDone? && Uncounted(s.lists[0].workers[m], s.lists[0].next) {
      LeftPositive(s.lists[0].workers, s.lists[0].next, m);
    }
  }

  lemma MainMin(p: Pool, d: EState, m: nat)
    requires EInv(p, d) && EEnabled(p, d, Step) && m < |p.ss|
    ensures var t := Next(ConfigOf(p), d.s, Step);
            |t.lists[0].workers| == |p.ss| && MinOK(p, t.iter, p.ss[m], t.lists[0].workers[m], d.mins[m])
  {
    BusyStay(p, d.s, m);
    MainShape(p, d.s);
  }

  lemma StepKeeps(p: Pool, d: EState)
    requires EInv(p, d) && EEnabled(p, d, Step)
    ensures EInv(p, ENext(p, d, Step))
  {
    NextKeeps(ConfigOf(p), d.s, Step);
    NextAnnounces(ConfigOf(p), d.s, Step);
    MainNext(p, d);
    forall m | 0 <= m < |p.ss|
      ensures var e := ENext(p, d, Step); MinOK(p, e.s.iter, p.ss[m], e.s.lists[0].workers[m], e.mins[m])
    {
      MainMin(p, d, m);
    }
  }

  lemma JoltNext(p: Pool, s: State, n: nat)
    requires ValidPool(p) && Inv(ConfigOf(p), s) && Enabled(ConfigOf(p), s, Jolt(0, n))
    ensures |s.lists| == 1 && n < |s.lists[0].workers| == |p.ss| && s.lists[0].workers[n].pc.Asleep?
    ensures var t := Next(ConfigOf(p), s, Jolt(0, n));
            && t.iter == s.iter && CallOut(t) == CallOut(s)
            && t.lists == [SetWorker(s.lists[0], n, s.lists[0].workers[n].(pc := Woken))]
  {
  }

  lemma JoltKeeps(p: Pool, d: EState, n: nat)
    requires EInv(p, d) && EEnabled(p, d, Jolt(0, n))
    ensures EInv(p, ENext(p, d, Jolt(0, n)))
  {
    NextKeeps(ConfigOf(p), d.s, Jolt(0, n));
    NextAnnounces(ConfigOf(p), d.s, Jolt(0, n));
    JoltMerges(p, d, n);
    JoltNext(p, d.s, n);
  }

  lemma JoltMerges(p: Pool, d: EState, n: nat)
    requires EInv(p, d) && EEnabled(p, d, Jolt(0, n))
    ensures NextOK(p, ENext(p, d, Jolt(0, n)))
  {
    JoltNext(p, d.s, n);
    var L := d.s.lists[0];
    MergedUpdate(p, d.s.iter, L.workers, L.next, n, L.workers[n].(pc := Woken));
  }

  lemma IdleKeeps(p: Pool, d: EState, a: Action)
    requires EInv(p, d) && EEnabled(p, d, a) && (a.Halt? || a.Rouse?)
    ensures EInv(p, ENext(p, d, a))
  {
    NextKeeps(ConfigOf(p), d.s, a);
    NextAnnounces(ConfigOf(p), d.s, a);
  }

  /** Every atomic step keeps threads' variables and the shared time at what they should be. */
  lemma ENextKeeps(p: Pool, d: EState, a: Action)
    requires EInv(p, d) && EEnabled(p, d, a)
    ensures EInv(p, ENext(p, d, a))
  {
    match a
    case Step => StepKeeps(p, d);
    case Go(l, n) => GoKeeps(p, d, n);
    case Rouse => IdleKeeps(p, d, a);
    case Halt => IdleKeeps(p, d, a);
    case Jolt(l, n) => JoltKeeps(p, d, n);
  }

  lemma {:induction false} ERunKeeps(p: Pool, d: EState, acts: seq<Action>, e: EState)
    requires EInv(p, d) && ERun(p, d, acts, e)
    ensures EInv(p, e)
    decreases |acts|
  {
    if acts != [] {
      ENextKeeps(p, d, acts[0]);
      ERunKeeps(p, ENext(p, d, acts[0]), acts[1..], e);
    }
  }

  lemma EReachableInv(p: Pool, d: EState)
    requires EReachable(p, d)
    ensures EInv(p, d)
  {
    var first: Time, acts: seq<Action> :| EShaped(p, EInitial(p, first)) && ERun(p, EInitial(p, first), acts, d);
    InitialInv(ConfigOf(p));
    ERunKeeps(p, EInitial(p, first), acts, d);
  }

  // ---------------------------------------------------------------------------
  // The pool answers what one thread would
  // ---------------------------------------------------------------------------

  /** What the end uses answer, synchronised at the time of call i. */
  function Changes(p: Pool, i: nat): (r: seq<Time>)
    ensures |r| == p.n
  {
    seq(p.n, x requires 0 <= x < p.n => p.answer(i, x, p.time(i)))
  }

  lemma {:induction false} MinToEarliest(p: Pool, i: nat, first: nat, c: nat)
    requires first + c <= p.n
    ensures MainLoop.Earliest(MinTo(p, i, first, c), Changes(p, i)[first..first + c])
  {
    if c > 0 {
      MinToEarliest(p, i, first, c - 1);
      var n := first + c - 1;
      assert Changes(p, i)[first..n + 1] == Changes(p, i)[first..n] + [p.answer(i, n, p.time(i))];
    }
  }

  lemma {:induction false} TotalEarliest(p: Pool, i: nat, m: nat)
    requires ValidPool(p) && 0 < m <= |p.ss|
    ensures p.ss[m - 1].End() <= p.n
    ensures MainLoop.Earliest(Total(p, i, m), Changes(p, i)[..p.ss[m - 1].End()])
  {
    EndsInside(p, m - 1);
    var s := p.ss[m - 1];
    MinToEarliest(p, i, s.first, s.nObj);
    if m == 1 {
      assert Changes(p, i)[s.first..s.first + s.nObj] == Changes(p, i)[..s.End()];
      assert Total(p, i, 0) == TS_NEVER;
    } else {
      TotalEarliest(p, i, m - 1);
      var before := Changes(p, i)[..s.first];
      MainLoop.EarliestConcat(Total(p, i, m - 1), MinTo(p, i, s.first, s.nObj), before,
                              Changes(p, i)[s.first..s.End()]);
      assert Changes(p, i)[..s.End()] == before + Changes(p, i)[s.first..s.End()];
    }
  }

  lemma {:induction false} EndsInside(p: Pool, m: nat)
    requires ValidPool(p) && m < |p.ss|
    ensures p.ss[m].End() <= p.n
    decreases |p.ss| - m
  {
    if m + 1 < |p.ss| { EndsInside(p, m + 1); }
  }

  /** Whatever the interleaving, when the main thread is outside the barrier after i + 1 calls, the shared time is
      the earliest change of all end uses in call i. */
  lemma PoolAnswersEarliest(p: Pool, d: EState)
    requires EReachable(p, d) && d.s.cpc.Outside? && d.s.iter > 0
    ensures MainLoop.Earliest(d.next, Changes(p, d.s.iter - 1))
  {
    EReachableInv(p, d);
    TotalEarliest(p, d.s.iter - 1, |p.ss|);
    assert Changes(p, d.s.iter - 1)[..p.n] == Changes(p, d.s.iter - 1);
  }

  /** ... which is what one thread answers. */
  method AnswerAlone(p: Pool, ghost d: EState, answers: seq<Time>) returns (t2: Time)
    requires EReachable(p, d) && d.s.cpc.Outside? && d.s.iter > 0 && answers == Changes(p, d.s.iter - 1)
    ensures t2 == d.next
  {
    t2 := Enduse.NextChange(answers);
    PoolAnswersEarliest(p, d);
    MainLoop.EarliestUnique(t2, d.next, answers);
  }
}
