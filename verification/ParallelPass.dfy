/** The thread data of a pass: what the worker threads leave in their slots, under every
    interleaving, and what the main thread makes of it. */
module ParallelPass {
  import opened Sync
  import opened Slices
  import opened Barrier
  import opened BarrierInvariant

  /** `sizes[l]` objects in rank list l, shared out to `threads[l]` workers, `items[l]` each; in
      iteration i the object at position p of list l is `obj(i, l, p)`, synchronised under `env(i)`. */
  datatype Plan = Plan(threadCount: nat, sizes: seq<nat>, items: seq<nat>, threads: seq<nat>,
                       env: nat -> Env, obj: (nat, nat, nat) -> Obj, created: (nat, nat) -> bool)

  ghost predicate ValidPlan(p: Plan)
  {
    && 0 < p.threadCount < WORD
    && |p.sizes| > 0
    && |p.items| == |p.threads| == |p.sizes|
    && forall l :: 0 <= l < |p.sizes| ==> Fits(p.sizes[l], p.items[l], p.threads[l]) && p.threads[l] <= p.threadCount
  }

  /** The sharing the executive computes is valid for every non-empty list and thread count. */
  lemma ExecutivePlanIsValid(p: Plan)
    requires 0 < p.threadCount < WORD
    requires 0 < |p.sizes| == |p.items| == |p.threads|
    requires forall l :: 0 <= l < |p.sizes| ==>
               && 0 < p.sizes[l]
               && p.items[l] == ItemsPerThread(p.sizes[l], p.threadCount)
               && p.threads[l] == ThreadsUsed(p.sizes[l], p.threadCount)
    ensures ValidPlan(p)
  {
    forall l | 0 <= l < |p.sizes| ensures Fits(p.sizes[l], p.items[l], p.threads[l]) && p.threads[l] <= p.threadCount {
      PoolFits(p.sizes[l], p.threadCount);
    }
  }

  /** Length of slice m of list l, zero for slots beyond the list's pool. */
  function Len(p: Plan, l: nat, m: nat): nat
    requires l < |p.sizes| == |p.items| == |p.threads|
  {
    var first := m * p.items[l];
    if p.sizes[l] <= first || p.threads[l] <= m then 0
    else if p.sizes[l] - first < p.items[l] then p.sizes[l] - first
    else p.items[l]
  }

  ghost function ConfigOf(p: Plan): Config
    requires ValidPlan(p)
  {
    Config(Counter,
           seq(|p.sizes|, l requires 0 <= l < |p.sizes| =>
             seq(p.threads[l], m requires 0 <= m < p.threads[l] => Len(p, l, m))),
           p.created, (i: nat) => 0)
  }

  lemma ConfigIsValid(p: Plan)
    requires ValidPlan(p)
    ensures ValidConfig(ConfigOf(p))
  {
    assert forall l :: 0 <= l < |p.sizes| ==> Fits(p.sizes[l], p.items[l], p.threads[l]);
  }

  // ---------------------------------------------------------------------------
  // Protocol state plus slots
  // ---------------------------------------------------------------------------

  datatype PState = PState(s: State, slots: seq<SyncData>)

  ghost predicate PShaped(p: Plan, d: PState)
  {
    ValidPlan(p) && Shaped(ConfigOf(p), d.s) && |d.slots| == p.threadCount
  }

  /** The main thread goes on to the next list only if no slot reports a failure. */
  ghost predicate PEnabled(p: Plan, d: PState, a: Action)
    requires PShaped(p, d)
  {
    && Enabled(ConfigOf(p), d.s, a)
    && (a.Step? && d.s.cpc.Outside? ==> AllSucceeded(d.slots))
  }

  /** Worker n of list l, in state w, synchronises object k of its slice into the slot it was told. */
  function Worked(p: Plan, slots: seq<SyncData>, i: nat, l: nat, n: nat, w: Worker): (r: seq<SyncData>)
    requires l < |p.sizes| == |p.items| == |p.threads|
    ensures |r| == |slots|
  {
    if w.pc.Work? && w.k < Len(p, l, n) && w.slot < |slots| then
      slots[w.slot := Join(slots[w.slot], Contribution(p.env(i), p.obj(i, l, n * p.items[l] + w.k)))]
    else
      slots
  }

  /** Slots change when a worker synchronises an object, and when a new iteration resets them. */
  ghost function SlotsAfter(p: Plan, d: PState, a: Action): seq<SyncData>
    requires PShaped(p, d) && PEnabled(p, d, a)
  {
    if a.Step? && d.s.cpc.Outside? && d.s.cur == 0 then
      seq(|d.slots|, m => Fresh)
    else if a.Go? then
      Worked(p, d.slots, d.s.iter, a.l, a.n, d.s.lists[a.l].workers[a.n])
    else
      d.slots
  }

  ghost function PNext(p: Plan, d: PState, a: Action): (e: PState)
    requires PShaped(p, d) && PEnabled(p, d, a)
    ensures PShaped(p, e)
  {
    PState(Next(ConfigOf(p), d.s, a), SlotsAfter(p, d, a))
  }

  ghost function PInitial(p: Plan): PState
    requires ValidPlan(p)
  {
    PState(Initial(ConfigOf(p)), seq(p.threadCount, m => Fresh))
  }

  ghost predicate PRun(p: Plan, d: PState, acts: seq<Action>, e: PState)
    requires PShaped(p, d)
    decreases |acts|
  {
    if acts == [] then d == e
    else PEnabled(p, d, acts[0]) && PRun(p, PNext(p, d, acts[0]), acts[1..], e)
  }

  ghost predicate PReachable(p: Plan, d: PState)
  {
    ValidPlan(p) && PShaped(p, PInitial(p)) && exists acts: seq<Action> :: PRun(p, PInitial(p), acts, d)
  }

  // ---------------------------------------------------------------------------
  // What a slot holds
  // ---------------------------------------------------------------------------

  /** Slot m after the first l lists of iteration i and c objects of list l. */
  function Acc(p: Plan, i: nat, l: nat, m: nat, c: nat): SyncData
    requires l <= |p.sizes| == |p.items| == |p.threads|
    decreases l, c
  {
    if 0 < c then
      if l == |p.sizes| then Fresh
      else Join(Acc(p, i, l, m, c - 1), Contribution(p.env(i), p.obj(i, l, m * p.items[l] + (c - 1))))
    else if l == 0 then Fresh
    else Acc(p, i, l - 1, m, Len(p, l - 1, m))
  }

  /** How many objects of its slice a worker has synchronised in the current call. */
  function Progress(w: Worker, len: nat, next: Ticket): nat
  {
    if w.pc.Work? then w.k
    else if w.pc.Stamp? then len
    else if w.pc.Absent? || w.ticket != next then 0
    else len
  }

  ghost function Expected(p: Plan, s: State, m: nat): SyncData
    requires ValidPlan(p) && Shaped(ConfigOf(p), s)
  {
    if (s.cpc.Outside? || s.cpc.Halted?) && s.cur == 0 then
      if s.iter == 0 then Fresh else Acc(p, s.iter - 1, |p.sizes|, m, 0)
    else if CallOut(s) && m < |s.lists[s.cur].workers| then
      Acc(p, s.iter, s.cur, m, Progress(s.lists[s.cur].workers[m], Len(p, s.cur, m), s.lists[s.cur].next))
    else
      Acc(p, s.iter, s.cur, m, 0)
  }

  ghost predicate PInv(p: Plan, d: PState)
  {
    && PShaped(p, d)
    && Inv(ConfigOf(p), d.s)
    && forall m :: 0 <= m < p.threadCount ==> d.slots[m] == Expected(p, d.s, m)
  }

  lemma WorkerFacts(p: Plan, s: State, l: nat, n: nat)
    requires ValidPlan(p) && Inv(ConfigOf(p), s) && l < |s.lists| && n < |s.lists[l].workers|
    ensures WorkerOK(Counter, s.lists[l], Len(p, l, n), p.created(l, n), n, ViewOf(ConfigOf(p), s, l))
    ensures |s.lists[l].workers| == p.threads[l] <= p.threadCount
    ensures s.lists[l].workers[n].pc.Work? ==> l == s.cur && CallOut(s) && s.lists[l].workers[n].slot == n
  {
    var c := ConfigOf(p);
    assert ListOK(c.kind, s.lists[l], c.lens[l], Made(c, l), ViewOf(c, s, l));
    assert WorkerOK(c.kind, s.lists[l], c.lens[l][n], Made(c, l)(n), n, ViewOf(c, s, l));
    ConfigIsValid(p);
  }

  /** A worker's step advances its progress exactly when it synchronises an object. */
  lemma ProgressStep(L: RankList, len: nat, made: bool, v: View, n: nat)
    requires n < |L.workers| && WorkerOK(Counter, L, len, made, n, v) && WorkerCanGo(L, n)
    requires v.mode.Called? || v.mode.Running?
    ensures var w := L.workers[n];
            Progress(WorkerStep(Counter, len, L, n).workers[n], len, L.next)
            == Progress(w, len, L.next) + if w.pc.Work? && w.k < len then 1 else 0
    ensures L.workers[n].pc.Work? ==> Progress(L.workers[n], len, L.next) == L.workers[n].k
  {
  }

  lemma GoNext(p: Plan, s: State, l: nat, n: nat)
    requires ValidPlan(p) && Shaped(ConfigOf(p), s) && Enabled(ConfigOf(p), s, Go(l, n))
    ensures var t := Next(ConfigOf(p), s, Go(l, n));
            && t.cur == s.cur && t.iter == s.iter && CallOut(t) == CallOut(s)
            && (t.cpc.Outside? <==> s.cpc.Outside?) && (t.cpc.Halted? <==> s.cpc.Halted?)
            && t.lists == s.lists[l := WorkerStep(Counter, Len(p, l, n), s.lists[l], n)]
  {
  }

  lemma StepFrame(L: RankList, len: nat, n: nat)
    requires n < |L.workers|
    ensures var M := WorkerStep(Counter, len, L, n);
            M.next == L.next && |M.workers| == |L.workers|
            && forall m :: 0 <= m < |L.workers| && m != n ==> M.workers[m] == L.workers[m]
  {
  }

  lemma OwnSlot(p: Plan, d: PState, n: nat)
    requires PInv(p, d) && PEnabled(p, d, Go(d.s.cur, n)) && CallOut(d.s)
    ensures n < p.threadCount
    ensures SlotsAfter(p, d, Go(d.s.cur, n))[n] == Expected(p, Next(ConfigOf(p), d.s, Go(d.s.cur, n)), n)
  {
    var l := d.s.cur;
    WorkerFacts(p, d.s, l, n);
    GoNext(p, d.s, l, n);
    StepFrame(d.s.lists[l], Len(p, l, n), n);
    ProgressStep(d.s.lists[l], Len(p, l, n), p.created(l, n), ViewOf(ConfigOf(p), d.s, l), n);
  }

  /** A worker's step moves its own slot as expected and no other. */
  lemma GoSlots(p: Plan, d: PState, l: nat, n: nat, m: nat)
    requires PInv(p, d) && PEnabled(p, d, Go(l, n)) && m < p.threadCount
    ensures SlotsAfter(p, d, Go(l, n))[m] == Expected(p, Next(ConfigOf(p), d.s, Go(l, n)), m)
  {
    if l == d.s.cur && CallOut(d.s) && m == n {
      OwnSlot(p, d, n);
    } else {
      WorkerFacts(p, d.s, l, n);
      GoNext(p, d.s, l, n);
      StepFrame(d.s.lists[l], Len(p, l, n), n);
    }
  }

  /** At the start of a call nobody has done anything. */
  lemma NoProgressAtCall(p: Plan, s: State, m: nat)
    requires ValidPlan(p) && Inv(ConfigOf(p), s) && s.cpc.Bump? && m < |s.lists[s.cur].workers|
    ensures var t := Next(ConfigOf(p), s, Step);
            Progress(t.lists[s.cur].workers[m], Len(p, s.cur, m), t.lists[s.cur].next) == 0
  {
    WorkerFacts(p, s, s.cur, m);
  }

  /** When the main thread leaves, every slice is complete. */
  lemma FullProgressAtEnd(p: Plan, s: State, m: nat)
    requires ValidPlan(p) && Inv(ConfigOf(p), s) && s.cpc.DropDone? && m < |s.lists[s.cur].workers|
    ensures Progress(s.lists[s.cur].workers[m], Len(p, s.cur, m), s.lists[s.cur].next) == Len(p, s.cur, m)
  {
    var c, L := ConfigOf(p), s.lists[s.cur];
    WorkerFacts(p, s, s.cur, m);
    assert ListOK(c.kind, L, c.lens[s.cur], Made(c, s.cur), ViewOf(c, s, s.cur));
    if Uncounted(L.workers[m], L.next) { LeftPositive(L.workers, L.next, m); }
  }

  /** Waking and waiting change no worker's progress. */
  lemma SameProgressWaiting(p: Plan, s: State, m: nat)
    requires ValidPlan(p) && Inv(ConfigOf(p), s) && CallOut(s) && !s.cpc.DropDone? && MainCanStep(s)
    requires m < |s.lists[s.cur].workers|
    ensures var t := Next(ConfigOf(p), s, Step);
            Progress(t.lists[s.cur].workers[m], Len(p, s.cur, m), t.lists[s.cur].next)
            == Progress(s.lists[s.cur].workers[m], Len(p, s.cur, m), s.lists[s.cur].next)
  {
    WorkerFacts(p, s, s.cur, m);
  }

  lemma MainShape(p: Plan, s: State)
    requires ValidPlan(p) && Inv(ConfigOf(p), s) && MainCanStep(s)
    ensures var t := Next(ConfigOf(p), s, Step);
      && (!s.cpc.DropDone? ==> t.cur == s.cur && t.iter == s.iter && !t.cpc.Outside?)
      && (s.cpc.DropDone? ==> t.cpc.Outside?)
      && (s.cpc.DropDone? ==>
            if s.cur + 1 < |p.sizes| then t.cur == s.cur + 1 && t.iter == s.iter
            else t.cur == 0 && t.iter == s.iter + 1)
      && (CallOut(t) <==> s.cpc.Bump? || (CallOut(s) && !s.cpc.DropDone?))
      && !t.cpc.Halted?
      && |t.lists[s.cur].workers| == |s.lists[s.cur].workers|
  {
  }

  /** The main thread's steps agree with the expected contents: a new iteration resets the slots, and
      when a call ends every slice of the list is complete. */
  lemma MainSlots(p: Plan, d: PState, m: nat)
    requires PInv(p, d) && PEnabled(p, d, Step) && m < p.threadCount
    ensures SlotsAfter(p, d, Step)[m] == Expected(p, Next(ConfigOf(p), d.s, Step), m)
  {
    var s := d.s;
    MainShape(p, s);
    if m < |s.lists[s.cur].workers| {
      if s.cpc.Bump? { NoProgressAtCall(p, s, m); }
      else if s.cpc.DropDone? { FullProgressAtEnd(p, s, m); }
      else if CallOut(s) { SameProgressWaiting(p, s, m); }
    } else {
      var c := ConfigOf(p);
      assert |s.lists[s.cur].workers| == |c.lens[s.cur]|;
    }
  }

  /** Nothing else touches a slot or moves a worker through its slice. */
  lemma RouseSlots(p: Plan, d: PState, m: nat)
    requires PInv(p, d) && PEnabled(p, d, Rouse) && m < p.threadCount
    ensures SlotsAfter(p, d, Rouse)[m] == Expected(p, Next(ConfigOf(p), d.s, Rouse), m)
  {
  }

  lemma HaltSlots(p: Plan, d: PState, m: nat)
    requires PInv(p, d) && PEnabled(p, d, Halt) && m < p.threadCount
    ensures SlotsAfter(p, d, Halt)[m] == Expected(p, Next(ConfigOf(p), d.s, Halt), m)
  {
  }

  /** Waking up for nothing. */
  lemma JoltKeepsProgress(L: RankList, len: nat, n: nat)
    requires n < |L.workers| && L.workers[n].pc.Asleep?
    ensures var w := L.workers[n]; Progress(w.(pc := Woken), len, L.next) == Progress(w, len, L.next)
  {
  }

  lemma JoltSlots(p: Plan, d: PState, l: nat, n: nat, m: nat)
    requires PInv(p, d) && PEnabled(p, d, Jolt(l, n)) && m < p.threadCount
    ensures SlotsAfter(p, d, Jolt(l, n))[m] == Expected(p, Next(ConfigOf(p), d.s, Jolt(l, n)), m)
  {
    JoltKeepsProgress(d.s.lists[l], Len(p, l, n), n);
  }

  lemma PNextKeeps(p: Plan, d: PState, a: Action)
    requires PInv(p, d) && PEnabled(p, d, a)
    ensures PInv(p, PNext(p, d, a))
  {
    NextKeeps(ConfigOf(p), d.s, a);
    forall m | 0 <= m < p.threadCount
      ensures PNext(p, d, a).slots[m] == Expected(p, PNext(p, d, a).s, m)
    {
      match a
      case Step => MainSlots(p, d, m);
      case Go(l, n) => GoSlots(p, d, l, n, m);
      case Rouse => RouseSlots(p, d, m);
      case Halt => HaltSlots(p, d, m);
      case Jolt(l, n) => JoltSlots(p, d, l, n, m);
    }
  }

  lemma {:induction false} PRunKeeps(p: Plan, d: PState, acts: seq<Action>, e: PState)
    requires PInv(p, d) && PRun(p, d, acts, e)
    ensures PInv(p, e)
    decreases |acts|
  {
    if acts != [] {
      PNextKeeps(p, d, acts[0]);
      PRunKeeps(p, PNext(p, d, acts[0]), acts[1..], e);
    }
  }

  // ---------------------------------------------------------------------------
  // Refinement of the single-threaded pass
  // ---------------------------------------------------------------------------

  /** The objects of list l in iteration i, in list order. */
  function ListObjs(p: Plan, i: nat, l: nat): seq<Obj>
    requires l < |p.sizes|
  {
    seq(p.sizes[l], x requires 0 <= x < p.sizes[l] => p.obj(i, l, x))
  }

  /** The objects of the first l lists in the order a single thread visits them. */
  function Visited(p: Plan, i: nat, l: nat): seq<Obj>
    requires l <= |p.sizes|
  {
    if l == 0 then [] else Visited(p, i, l - 1) + ListObjs(p, i, l - 1)
  }

  /** The slots at the start of list l. */
  function Column(p: Plan, i: nat, l: nat): seq<SyncData>
    requires l <= |p.sizes| == |p.items| == |p.threads|
  {
    seq(p.threadCount, m requires 0 <= m < p.threadCount => Acc(p, i, l, m, 0))
  }

  /** The first c objects of slice m of list l. */
  function SlotObjs(p: Plan, i: nat, l: nat, m: nat, c: nat): seq<Obj>
    requires l < |p.sizes| == |p.items|
  {
    seq(c, x requires 0 <= x < c => p.obj(i, l, m * p.items[l] + x))
  }

  lemma {:induction false} AccIsFold(p: Plan, i: nat, l: nat, m: nat, c: nat)
    requires ValidPlan(p) && l < |p.sizes|
    ensures Acc(p, i, l, m, c) == Join(Acc(p, i, l, m, 0), Fold(p.env(i), SlotObjs(p, i, l, m, c)))
    decreases c
  {
    if 0 < c {
      AccIsFold(p, i, l, m, c - 1);
      SlotObjsSnoc(p, i, l, m, c);
    }
  }

  lemma SlotObjsSnoc(p: Plan, i: nat, l: nat, m: nat, c: nat)
    requires ValidPlan(p) && l < |p.sizes| && 0 < c
    ensures var os := SlotObjs(p, i, l, m, c);
            os[..c - 1] == SlotObjs(p, i, l, m, c - 1) && os[c - 1] == p.obj(i, l, m * p.items[l] + (c - 1))
  {
  }

  /** What list l adds to slot m. */
  function Share(p: Plan, i: nat, l: nat, m: nat): SyncData
    requires l < |p.sizes| == |p.items| == |p.threads|
  {
    Fold(p.env(i), SlotObjs(p, i, l, m, Len(p, l, m)))
  }

  /** The part of slot k is the part of slice k. */
  lemma ShareIsPart(p: Plan, i: nat, l: nat, k: nat)
    requires ValidPlan(p) && l < |p.sizes| && k < p.threads[l]
    ensures k * p.items[l] <= p.sizes[l] && EvenSlice(k, p.items[l], p.sizes[l]).End() <= p.sizes[l]
    ensures Share(p, i, l, k) == Fold(p.env(i), Part(ListObjs(p, i, l), EvenSlice(k, p.items[l], p.sizes[l])))
  {
    SliceStartsInside(p.sizes[l], p.items[l], p.threads[l], k);
    assert SlotObjs(p, i, l, k, Len(p, l, k)) == Part(ListObjs(p, i, l), EvenSlice(k, p.items[l], p.sizes[l]));
  }

  lemma SharesMerge(p: Plan, i: nat, l: nat, shares: seq<SyncData>)
    requires ValidPlan(p) && l < |p.sizes|
    requires |shares| == p.threadCount && forall m :: 0 <= m < p.threadCount ==> shares[m] == Share(p, i, l, m)
    ensures JoinAll(shares) == Fold(p.env(i), ListObjs(p, i, l))
  {
    var n, items, threads := p.sizes[l], p.items[l], p.threads[l];
    forall k | 0 <= k < threads ensures k * items <= n { ShareIsPart(p, i, l, k); }
    var ss := seq(threads, k requires 0 <= k < threads => EvenSlice(k, items, n));
    EvenSlicing(n, items, threads, ss);
    forall k | 0 <= k < threads
      ensures ss[k].End() <= n && shares[..threads][k] == Fold(p.env(i), Part(ListObjs(p, i, l), ss[k]))
    {
      ShareIsPart(p, i, l, k);
    }
    ParallelRefinesSequential(p.env(i), ListObjs(p, i, l), ss, shares[..threads]);
    forall k | threads <= k < p.threadCount ensures shares[k] == Fresh { IdleShare(p, i, l, k); }
    TailFresh(shares, threads);
  }

  lemma IdleShare(p: Plan, i: nat, l: nat, k: nat)
    requires ValidPlan(p) && l < |p.sizes| && p.threads[l] <= k
    ensures Share(p, i, l, k) == Fresh
  {
  }

  lemma {:induction false} TailFresh(a: seq<SyncData>, k: nat)
    requires k <= |a| && forall j :: k <= j < |a| ==> a[j] == Fresh
    ensures JoinAll(a) == JoinAll(a[..k])
    decreases |a|
  {
    if k == |a| {
      assert a[..k] == a;
    } else {
      TailFresh(a[..|a| - 1], k);
      assert a[..|a| - 1][..k] == a[..k];
    }
  }

  lemma ColumnStep(p: Plan, i: nat, k: nat, m: nat)
    requires ValidPlan(p) && k < |p.sizes|
    ensures Acc(p, i, k + 1, m, 0) == Join(Acc(p, i, k, m, 0), Share(p, i, k, m))
  {
    AccIsFold(p, i, k, m, Len(p, k, m));
  }

  lemma ListMerges(p: Plan, i: nat, k: nat, shares: seq<SyncData>)
    requires ValidPlan(p) && k < |p.sizes|
    requires |shares| == p.threadCount && forall m :: 0 <= m < p.threadCount ==> shares[m] == Share(p, i, k, m)
    ensures JoinAll(Column(p, i, k + 1)) == Join(JoinAll(Column(p, i, k)), JoinAll(shares))
  {
    forall m | 0 <= m < p.threadCount ensures Column(p, i, k + 1)[m] == Join(Column(p, i, k)[m], shares[m]) {
      ColumnStep(p, i, k, m);
    }
    JoinAllPointwise(Column(p, i, k), shares, Column(p, i, k + 1));
  }

  lemma {:induction false} ColumnMerges(p: Plan, i: nat, l: nat)
    requires ValidPlan(p) && l <= |p.sizes|
    ensures JoinAll(Column(p, i, l)) == Fold(p.env(i), Visited(p, i, l))
    decreases l
  {
    if l == 0 {
      JoinAllFresh(Column(p, i, 0));
    } else {
      var shares := seq(p.threadCount, m requires 0 <= m < p.threadCount => Share(p, i, l - 1, m));
      ColumnMerges(p, i, l - 1);
      SharesMerge(p, i, l - 1, shares);
      ListMerges(p, i, l - 1, shares);
      FoldConcat(p.env(i), Visited(p, i, l - 1), ListObjs(p, i, l - 1));
    }
  }

  /** The pass just completed, or the lists of the running pass completed so far. */
  function DoneLists(p: Plan, s: State): (nat, nat)
  {
    if s.cur == 0 then if s.iter == 0 then (0, 0) else (s.iter - 1, |p.sizes|) else (s.iter, s.cur)
  }

  lemma Invariant(p: Plan, d: PState)
    requires PReachable(p, d)
    ensures PInv(p, d)
  {
    var acts: seq<Action> :| PRun(p, PInitial(p), acts, d);
    ConfigIsValid(p);
    InitialInv(ConfigOf(p));
    PRunKeeps(p, PInitial(p), acts, d);
  }

  lemma MergedIsFold(p: Plan, d: PState)
    requires PInv(p, d) && d.s.cpc.Outside?
    ensures DoneLists(p, d.s).1 <= |p.sizes|
    ensures JoinAll(d.slots) == Fold(p.env(DoneLists(p, d.s).0), Visited(p, DoneLists(p, d.s).0, DoneLists(p, d.s).1))
  {
    var (i, l) := DoneLists(p, d.s);
    assert d.slots == Column(p, i, l);
    ColumnMerges(p, i, l);
  }

  /** Whatever the interleaving, whenever the main thread is outside the barriers the merged thread
      data is what one thread would have collected by visiting the same objects in order: the same
      earliest time, the same count of hard events, and a failure exactly if one of them failed. */
  lemma ParallelPassRefinesSequential(p: Plan, d: PState)
    requires PReachable(p, d) && d.s.cpc.Outside?
    ensures DoneLists(p, d.s).1 <= |p.sizes|
    ensures JoinAll(d.slots) == Fold(p.env(DoneLists(p, d.s).0), Visited(p, DoneLists(p, d.s).0, DoneLists(p, d.s).1))
  {
    Invariant(p, d);
    MergedIsFold(p, d);
  }

  lemma SucceededIff(p: Plan, d: PState)
    requires PInv(p, d) && d.s.cpc.Outside?
    ensures DoneLists(p, d.s).1 <= |p.sizes|
    ensures AllSucceeded(d.slots) <==>
            NoneStopped(p.env(DoneLists(p, d.s).0), Visited(p, DoneLists(p, d.s).0, DoneLists(p, d.s).1))
  {
    MergedIsFold(p, d);
    AllSucceededJoins(d.slots);
    FoldFails(p.env(DoneLists(p, d.s).0), Visited(p, DoneLists(p, d.s).0, DoneLists(p, d.s).1));
  }

  /** The main thread refuses to continue exactly when some object synchronised so far in the pass has
      stopped its clock. */
  lemma FailureStopsPassIff(p: Plan, d: PState)
    requires PReachable(p, d) && d.s.cpc.Outside?
    ensures DoneLists(p, d.s).1 <= |p.sizes|
    ensures AllSucceeded(d.slots) <==>
            NoneStopped(p.env(DoneLists(p, d.s).0), Visited(p, DoneLists(p, d.s).0, DoneLists(p, d.s).1))
  {
    Invariant(p, d);
    SucceededIff(p, d);
  }
}
