/** What the barrier guarantees in every reachable state and over every run. */
module BarrierTheorems {
  import opened Barrier
  import opened BarrierInvariant

  predicate InBarrier(s: State) { !s.cpc.Outside? && !s.cpc.Halted? }

  ghost predicate IsWorker(s: State, l: nat, n: nat) { l < |s.lists| && n < |s.lists[l].workers| }

  lemma Known(c: Config, s: State, l: nat, n: nat)
    requires Reachable(c, s) && IsWorker(s, l, n)
    ensures Inv(c, s)
    ensures ListOK(c.kind, s.lists[l], c.lens[l], Made(c, l), ViewOf(c, s, l))
    ensures WorkerOK(c.kind, s.lists[l], c.lens[l][n], c.created(l, n), n, ViewOf(c, s, l))
  {
    ReachableInv(c, s);
    assert ListOK(c.kind, s.lists[l], c.lens[l], Made(c, l), ViewOf(c, s, l));
    assert WorkerOK(c.kind, s.lists[l], c.lens[l][n], Made(c, l)(n), n, ViewOf(c, s, l));
  }

  // ---------------------------------------------------------------------------
  // Safety
  // ---------------------------------------------------------------------------

  /** When the main thread leaves its wait, every worker of the list exists, has completed its slice
      as often as the list was called, and is back at rest waiting for a call it has not had. */
  lemma LeavesOnlyWhenAllRan(c: Config, s: State, n: nat)
    requires Reachable(c, s) && s.cpc.DropDone? && n < |c.lens[s.cur]|
    ensures c.created(s.cur, n)
    ensures s.lists[s.cur].workers[n].runs == s.iter + 1
    ensures Resting(s.lists[s.cur].workers[n].pc)
    ensures s.lists[s.cur].workers[n].ticket == s.lists[s.cur].next
  {
    Known(c, s, s.cur, n);
    var L := s.lists[s.cur];
    if Uncounted(L.workers[n], L.next) { LeftPositive(L.workers, L.next, n); }
  }

  /** Outside the barriers nothing runs, and every worker of every list has run its slice exactly
      once per completed call: lists before the current one once more than the others. */
  lemma OutsideAllQuiet(c: Config, s: State, l: nat, n: nat)
    requires Reachable(c, s) && !InBarrier(s) && IsWorker(s, l, n)
    ensures var w := s.lists[l].workers[n];
            || (w.pc.Unborn? && s.iter == 0 && s.cur <= l && w.runs == 0)
            || (w.pc.Absent? && w.runs == 0)
            || (Resting(w.pc) && w.runs == s.iter + if l < s.cur then 1 else 0)
  {
    Known(c, s, l, n);
  }

  /** A worker that is past its wait on start works for the list the main thread is waiting on. */
  lemma BusyIsCurrent(c: Config, s: State, l: nat, n: nat)
    requires Reachable(c, s) && IsWorker(s, l, n)
    requires var pc := s.lists[l].workers[n].pc; !pc.Unborn? && !pc.Absent? && !Resting(pc)
    ensures l == s.cur && CallOut(s)
  {
    Known(c, s, l, n);
  }

  /** Every list has its own worker number n, but at most one of them can be inside its slice, so the
      shared slot n of the thread data never has two writers; and the writer uses its own number,
      although the main thread stores it only after starting the thread. */
  lemma OneWriterPerSlot(c: Config, s: State, l: nat, n: nat, k: nat, m: nat)
    requires Reachable(c, s) && IsWorker(s, l, n) && IsWorker(s, k, m)
    requires s.lists[l].workers[n].pc.Work? && s.lists[k].workers[m].pc.Work?
    requires (l, n) != (k, m)
    ensures s.lists[l].workers[n].slot == n
    ensures s.lists[l].workers[n].slot != s.lists[k].workers[m].slot
  {
    Known(c, s, l, n);
    Known(c, s, k, m);
    BusyIsCurrent(c, s, l, n);
    BusyIsCurrent(c, s, k, m);
  }

  /** The announced value is written under startlock but read by finishing workers without it: no
      worker of any list is at that read, or inside its slice, while it is written. */
  lemma NoRaceOnAnnouncement(c: Config, s: State, l: nat, n: nat)
    requires Reachable(c, s) && IsWorker(s, l, n) && s.cpc.Bump?
    ensures var pc := s.lists[l].workers[n].pc; pc.Absent? || pc.Unborn? || Resting(pc)
    ensures l == s.cur ==> !s.lists[l].workers[n].pc.Test?
  {
    Known(c, s, l, n);
  }

  /** In a pool that announces times, a worker past its wait, and before it has stamped the call, finds the time of
      the present iteration announced, in every call. */
  lemma ReadsPresentTime(c: Config, s: State, l: nat, n: nat)
    requires Reachable(c, s) && IsWorker(s, l, n) && c.kind.TimeAndRun?
    requires var pc := s.lists[l].workers[n].pc; pc.Release? || pc.Work? || pc.Stamp?
    ensures s.lists[l].next.time == c.time(s.iter)
  {
    BusyIsCurrent(c, s, l, n);
    var acts: seq<Action> :| Run(c, Initial(c), acts, s);
    RunAnnounces(c, Initial(c), acts, s);
  }

  /** Both pools' stamping rules leave the worker with exactly the announced ticket. */
  lemma StampMatches(c: Config, s: State, l: nat, n: nat)
    requires Reachable(c, s) && IsWorker(s, l, n) && s.lists[l].workers[n].pc.Stamp?
    ensures Stamped(c.kind, s.lists[l].workers[n].ticket, s.lists[l].next) == s.lists[l].next
  {
    Known(c, s, l, n);
  }

  /** A worker in its slice takes one object more with every step, and leaves only after the last. */
  lemma SliceIsFinished(c: Config, s: State, l: nat, n: nat)
    requires Reachable(c, s) && IsWorker(s, l, n) && s.lists[l].workers[n].pc.Work? && Enabled(c, s, Go(l, n))
    ensures var w, v := s.lists[l].workers[n], Next(c, s, Go(l, n)).lists[l].workers[n];
            && w.k <= c.lens[l][n] && (v.pc.Work? <==> w.k < c.lens[l][n]) && (v.pc.Work? ==> v.k == w.k + 1)
            && (!v.pc.Work? ==> v.pc.Stamp?)
  {
    Known(c, s, l, n);
  }

  /** A thread that waits may wake up at any time, without having been called. */
  lemma MayWakeUncalled(c: Config, s: State, l: nat, n: nat)
    requires Reachable(c, s) && IsWorker(s, l, n)
    ensures s.cpc.Dozing? ==> Enabled(c, s, Rouse) && Next(c, s, Rouse) == s.(cpc := Roused)
    ensures s.lists[l].workers[n].pc.Asleep? ==>
              Enabled(c, s, Jolt(l, n)) && Next(c, s, Jolt(l, n)).lists[l].workers[n].pc.Woken?
  {
    Known(c, s, l, n);
  }

  /** The unsigned counter is positive whenever it is about to be decremented. */
  lemma CountNeverWraps(c: Config, s: State, l: nat, n: nat)
    requires Reachable(c, s) && IsWorker(s, l, n) && s.lists[l].workers[n].pc.Count?
    ensures 0 < s.lists[l].donecount
    ensures Pred(s.lists[l].donecount) == s.lists[l].donecount - 1
  {
    Known(c, s, l, n);
    LeftPositive(s.lists[l].workers, s.lists[l].next, n);
  }

  /** No wakeup is lost. A worker sleeps through a call only in the instant between the announcement
      and the broadcast, and the main thread sleeps on a zero count only while the worker that
      brought it to zero is about to broadcast. */
  lemma NoLostWakeup(c: Config, s: State, l: nat, n: nat)
    requires Reachable(c, s) && IsWorker(s, l, n)
    ensures s.lists[l].workers[n].pc.Asleep? && s.lists[l].workers[n].ticket != s.lists[l].next
            ==> l == s.cur && s.cpc.WakeAll?
    ensures s.cpc.Dozing? && s.lists[s.cur].donecount == 0
            ==> exists m :: 0 <= m < |s.lists[s.cur].workers| && s.lists[s.cur].workers[m].pc.Signal?
  {
    Known(c, s, l, n);
    assert ListOK(c.kind, s.lists[s.cur], c.lens[s.cur], Made(c, s.cur), ViewOf(c, s, s.cur));
  }

  // ---------------------------------------------------------------------------
  // Progress
  // ---------------------------------------------------------------------------

  ghost predicate CanMove(c: Config, s: State)
    requires Shaped(c, s)
  {
    exists a :: Enabled(c, s, a) && !Spurious(a) && !a.Halt?
  }

  ghost predicate AllCreated(c: Config, l: nat)
    requires l < |c.lens|
  {
    forall n :: 0 <= n < |c.lens[l]| ==> c.created(l, n)
  }

  /** Whoever holds a lock can take its next step: the two locks cannot deadlock. */
  lemma HolderMoves(c: Config, s: State, n: nat)
    requires Inv(c, s) && n < |s.lists[s.cur].workers|
    requires s.lists[s.cur].startHeld == Thread(n) || s.lists[s.cur].doneHeld == Thread(n)
    ensures CanMove(c, s)
  {
    assert ListOK(c.kind, s.lists[s.cur], c.lens[s.cur], Made(c, s.cur), ViewOf(c, s, s.cur));
    assert WorkerOK(c.kind, s.lists[s.cur], c.lens[s.cur][n], Made(c, s.cur)(n), n, ViewOf(c, s, s.cur));
    assert Enabled(c, s, Go(s.cur, n));
  }

  /** Deadlock freedom: unless the main loop has ended, some thread can take a step that is not a
      spurious wakeup, provided the threads of the list being run were all created. */
  lemma SomeStepEnabled(c: Config, s: State)
    requires Reachable(c, s) && !s.cpc.Halted?
    requires InBarrier(s) ==> AllCreated(c, s.cur)
    ensures CanMove(c, s)
  {
    ReachableInv(c, s);
    CanStillMove(c, s);
  }

  lemma CanStillMove(c: Config, s: State)
    requires Inv(c, s) && !s.cpc.Halted?
    requires InBarrier(s) ==> AllCreated(c, s.cur)
    ensures CanMove(c, s)
  {
    var L := s.lists[s.cur];
    assert ListOK(c.kind, L, c.lens[s.cur], Made(c, s.cur), ViewOf(c, s, s.cur));
    if MainCanStep(s) {
      assert Enabled(c, s, Step);
    } else if L.doneHeld.Thread? {
      HolderMoves(c, s, L.doneHeld.n);
    } else if L.startHeld.Thread? {
      HolderMoves(c, s, L.startHeld.n);
    } else {
      assert s.cpc.Dozing? && L.donecount > 0;
      var n := LeftWitness(L.workers, L.next);
      assert WorkerOK(c.kind, L, c.lens[s.cur][n], Made(c, s.cur)(n), n, ViewOf(c, s, s.cur));
      assert Enabled(c, s, Go(s.cur, n));
    }
  }

  // ---------------------------------------------------------------------------
  // A round is finite
  // ---------------------------------------------------------------------------

  function Sum(a: seq<nat>): nat
  {
    if a == [] then 0 else Sum(a[..|a| - 1]) + a[|a| - 1]
  }

  lemma {:induction false} SumLe(a: seq<nat>, b: seq<nat>)
    requires |a| == |b| && forall i :: 0 <= i < |a| ==> a[i] <= b[i]
    ensures Sum(a) <= Sum(b)
    decreases |a|
  {
    if a != [] { SumLe(a[..|a| - 1], b[..|b| - 1]); }
  }

  lemma {:induction false} SumDrop(a: seq<nat>, b: seq<nat>, i: nat, d: nat)
    requires |a| == |b| && i < |a| && a[i] + d <= b[i]
    requires forall j :: 0 <= j < |a| ==> a[j] <= b[j]
    ensures Sum(a) + d <= Sum(b)
    decreases |a|
  {
    if i == |a| - 1 { SumLe(a[..i], b[..i]); }
    else { SumDrop(a[..|a| - 1], b[..|b| - 1], i, d); }
  }

  lemma {:induction false} SumRise(a: seq<nat>, b: seq<nat>, i: nat, d: nat)
    requires |a| == |b| && i < |a| && a[i] <= b[i] + d
    requires forall j :: 0 <= j < |a| && j != i ==> a[j] == b[j]
    ensures Sum(a) <= Sum(b) + d
    decreases |a|
  {
    if i == |a| - 1 { SumLe(a[..i], b[..i]); }
    else { SumRise(a[..|a| - 1], b[..|b| - 1], i, d); }
  }

  /** A worker's part in the current round: about to be called, called, or not concerned. */
  datatype Role = Upcoming | Serving | Bystander

  function RoleOf(s: State, l: nat): Role
  {
    if l != s.cur || !InBarrier(s) then Bystander else if CallOut(s) then Serving else Upcoming
  }

  /** How many more steps the worker can take before the end of the round, spurious wakeups aside. */
  function Rank(w: Worker, len: nat, role: Role, next: Ticket): nat
  {
    match w.pc
    case Unborn => if role.Upcoming? then 18 + len else 0
    case Absent => 0
    case Loop => if role.Upcoming? then 17 + len else if role.Serving? && w.ticket != next then 14 + len else 3
    case Woken => if role.Upcoming? then 17 + len else if role.Serving? && w.ticket != next then 14 + len else 3
    case Test => if role.Upcoming? then 16 + len else if role.Serving? && w.ticket != next then 13 + len else 2
    case Asleep => if role.Upcoming? || (role.Serving? && w.ticket != next) then 15 + len else 1
    case Release => 12 + len
    case Work => 11 + if w.k <= len then len - w.k else 0
    case Stamp => 10
    case AskDone => 9
    case Count => 8
    case Signal => 7
    case LeaveDone => 6
  }

  function MainRank(s: State, n: nat): nat
  {
    match s.cpc
    case Spawn => 20 + 2 * (if s.idx < n then n - s.idx else 0)
    case Name => 19 + 2 * (if s.idx < n then n - s.idx else 0)
    case TakeDone => 12
    case SetCount => 11
    case TakeStart => 10
    case Bump => 9
    case WakeAll => 8
    case DropStart => 7
    case Roused => 4
    case Check => 3
    case Dozing => 2
    case DropDone => 1
    case _ => 0
  }

  function ListRanks(L: RankList, lens: seq<nat>, role: Role): seq<nat>
    requires |L.workers| == |lens|
  {
    seq(|lens|, n requires 0 <= n < |lens| => Rank(L.workers[n], lens[n], role, L.next))
  }

  ghost function ListWork(c: Config, s: State, l: nat): nat
    requires Shaped(c, s) && l < |s.lists|
  {
    Sum(ListRanks(s.lists[l], c.lens[l], RoleOf(s, l)))
  }

  ghost function Works(c: Config, s: State): seq<nat>
    requires Shaped(c, s)
  {
    seq(|s.lists|, l requires 0 <= l < |s.lists| => ListWork(c, s, l))
  }

  /** An upper bound on the steps left in the current round. */
  ghost function Measure(c: Config, s: State): nat
    requires Shaped(c, s)
  {
    4 * Sum(Works(c, s)) + MainRank(s, |c.lens[s.cur]|)
  }

  /** A worker's own step brings it closer to the end of the round. */
  lemma RankDrops(kind: Kind, L: RankList, len: nat, made: bool, v: View, n: nat, role: Role)
    requires n < |L.workers| && WorkerOK(kind, L, len, made, n, v) && WorkerCanGo(L, n)
    requires v.mode.Called? ==> L.startHeld.Main?
    requires role == if v.mode.Called? || v.mode.Running? then Serving else role
    requires role.Serving? ==> v.mode.Called? || v.mode.Running?
    ensures var M := WorkerStep(kind, len, L, n);
            Rank(M.workers[n], len, role, L.next) < Rank(L.workers[n], len, role, L.next)
  {
  }

  lemma ListRankDrops(kind: Kind, L: RankList, lens: seq<nat>, made: bool, v: View, n: nat, role: Role)
    requires |L.workers| == |lens| && n < |lens|
    requires WorkerOK(kind, L, lens[n], made, n, v) && WorkerCanGo(L, n)
    requires v.mode.Called? ==> L.startHeld.Main?
    requires role == if v.mode.Called? || v.mode.Running? then Serving else role
    requires role.Serving? ==> v.mode.Called? || v.mode.Running?
    ensures Sum(ListRanks(WorkerStep(kind, lens[n], L, n), lens, role)) < Sum(ListRanks(L, lens, role))
  {
    var M := WorkerStep(kind, lens[n], L, n);
    RankDrops(kind, L, lens[n], made, v, n, role);
    assert M.next == L.next && forall m :: 0 <= m < |lens| && m != n ==> M.workers[m] == L.workers[m];
    SumDrop(ListRanks(M, lens, role), ListRanks(L, lens, role), n, 1);
  }

  lemma GoRanks(c: Config, s: State, l: nat, n: nat)
    requires Inv(c, s) && InBarrier(s) && Enabled(c, s, Go(l, n))
    ensures var t := Next(c, s, Go(l, n)); RoleOf(t, l) == RoleOf(s, l) && ListWork(c, t, l) < ListWork(c, s, l)
  {
    var v := ViewOf(c, s, l);
    assert ListOK(c.kind, s.lists[l], c.lens[l], Made(c, l), v);
    assert WorkerOK(c.kind, s.lists[l], c.lens[l][n], Made(c, l)(n), n, v);
    ListRankDrops(c.kind, s.lists[l], c.lens[l], Made(c, l)(n), v, n, RoleOf(s, l));
  }

  lemma GoElsewhere(c: Config, s: State, l: nat, n: nat, j: nat)
    requires Inv(c, s) && InBarrier(s) && Enabled(c, s, Go(l, n)) && j < |s.lists| && j != l
    ensures ListWork(c, Next(c, s, Go(l, n)), j) == ListWork(c, s, j)
  {
    var t := Next(c, s, Go(l, n));
    assert t.lists[j] == s.lists[j] && RoleOf(t, j) == RoleOf(s, j);
  }

  lemma GoMainRank(c: Config, s: State, l: nat, n: nat)
    requires Shaped(c, s) && InBarrier(s) && Enabled(c, s, Go(l, n))
    ensures var t, threads := Next(c, s, Go(l, n)), |c.lens[s.cur]|;
            t.cur == s.cur && InBarrier(t) && MainRank(t, threads) <= MainRank(s, threads) + 2
  {
  }

  lemma GoDecreases(c: Config, s: State, l: nat, n: nat)
    requires Inv(c, s) && InBarrier(s) && Enabled(c, s, Go(l, n))
    ensures Measure(c, Next(c, s, Go(l, n))) < Measure(c, s)
  {
    GoRanks(c, s, l, n);
    GoMainRank(c, s, l, n);
    forall j | 0 <= j < |s.lists| && j != l
      ensures Works(c, Next(c, s, Go(l, n)))[j] == Works(c, s)[j]
    {
      GoElsewhere(c, s, l, n, j);
    }
    SumDrop(Works(c, Next(c, s, Go(l, n))), Works(c, s), l, 1);
  }

  lemma MainRanksOne(c: Config, s: State, n: nat)
    requires Inv(c, s) && InBarrier(s) && MainCanStep(s) && !s.cpc.DropDone? && n < |c.lens[s.cur]|
    ensures var t := MainStep(c, s);
            var L, M := s.lists[s.cur], t.lists[s.cur];
            && |L.workers| == |M.workers| == |c.lens[s.cur]|
            && Rank(M.workers[n], c.lens[s.cur][n], RoleOf(t, s.cur), M.next)
               <= Rank(L.workers[n], c.lens[s.cur][n], RoleOf(s, s.cur), L.next)
  {
    var L := s.lists[s.cur];
    assert ListOK(c.kind, L, c.lens[s.cur], Made(c, s.cur), ViewOf(c, s, s.cur));
    assert WorkerOK(c.kind, L, c.lens[s.cur][n], Made(c, s.cur)(n), n, ViewOf(c, s, s.cur));
  }

  lemma MainRanks(c: Config, s: State)
    requires Inv(c, s) && InBarrier(s) && MainCanStep(s) && !s.cpc.DropDone?
    ensures ListWork(c, MainStep(c, s), s.cur) <= ListWork(c, s, s.cur)
  {
    var t := MainStep(c, s);
    var L, M := s.lists[s.cur], t.lists[s.cur];
    forall n | 0 <= n < |L.workers|
      ensures Rank(M.workers[n], c.lens[s.cur][n], RoleOf(t, s.cur), M.next)
              <= Rank(L.workers[n], c.lens[s.cur][n], RoleOf(s, s.cur), L.next)
    {
      MainRanksOne(c, s, n);
    }
    SumLe(ListRanks(M, c.lens[s.cur], RoleOf(t, s.cur)), ListRanks(L, c.lens[s.cur], RoleOf(s, s.cur)));
  }

  lemma MainRankDrops(c: Config, s: State)
    requires Shaped(c, s) && InBarrier(s) && MainCanStep(s) && !s.cpc.DropDone?
    ensures var t := MainStep(c, s);
            InBarrier(t) && t.cur == s.cur && MainRank(t, |c.lens[s.cur]|) < MainRank(s, |c.lens[s.cur]|)
  {
  }

  lemma MainDecreases(c: Config, s: State)
    requires Inv(c, s) && InBarrier(s) && MainCanStep(s) && !s.cpc.DropDone?
    ensures InBarrier(MainStep(c, s)) && Measure(c, MainStep(c, s)) < Measure(c, s)
  {
    var t := MainStep(c, s);
    MainRanks(c, s);
    MainRankDrops(c, s);
    forall j | 0 <= j < |s.lists| && j != s.cur ensures Works(c, t)[j] == Works(c, s)[j] {
      assert t.lists[j] == s.lists[j] && RoleOf(t, j) == RoleOf(s, j);
    }
    SumLe(Works(c, t), Works(c, s));
  }

  lemma RouseCost(c: Config, s: State)
    requires Inv(c, s) && s.cpc.Dozing?
    ensures Measure(c, s.(cpc := Roused)) == Measure(c, s) + 2
  {
    var t := s.(cpc := Roused);
    forall j | 0 <= j < |s.lists| ensures Works(c, t)[j] == Works(c, s)[j] {
      assert RoleOf(t, j) == RoleOf(s, j);
    }
    assert Works(c, t) == Works(c, s);
  }

  lemma JoltWork(c: Config, s: State, l: nat, n: nat)
    requires Inv(c, s) && InBarrier(s) && Enabled(c, s, Jolt(l, n))
    ensures ListWork(c, Next(c, s, Jolt(l, n)), l) <= ListWork(c, s, l) + 2
  {
    var t := Next(c, s, Jolt(l, n));
    var L, M := s.lists[l], t.lists[l];
    assert forall m :: 0 <= m < |L.workers| && m != n ==> M.workers[m] == L.workers[m];
    SumRise(ListRanks(M, c.lens[l], RoleOf(t, l)), ListRanks(L, c.lens[l], RoleOf(s, l)), n, 2);
  }

  lemma JoltCost(c: Config, s: State, l: nat, n: nat)
    requires Inv(c, s) && InBarrier(s) && Enabled(c, s, Jolt(l, n))
    ensures Measure(c, Next(c, s, Jolt(l, n))) <= Measure(c, s) + 8
  {
    var t := Next(c, s, Jolt(l, n));
    JoltWork(c, s, l, n);
    forall j | 0 <= j < |s.lists| && j != l ensures Works(c, t)[j] == Works(c, s)[j] {
      assert t.lists[j] == s.lists[j] && RoleOf(t, j) == RoleOf(s, j);
    }
    SumRise(Works(c, t), Works(c, s), l, 2);
  }

  /** A spurious wakeup undoes at most eight units of progress. */
  lemma SpuriousCost(c: Config, s: State, a: Action)
    requires Inv(c, s) && InBarrier(s) && Enabled(c, s, a) && Spurious(a)
    ensures InBarrier(Next(c, s, a)) && Measure(c, Next(c, s, a)) <= Measure(c, s) + 8
  {
    if a.Rouse? { RouseCost(c, s); } else { JoltCost(c, s, a.l, a.n); }
  }

  /** The run stays inside one round, ending no later than at the decision to leave. */
  ghost predicate RoundRun(c: Config, s: State, acts: seq<Action>, t: State)
    requires Shaped(c, s)
    decreases |acts|
  {
    && InBarrier(s)
    && if acts == [] then s == t
       else !s.cpc.DropDone? && Enabled(c, s, acts[0]) && RoundRun(c, Next(c, s, acts[0]), acts[1..], t)
  }

  function Spurs(acts: seq<Action>): nat
  {
    if acts == [] then 0 else (if Spurious(acts[0]) then 1 else 0) + Spurs(acts[1..])
  }

  lemma {:induction false} RoundCost(c: Config, s: State, acts: seq<Action>, t: State)
    requires Inv(c, s) && RoundRun(c, s, acts, t)
    ensures Inv(c, t) && |acts| + Measure(c, t) <= Measure(c, s) + 9 * Spurs(acts)
    decreases |acts|
  {
    if acts != [] {
      NextKeeps(c, s, acts[0]);
      match acts[0] {
        case Step => MainDecreases(c, s);
        case Go(l, n) => GoDecreases(c, s, l, n);
        case Rouse => SpuriousCost(c, s, acts[0]);
        case Jolt(_, _) => SpuriousCost(c, s, acts[0]);
        case Halt => assert false;
      }
      RoundCost(c, Next(c, s, acts[0]), acts[1..], t);
    }
  }

  /** Eighteen steps per worker of any list and one per object. */
  function Loads(lens: seq<nat>): seq<nat> { seq(|lens|, n requires 0 <= n < |lens| => 18 + lens[n]) }

  function ListLoads(c: Config): seq<nat>
  {
    seq(|c.lens|, l requires 0 <= l < |c.lens| => Sum(Loads(c.lens[l])))
  }

  function TotalLoad(c: Config): nat { Sum(ListLoads(c)) }

  lemma WorkBound(c: Config, s: State, l: nat)
    requires Inv(c, s) && l < |s.lists|
    ensures ListWork(c, s, l) <= Sum(Loads(c.lens[l]))
  {
    assert ListOK(c.kind, s.lists[l], c.lens[l], Made(c, l), ViewOf(c, s, l));
    SumLe(ListRanks(s.lists[l], c.lens[l], RoleOf(s, l)), Loads(c.lens[l]));
  }

  lemma MeasureBound(c: Config, s: State)
    requires Inv(c, s)
    ensures Measure(c, s) <= 4 * TotalLoad(c) + 2 * |c.lens[s.cur]| + 20
  {
    WorksBound(c, s);
  }

  lemma WorksBound(c: Config, s: State)
    requires Inv(c, s)
    ensures Sum(Works(c, s)) <= TotalLoad(c)
  {
    forall l | 0 <= l < |s.lists| ensures Works(c, s)[l] <= ListLoads(c)[l] { WorkBound(c, s, l); }
    SumLe(Works(c, s), ListLoads(c));
  }

  /** Bounded waiting: under every scheduling, the steps taken within one round are bounded by the
      number of workers and objects, plus nine for each spurious wakeup that happens in it. */
  lemma RoundBound(c: Config, s: State, acts: seq<Action>, t: State)
    requires Reachable(c, s) && RoundRun(c, s, acts, t)
    ensures |acts| <= 4 * TotalLoad(c) + 2 * |c.lens[s.cur]| + 20 + 9 * Spurs(acts)
  {
    ReachableInv(c, s);
    RoundCost(c, s, acts, t);
    MeasureBound(c, s);
  }

  /** A scheduler that always lets some thread move brings the round to its end. */
  lemma {:induction false} RoundEnds(c: Config, s: State) returns (acts: seq<Action>, t: State)
    requires Inv(c, s) && InBarrier(s) && AllCreated(c, s.cur)
    ensures RoundRun(c, s, acts, t) && t.cpc.DropDone? && t.cur == s.cur && Spurs(acts) == 0
    decreases Measure(c, s)
  {
    if s.cpc.DropDone? {
      acts, t := [], s;
    } else {
      CanStillMove(c, s);
      var a :| Enabled(c, s, a) && !Spurious(a) && !a.Halt?;
      NextKeeps(c, s, a);
      match a {
        case Step => MainDecreases(c, s);
        case Go(l, n) => GoDecreases(c, s, l, n);
        case Halt => assert false;
        case Rouse => assert false;
        case Jolt(_, _) => assert false;
      }
      var rest;
      rest, t := RoundEnds(c, Next(c, s, a));
      acts := [a] + rest;
      assert acts[1..] == rest;
    }
  }

  // ---------------------------------------------------------------------------
  // A thread that could not be created
  // ---------------------------------------------------------------------------

  /** If pthread_create fails for any worker of list l the program goes on, but no run ever gets past
      that list: the main thread counts on a thread that does not exist. */
  lemma FailedCreationBlocks(c: Config, s: State, l: nat, n: nat)
    requires Reachable(c, s) && l < |c.lens| && n < |c.lens[l]| && !c.created(l, n)
    ensures s.iter == 0 && s.cur <= l
    ensures s.cur == l ==> !s.cpc.DropDone?
  {
    ReachableInv(c, s);
    Known(c, s, l, n);
    if s.cur == l && s.cpc.DropDone? { LeavesOnlyWhenAllRan(c, s, n); }
  }

  ghost predicate CanLeave(c: Config, s: State)
    requires Shaped(c, s)
  {
    exists acts: seq<Action>, t: State :: RoundRun(c, s, acts, t) && t.cpc.DropDone?
  }

  /** From inside a round, leaving the barrier is possible exactly when every thread was created. */
  lemma LeavingPossibleIff(c: Config, s: State)
    requires Reachable(c, s) && InBarrier(s)
    ensures CanLeave(c, s) <==> AllCreated(c, s.cur)
  {
    ReachableInv(c, s);
    if AllCreated(c, s.cur) {
      var acts, t := RoundEnds(c, s);
    }
    if CanLeave(c, s) {
      var acts: seq<Action>, t: State :| RoundRun(c, s, acts, t) && t.cpc.DropDone?;
      RoundStays(c, s, acts, t);
      LeavingMeansCreated(c, t);
    }
  }

  lemma LeavingMeansCreated(c: Config, t: State)
    requires Inv(c, t) && t.cpc.DropDone?
    ensures AllCreated(c, t.cur)
  {
    var L := t.lists[t.cur];
    assert ListOK(c.kind, L, c.lens[t.cur], Made(c, t.cur), ViewOf(c, t, t.cur));
    forall n | 0 <= n < |c.lens[t.cur]| ensures c.created(t.cur, n) {
      assert WorkerOK(c.kind, L, c.lens[t.cur][n], Made(c, t.cur)(n), n, ViewOf(c, t, t.cur));
      if Uncounted(L.workers[n], L.next) { LeftPositive(L.workers, L.next, n); }
    }
  }

  lemma {:induction false} RoundStays(c: Config, s: State, acts: seq<Action>, t: State)
    requires Inv(c, s) && RoundRun(c, s, acts, t)
    ensures Inv(c, t) && t.cur == s.cur && t.iter == s.iter
    decreases |acts|
  {
    if acts != [] {
      NextKeeps(c, s, acts[0]);
      RoundStays(c, Next(c, s, acts[0]), acts[1..], t);
    }
  }
}
