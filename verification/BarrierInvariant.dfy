/** The inductive invariant of the barrier. It is stated list by list: what a list may look like
    depends on the rest of the state only through a small view of the main thread. */
module BarrierInvariant {
  import opened Barrier

  /** How far the current round has come, as far as one list is concerned. */
  datatype Mode =
    | Idle     // the list is not being called
    | Ready    // donecount is set, the call not yet announced
    | Called   // announced, sleepers not yet woken
    | Running  // sleepers woken, the main thread waits or is about to leave

  /** What a list needs to know about the main thread. */
  datatype View = View(mode: Mode, holdsStart: bool, holdsDone: bool, dozing: bool, leaving: bool,
                       born: nat, named: nat, rounds: nat)

  function ModeOf(cpc: CPc): Mode
  {
    match cpc
    case TakeStart | Bump => Ready
    case WakeAll => Called
    case DropStart | Check | Dozing | Roused | DropDone => Running
    case _ => Idle
  }

  /** The main thread is in some list's barrier and has announced the call. */
  predicate CallOut(s: State) { ModeOf(s.cpc).Called? || ModeOf(s.cpc).Running? }

  /** How many workers of list j exist, and how many know their number. */
  function BornUpTo(c: Config, s: State, j: nat): nat
    requires j < |c.lens|
  {
    if s.iter > 0 || j < s.cur then |c.lens[j]|
    else if j > s.cur then 0
    else match s.cpc
      case Outside | Halted => 0
      case Spawn => s.idx
      case Name => s.idx + 1
      case _ => |c.lens[j]|
  }

  function NamedUpTo(c: Config, s: State, j: nat): nat
    requires j < |c.lens|
  {
    if s.iter == 0 && j == s.cur && s.cpc.Name? then s.idx else BornUpTo(c, s, j)
  }

  /** Every list is called once per iteration. */
  function RoundsOf(s: State, j: nat): nat
  {
    s.iter + if j < s.cur || (j == s.cur && (ModeOf(s.cpc).Called? || ModeOf(s.cpc).Running?)) then 1 else 0
  }

  function ViewOf(c: Config, s: State, j: nat): View
    requires j < |c.lens|
  {
    var mine := j == s.cur;
    View(if mine then ModeOf(s.cpc) else Idle,
         mine && (s.cpc.Bump? || s.cpc.WakeAll? || s.cpc.DropStart?),
         mine && (s.cpc.SetCount? || s.cpc.TakeStart? || s.cpc.Bump? || s.cpc.WakeAll? || s.cpc.DropStart?
                  || s.cpc.Check? || s.cpc.DropDone?),
         mine && s.cpc.Dozing?,
         mine && s.cpc.DropDone?,
         BornUpTo(c, s, j), NamedUpTo(c, s, j), RoundsOf(s, j))
  }

  predicate Resting(pc: WPc) { pc.Loop? || pc.Test? || pc.Asleep? || pc.Woken? }

  /** Not called, or done with the current call. */
  predicate Served(w: Worker, L: RankList)
  {
    && (Resting(w.pc) || w.pc.Signal? || w.pc.LeaveDone?)
    && w.ticket == L.next && w.runs == L.rounds
  }

  /** Called, slice not completed. */
  predicate Pending(w: Worker, L: RankList)
  {
    && (Resting(w.pc) || w.pc.Release? || w.pc.Work? || w.pc.Stamp?)
    && Succ(w.ticket.run) == L.next.run && w.runs + 1 == L.rounds
  }

  /** Slice completed, not yet counted. */
  predicate Finished(w: Worker, L: RankList)
  {
    && (w.pc.AskDone? || w.pc.Count?)
    && w.ticket == L.next && w.runs == L.rounds
  }

  /** Until the sleepers are woken the main thread holds startlock, so nobody can have started. */
  predicate Active(w: Worker, L: RankList, mode: Mode)
  {
    if mode.Called? then Pending(w, L) && Resting(w.pc)
    else Served(w, L) || Finished(w, L) || (Pending(w, L) && !w.pc.Asleep?)
  }

  predicate WorkerOK(kind: Kind, L: RankList, len: nat, made: bool, n: nat, v: View)
    requires n < |L.workers|
  {
    var w := L.workers[n];
    && (w.pc.Unborn? <==> v.born <= n)
    && (w.pc.Absent? <==> n < v.born && !made)
    && (w.pc.Test? || w.pc.Release? <==> L.startHeld == Thread(n))
    && (w.pc.Count? || w.pc.Signal? || w.pc.LeaveDone? <==> L.doneHeld == Thread(n))
    && (if w.pc.Work? then w.k <= len else w.k == 0)
    && (w.slot == if made && n < v.named then n else 0)
    && (kind.Counter? ==> w.ticket.time == L.next.time)
    && (w.pc.Unborn? ==> w.ticket == L.next && w.runs == L.rounds == 0)
    && (w.pc.Absent? ==> w.runs == 0 && L.rounds == if v.mode.Idle? || v.mode.Ready? then 0 else 1)
    && (!w.pc.Unborn? && !w.pc.Absent? ==>
          if v.mode.Idle? || v.mode.Ready? then Served(w, L) && Resting(w.pc) else Active(w, L, v.mode))
  }

  /** Still to be counted before the main thread may leave. */
  predicate Uncounted(w: Worker, next: Ticket)
  {
    w.pc.Absent? || w.ticket != next || w.pc.AskDone? || w.pc.Count?
  }

  function Left(ws: seq<Worker>, next: Ticket): nat
  {
    if ws == [] then 0
    else Left(ws[..|ws| - 1], next) + if Uncounted(ws[|ws| - 1], next) then 1 else 0
  }

  /** Locks, counter and the main thread's wait agree. */
  predicate BooksOK(L: RankList, v: View)
  {
    && L.rounds == v.rounds
    && (L.startHeld.Main? <==> v.holdsStart)
    && (L.startHeld.Thread? ==> L.startHeld.n < |L.workers|)
    && (L.doneHeld.Main? <==> v.holdsDone)
    && (L.doneHeld.Thread? ==> L.doneHeld.n < |L.workers|)
    && (v.mode.Ready? ==> L.donecount == |L.workers|)
    && (v.mode.Called? || v.mode.Running? ==> L.donecount == Left(L.workers, L.next))
    && (v.leaving ==> L.donecount == 0)
    && (v.dozing && L.donecount == 0 ==>
          L.doneHeld.Thread? && L.workers[L.doneHeld.n].pc.Signal?)
  }

  ghost predicate WorkersOK(kind: Kind, L: RankList, lens: seq<nat>, made: nat -> bool, v: View)
    requires |L.workers| == |lens|
  {
    forall n :: 0 <= n < |lens| ==> WorkerOK(kind, L, lens[n], made(n), n, v)
  }

  ghost predicate ListOK(kind: Kind, L: RankList, lens: seq<nat>, made: nat -> bool, v: View)
  {
    && |L.workers| == |lens|
    && 0 < |lens| < WORD
    && v.named <= v.born <= |lens|
    && (!v.mode.Idle? ==> v.named == |lens|)
    && WorkersOK(kind, L, lens, made, v)
    && BooksOK(L, v)
  }

  function Made(c: Config, j: nat): nat -> bool { (n: nat) => c.created(j, n) }

  ghost predicate Inv(c: Config, s: State)
  {
    && Shaped(c, s)
    && (s.cpc.Spawn? || s.cpc.Name? ==> s.iter == 0)
    && forall j :: 0 <= j < |s.lists| ==>
         ListOK(c.kind, s.lists[j], c.lens[j], Made(c, j), ViewOf(c, s, j))
  }

  // ---------------------------------------------------------------------------
  // Counting
  // ---------------------------------------------------------------------------

  lemma {:induction false} LeftUpdate(ws: seq<Worker>, next: Ticket, n: nat, w: Worker)
    requires n < |ws|
    ensures Left(ws[n := w], next) + (if Uncounted(ws[n], next) then 1 else 0)
            == Left(ws, next) + (if Uncounted(w, next) then 1 else 0)
    decreases |ws|
  {
    var vs := ws[n := w];
    if n == |ws| - 1 {
      assert vs[..|ws| - 1] == ws[..|ws| - 1];
    } else {
      LeftUpdate(ws[..|ws| - 1], next, n, w);
      assert vs[..|ws| - 1] == ws[..|ws| - 1][n := w];
    }
  }

  lemma {:induction false} LeftSame(ws: seq<Worker>, vs: seq<Worker>, next: Ticket)
    requires |ws| == |vs|
    requires forall n :: 0 <= n < |ws| ==> (Uncounted(ws[n], next) <==> Uncounted(vs[n], next))
    ensures Left(ws, next) == Left(vs, next)
    decreases |ws|
  {
    if ws != [] { LeftSame(ws[..|ws| - 1], vs[..|vs| - 1], next); }
  }

  lemma {:induction false} LeftAll(ws: seq<Worker>, next: Ticket)
    requires forall n :: 0 <= n < |ws| ==> Uncounted(ws[n], next)
    ensures Left(ws, next) == |ws|
    decreases |ws|
  {
    if ws != [] { LeftAll(ws[..|ws| - 1], next); }
  }

  lemma {:induction false} LeftPositive(ws: seq<Worker>, next: Ticket, n: nat)
    requires n < |ws| && Uncounted(ws[n], next)
    ensures 0 < Left(ws, next)
    decreases |ws|
  {
    if n < |ws| - 1 { LeftPositive(ws[..|ws| - 1], next, n); }
  }

  lemma {:induction false} LeftWitness(ws: seq<Worker>, next: Ticket) returns (n: nat)
    requires 0 < Left(ws, next)
    ensures n < |ws| && Uncounted(ws[n], next)
    decreases |ws|
  {
    n := |ws| - 1;
    if !Uncounted(ws[n], next) { n := LeftWitness(ws[..|ws| - 1], next); }
  }

  // ---------------------------------------------------------------------------
  // Worker steps keep their list in order
  // ---------------------------------------------------------------------------

  /** The view after a worker's step: a broadcast on done wakes a dozing main thread. */
  function Heard(L: RankList, n: nat, v: View): View
    requires n < |L.workers|
  {
    if L.workers[n].pc.Signal? then v.(dozing := false) else v
  }

  lemma StepKeepsSelf(kind: Kind, L: RankList, len: nat, made: bool, v: View, n: nat)
    requires n < |L.workers| && WorkerOK(kind, L, len, made, n, v) && WorkerCanGo(L, n)
    requires v.mode.Called? ==> L.startHeld.Main?
    ensures WorkerOK(kind, WorkerStep(kind, len, L, n), len, made, n, Heard(L, n, v))
  {
  }

  /** What a worker's condition depends on. */
  lemma WorkerOKDepends(kind: Kind, L: RankList, M: RankList, len: nat, made: bool, v: View, u: View, m: nat)
    requires m < |L.workers| && m < |M.workers| && WorkerOK(kind, L, len, made, m, v)
    requires M.workers[m] == L.workers[m] && M.next == L.next && M.rounds == L.rounds
    requires M.startHeld == Thread(m) <==> L.startHeld == Thread(m)
    requires M.doneHeld == Thread(m) <==> L.doneHeld == Thread(m)
    requires u == v || u == v.(dozing := false)
    ensures WorkerOK(kind, M, len, made, m, u)
  {
  }

  lemma StepKeepsOther(kind: Kind, L: RankList, lens: seq<nat>, made: bool, v: View, n: nat, m: nat)
    requires m < |L.workers| && n < |L.workers| && m != n && n < |lens| && m < |lens|
    requires WorkerOK(kind, L, lens[m], made, m, v) && WorkerCanGo(L, n)
    requires L.workers[n].pc.Test? || L.workers[n].pc.Release? ==> L.startHeld == Thread(n)
    requires L.workers[n].pc.LeaveDone? ==> L.doneHeld == Thread(n)
    ensures WorkerOK(kind, WorkerStep(kind, lens[n], L, n), lens[m], made, m, Heard(L, n, v))
  {
    WorkerOKDepends(kind, L, WorkerStep(kind, lens[n], L, n), lens[m], made, v, Heard(L, n, v), m);
  }

  /** The number still to be counted drops exactly when the worker is counted. */
  lemma StepCounts(kind: Kind, L: RankList, len: nat, made: bool, v: View, n: nat)
    requires n < |L.workers| && WorkerOK(kind, L, len, made, n, v) && WorkerCanGo(L, n)
    ensures Left(WorkerStep(kind, len, L, n).workers, L.next)
            == Left(L.workers, L.next) - if L.workers[n].pc.Count? then 1 else 0
  {
    LeftUpdate(L.workers, L.next, n, WorkerStep(kind, len, L, n).workers[n]);
  }

  lemma StepKeepsWorkers(kind: Kind, L: RankList, lens: seq<nat>, made: nat -> bool, v: View, n: nat)
    requires |L.workers| == |lens| && WorkersOK(kind, L, lens, made, v) && n < |lens| && WorkerCanGo(L, n)
    requires v.mode.Called? ==> L.startHeld.Main?
    ensures WorkersOK(kind, WorkerStep(kind, lens[n], L, n), lens, made, Heard(L, n, v))
  {
    assert WorkerOK(kind, L, lens[n], made(n), n, v);
    forall m | 0 <= m < |lens|
      ensures WorkerOK(kind, WorkerStep(kind, lens[n], L, n), lens[m], made(m), m, Heard(L, n, v))
    {
      if m == n { StepKeepsSelf(kind, L, lens[n], made(n), v, n); }
      else { StepKeepsOther(kind, L, lens, made(m), v, n, m); }
    }
  }

  lemma StepKeepsBooks(kind: Kind, L: RankList, len: nat, made: bool, v: View, n: nat)
    requires n < |L.workers| && WorkerOK(kind, L, len, made, n, v) && BooksOK(L, v) && WorkerCanGo(L, n)
    requires v.leaving ==> v.mode.Running?
    requires v.dozing ==> v.mode.Running?
    ensures BooksOK(WorkerStep(kind, len, L, n), Heard(L, n, v))
  {
    StepCounts(kind, L, len, made, v, n);
    if L.workers[n].pc.Count? { LeftPositive(L.workers, L.next, n); }
  }

  lemma WorkerStepKeeps(kind: Kind, L: RankList, lens: seq<nat>, made: nat -> bool, v: View, n: nat)
    requires ListOK(kind, L, lens, made, v) && n < |lens| && WorkerCanGo(L, n)
    requires v.leaving || v.dozing ==> v.mode.Running?
    requires v.mode.Called? ==> v.holdsStart
    ensures ListOK(kind, WorkerStep(kind, lens[n], L, n), lens, made, Heard(L, n, v))
  {
    assert WorkerOK(kind, L, lens[n], made(n), n, v);
    StepKeepsWorkers(kind, L, lens, made, v, n);
    StepKeepsBooks(kind, L, lens[n], made(n), v, n);
  }

  lemma JoltKeeps(kind: Kind, L: RankList, lens: seq<nat>, made: nat -> bool, v: View, n: nat)
    requires ListOK(kind, L, lens, made, v) && n < |lens| && L.workers[n].pc.Asleep?
    ensures ListOK(kind, SetWorker(L, n, L.workers[n].(pc := Woken)), lens, made, v)
  {
    var u := L.workers[n].(pc := Woken);
    var M := SetWorker(L, n, u);
    LeftUpdate(L.workers, L.next, n, u);
    forall m | 0 <= m < |lens| ensures WorkerOK(kind, M, lens[m], made(m), m, v) {
      assert WorkerOK(kind, L, lens[m], made(m), m, v);
    }
  }

  // ---------------------------------------------------------------------------
  // Main thread steps keep every list in order
  // ---------------------------------------------------------------------------

  /** Other lists cannot tell that the main thread moved. */
  lemma OthersUnaware(c: Config, s: State, j: nat)
    requires Inv(c, s) && MainCanStep(s) && j < |c.lens| && j != s.cur
    ensures ViewOf(c, MainStep(c, s), j) == ViewOf(c, s, j)
  {
  }

  lemma WorkerBeforeCall(c: Config, s: State, n: nat)
    requires Inv(c, s) && MainCanStep(s) && n < |c.lens[s.cur]|
    requires ModeOf(s.cpc).Idle? || s.cpc.TakeStart?
    ensures WorkerOK(c.kind, MainList(c, s), c.lens[s.cur][n], c.created(s.cur, n), n, ViewOf(c, MainStep(c, s), s.cur))
  {
    var L := s.lists[s.cur];
    var v := ViewOf(c, s, s.cur);
    assert ListOK(c.kind, L, c.lens[s.cur], Made(c, s.cur), v);
    assert WorkerOK(c.kind, L, c.lens[s.cur][n], Made(c, s.cur)(n), n, v);
  }

  lemma WorkerAtCall(c: Config, s: State, n: nat)
    requires Inv(c, s) && n < |c.lens[s.cur]| && (s.cpc.Bump? || s.cpc.WakeAll?)
    ensures WorkerOK(c.kind, MainList(c, s), c.lens[s.cur][n], c.created(s.cur, n), n, ViewOf(c, MainStep(c, s), s.cur))
  {
    var L := s.lists[s.cur];
    var v := ViewOf(c, s, s.cur);
    assert ListOK(c.kind, L, c.lens[s.cur], Made(c, s.cur), v);
    assert WorkerOK(c.kind, L, c.lens[s.cur][n], Made(c, s.cur)(n), n, v);
  }

  lemma WorkerDuringCall(c: Config, s: State, n: nat)
    requires Inv(c, s) && MainCanStep(s) && n < |c.lens[s.cur]| && ModeOf(s.cpc).Running?
    requires s.cpc.DropDone? ==> !Uncounted(s.lists[s.cur].workers[n], s.lists[s.cur].next)
    ensures WorkerOK(c.kind, MainList(c, s), c.lens[s.cur][n], c.created(s.cur, n), n, ViewOf(c, MainStep(c, s), s.cur))
  {
    var L := s.lists[s.cur];
    var v := ViewOf(c, s, s.cur);
    assert ListOK(c.kind, L, c.lens[s.cur], Made(c, s.cur), v);
    assert WorkerOK(c.kind, L, c.lens[s.cur][n], Made(c, s.cur)(n), n, v);
  }

  /** Announcing the call leaves everyone to be counted. */
  lemma BumpLeavesAll(c: Config, s: State)
    requires Inv(c, s) && s.cpc.Bump?
    ensures Left(MainList(c, s).workers, MainList(c, s).next) == |c.lens[s.cur]|
  {
    var L, M := s.lists[s.cur], MainList(c, s);
    var v := ViewOf(c, s, s.cur);
    assert ListOK(c.kind, L, c.lens[s.cur], Made(c, s.cur), v);
    forall n | 0 <= n < |L.workers| ensures Uncounted(M.workers[n], M.next) {
      assert WorkerOK(c.kind, L, c.lens[s.cur][n], Made(c, s.cur)(n), n, v);
    }
    LeftAll(M.workers, M.next);
  }

  lemma BooksBeforeWait(c: Config, s: State)
    requires Inv(c, s) && MainCanStep(s) && !ModeOf(s.cpc).Running?
    ensures BooksOK(MainList(c, s), ViewOf(c, MainStep(c, s), s.cur))
  {
    var L := s.lists[s.cur];
    assert ListOK(c.kind, L, c.lens[s.cur], Made(c, s.cur), ViewOf(c, s, s.cur));
    if s.cpc.Bump? {
      BumpLeavesAll(c, s);
    } else if s.cpc.WakeAll? {
      LeftSame(L.workers, MainList(c, s).workers, L.next);
    }
  }

  lemma BooksDuringWait(c: Config, s: State)
    requires Inv(c, s) && MainCanStep(s) && ModeOf(s.cpc).Running?
    ensures BooksOK(MainList(c, s), ViewOf(c, MainStep(c, s), s.cur))
  {
    assert ListOK(c.kind, s.lists[s.cur], c.lens[s.cur], Made(c, s.cur), ViewOf(c, s, s.cur));
  }

  lemma MainKeepsCurrent(c: Config, s: State)
    requires Inv(c, s) && MainCanStep(s)
    ensures ListOK(c.kind, MainList(c, s), c.lens[s.cur], Made(c, s.cur), ViewOf(c, MainStep(c, s), s.cur))
  {
    var L, M := s.lists[s.cur], MainList(c, s);
    assert ListOK(c.kind, L, c.lens[s.cur], Made(c, s.cur), ViewOf(c, s, s.cur));
    if ModeOf(s.cpc).Running? { BooksDuringWait(c, s); } else { BooksBeforeWait(c, s); }
    forall n | 0 <= n < |c.lens[s.cur]|
      ensures WorkerOK(c.kind, M, c.lens[s.cur][n], Made(c, s.cur)(n), n, ViewOf(c, MainStep(c, s), s.cur))
    {
      if s.cpc.DropDone? && Uncounted(L.workers[n], L.next) { LeftPositive(L.workers, L.next, n); }
      if ModeOf(s.cpc).Running? { WorkerDuringCall(c, s, n); }
      else if s.cpc.Bump? || s.cpc.WakeAll? { WorkerAtCall(c, s, n); }
      else { WorkerBeforeCall(c, s, n); }
    }
    assert |M.workers| == |L.workers|;
  }

  lemma MainStepLists(c: Config, s: State)
    requires Shaped(c, s) && MainCanStep(s)
    ensures Shaped(c, MainStep(c, s))
    ensures MainStep(c, s).lists == s.lists[s.cur := MainList(c, s)]
    ensures (s.cpc.Spawn? || s.cpc.Name? ==> s.iter == 0) ==>
              (MainStep(c, s).cpc.Spawn? || MainStep(c, s).cpc.Name? ==> MainStep(c, s).iter == 0)
  {
    assert Shaped(c, Next(c, s, Step));
    if s.cpc.Roused? || s.cpc.Dozing? { assert s.lists[s.cur := s.lists[s.cur]] == s.lists; }
  }

  lemma MainStepKeeps(c: Config, s: State)
    requires Inv(c, s) && MainCanStep(s)
    ensures Inv(c, MainStep(c, s))
  {
    var t := MainStep(c, s);
    MainStepLists(c, s);
    forall j | 0 <= j < |t.lists|
      ensures ListOK(c.kind, t.lists[j], c.lens[j], Made(c, j), ViewOf(c, t, j))
    {
      if j == s.cur {
        MainKeepsCurrent(c, s);
      } else {
        assert ListOK(c.kind, s.lists[j], c.lens[j], Made(c, j), ViewOf(c, s, j));
        OthersUnaware(c, s, j);
      }
    }
  }

  // ---------------------------------------------------------------------------
  // Every reachable state satisfies the invariant
  // ---------------------------------------------------------------------------

  lemma InitialInv(c: Config)
    requires ValidConfig(c)
    ensures Inv(c, Initial(c))
  {
    var s := Initial(c);
    forall j | 0 <= j < |s.lists|
      ensures ListOK(c.kind, s.lists[j], c.lens[j], Made(c, j), ViewOf(c, s, j))
    {
      forall n | 0 <= n < |c.lens[j]|
        ensures WorkerOK(c.kind, s.lists[j], c.lens[j][n], Made(c, j)(n), n, ViewOf(c, s, j))
      {
      }
    }
  }

  /** Only the worker's own list can notice its step. */
  lemma GoViews(c: Config, s: State, l: nat, n: nat, j: nat)
    requires Shaped(c, s) && Enabled(c, s, Go(l, n)) && j < |s.lists|
    ensures var t := Next(c, s, Go(l, n));
            ViewOf(c, t, j) == if j == l then Heard(s.lists[l], n, ViewOf(c, s, l)) else ViewOf(c, s, j)
  {
  }

  lemma GoKeeps(c: Config, s: State, l: nat, n: nat)
    requires Inv(c, s) && Enabled(c, s, Go(l, n))
    ensures Inv(c, Next(c, s, Go(l, n)))
  {
    var t := Next(c, s, Go(l, n));
    assert ListOK(c.kind, s.lists[l], c.lens[l], Made(c, l), ViewOf(c, s, l));
    WorkerStepKeeps(c.kind, s.lists[l], c.lens[l], Made(c, l), ViewOf(c, s, l), n);
    forall j | 0 <= j < |t.lists|
      ensures ListOK(c.kind, t.lists[j], c.lens[j], Made(c, j), ViewOf(c, t, j))
    {
      assert ListOK(c.kind, s.lists[j], c.lens[j], Made(c, j), ViewOf(c, s, j));
      GoViews(c, s, l, n, j);
    }
  }

  lemma JoltInv(c: Config, s: State, l: nat, n: nat)
    requires Inv(c, s) && Enabled(c, s, Jolt(l, n))
    ensures Inv(c, Next(c, s, Jolt(l, n)))
  {
    var t := Next(c, s, Jolt(l, n));
    assert ListOK(c.kind, s.lists[l], c.lens[l], Made(c, l), ViewOf(c, s, l));
    JoltKeeps(c.kind, s.lists[l], c.lens[l], Made(c, l), ViewOf(c, s, l), n);
    forall j | 0 <= j < |t.lists|
      ensures ListOK(c.kind, t.lists[j], c.lens[j], Made(c, j), ViewOf(c, t, j))
    {
      assert ListOK(c.kind, s.lists[j], c.lens[j], Made(c, j), ViewOf(c, s, j));
      assert ViewOf(c, t, j) == ViewOf(c, s, j);
    }
  }

  /** A spurious wakeup of the main thread, or its leaving the loop, changes no list. */
  lemma PauseKeeps(c: Config, s: State, t: State)
    requires Inv(c, s)
    requires (s.cpc.Dozing? && t == s.(cpc := Roused)) || (s.cpc.Outside? && t == s.(cpc := Halted))
    ensures Inv(c, t)
  {
    forall j | 0 <= j < |t.lists|
      ensures ListOK(c.kind, t.lists[j], c.lens[j], Made(c, j), ViewOf(c, t, j))
    {
      assert ListOK(c.kind, s.lists[j], c.lens[j], Made(c, j), ViewOf(c, s, j));
      assert ViewOf(c, t, j) == ViewOf(c, s, j).(dozing := false);
    }
  }

  lemma NextKeeps(c: Config, s: State, a: Action)
    requires Inv(c, s) && Enabled(c, s, a)
    ensures Inv(c, Next(c, s, a))
  {
    match a
    case Step => MainStepKeeps(c, s);
    case Go(l, n) => GoKeeps(c, s, l, n);
    case Jolt(l, n) => JoltInv(c, s, l, n);
    case Rouse => PauseKeeps(c, s, Next(c, s, a));
    case Halt => PauseKeeps(c, s, Next(c, s, a));
  }

  lemma {:induction false} RunKeeps(c: Config, s: State, acts: seq<Action>, t: State)
    requires Inv(c, s) && Run(c, s, acts, t)
    ensures Inv(c, t)
    decreases |acts|
  {
    if acts != [] {
      NextKeeps(c, s, acts[0]);
      RunKeeps(c, Next(c, s, acts[0]), acts[1..], t);
    }
  }

  lemma ReachableInv(c: Config, s: State)
    requires Reachable(c, s)
    ensures Inv(c, s)
  {
    var acts: seq<Action> :| Run(c, Initial(c), acts, s);
    InitialInv(c);
    RunKeeps(c, Initial(c), acts, s);
  }

  // ---------------------------------------------------------------------------
  // The announced time
  // ---------------------------------------------------------------------------

  /** While a call that announces a time is out, the time is that of the present iteration. */
  ghost predicate TimeAnnounced(c: Config, s: State)
    requires Shaped(c, s)
  {
    c.kind.TimeAndRun? && CallOut(s) ==> s.lists[s.cur].next.time == c.time(s.iter)
  }

  lemma WorkersKeepNext(kind: Kind, len: nat, L: RankList, n: nat)
    requires n < |L.workers|
    ensures WorkerStep(kind, len, L, n).next == L.next
  {
  }

  lemma NextAnnounces(c: Config, s: State, a: Action)
    requires Shaped(c, s) && Enabled(c, s, a) && TimeAnnounced(c, s)
    ensures TimeAnnounced(c, Next(c, s, a))
  {
    if a.Go? { WorkersKeepNext(c.kind, c.lens[a.l][a.n], s.lists[a.l], a.n); }
  }

  lemma {:induction false} RunAnnounces(c: Config, s: State, acts: seq<Action>, t: State)
    requires Shaped(c, s) && TimeAnnounced(c, s) && Run(c, s, acts, t)
    ensures TimeAnnounced(c, t)
    decreases |acts|
  {
    if acts != [] {
      NextAnnounces(c, s, acts[0]);
      RunAnnounces(c, Next(c, s, acts[0]), acts[1..], t);
    }
  }
}
