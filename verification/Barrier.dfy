/** The start/done barrier between the main thread and the worker threads of a rank list, as a
    transition system whose atomic steps are the lock operations, waits and assignments of the
    program. One definition covers both uses: the object thread pools of the executive, with one
    barrier per rank list and a call counter to wait on, and the end-use pool, which waits on a
    time and a run counter together. */
module Barrier {

  // ---------------------------------------------------------------------------
  // State
  // ---------------------------------------------------------------------------

  const WORD: int := 0x1_0000_0000

  /** An unsigned int: counters wrap around. */
  type Word = w: int | 0 <= w < 0x1_0000_0000

  function Succ(w: Word): Word { if w + 1 == WORD then 0 else w + 1 }

  function Pred(w: Word): Word { if w == 0 then WORD - 1 else w - 1 }

  /** What a worker compares with the announced value to decide whether it has been called. The
      executive uses `run` only; the end-use pool uses both parts. */
  datatype Ticket = Ticket(time: int, run: Word)

  datatype Kind = Counter | TimeAndRun

  /** `lens[l][n]` is the number of objects worker n of list l handles; `created(l, n)` says whether
      pthread_create succeeds for it; `time(i)` is the time announced in iteration i. */
  datatype Config = Config(kind: Kind, lens: seq<seq<nat>>, created: (nat, nat) -> bool, time: nat -> int)

  datatype WPc =
    | Unborn     // before pthread_create
    | Absent     // pthread_create failed
    | Loop       // top of the loop, about to lock startlock
    | Test       // holds startlock, about to compare tickets
    | Asleep     // in pthread_cond_wait on start, startlock released
    | Woken      // awake again, must reacquire startlock
    | Release    // holds startlock, has been called
    | Work       // processing object k of its slice
    | Stamp      // about to copy the announced ticket
    | AskDone    // about to lock donelock
    | Count      // holds donelock, about to decrement donecount
    | Signal     // holds donelock, about to broadcast done
    | LeaveDone  // holds donelock, about to unlock it

  /** `runs` counts completed slices; it is not a program variable. */
  datatype Worker = Worker(pc: WPc, ticket: Ticket, k: nat, slot: nat, runs: nat)

  datatype Holder = Nobody | Main | Thread(n: nat)

  /** `rounds` counts announcements; it is not a program variable. */
  datatype RankList = RankList(workers: seq<Worker>, next: Ticket, donecount: Word,
                               startHeld: Holder, doneHeld: Holder, rounds: nat)

  datatype CPc =
    | Outside    // not in any barrier: checks, merges, transforms, everything else
    | Spawn      // about to create worker idx of list cur
    | Name       // about to store that worker's number in its record
    | TakeDone   // about to lock donelock
    | SetCount   // about to set donecount
    | TakeStart  // about to lock startlock
    | Bump       // about to announce the call
    | WakeAll    // about to broadcast start
    | DropStart  // about to unlock startlock
    | Check      // holds donelock, about to test donecount
    | Dozing     // in pthread_cond_wait on done, donelock released
    | Roused     // awake again, must reacquire donelock
    | DropDone   // saw donecount == 0, about to unlock donelock
    | Halted     // main loop left

  datatype State = State(cpc: CPc, cur: nat, idx: nat, iter: nat, lists: seq<RankList>)

  datatype Action =
    | Step                      // the main thread's next step
    | Halt                      // the main loop ends or throws
    | Rouse                     // spurious wakeup of the main thread
    | Go(l: nat, n: nat)        // worker n of list l takes its next step
    | Jolt(l: nat, n: nat)      // spurious wakeup of that worker

  predicate Spurious(a: Action) { a.Rouse? || a.Jolt? }

  ghost predicate ValidConfig(c: Config)
  {
    && |c.lens| > 0
    && forall l :: 0 <= l < |c.lens| ==> 0 < |c.lens[l]| < WORD
  }

  function InitialWorker(): Worker { Worker(Unborn, Ticket(0, 0), 0, 0, 0) }

  function InitialList(n: nat): RankList
  {
    RankList(seq(n, _ => InitialWorker()), Ticket(0, 0), 0, Nobody, Nobody, 0)
  }

  function Initial(c: Config): State
  {
    State(Outside, 0, 0, 0, seq(|c.lens|, l requires 0 <= l < |c.lens| => InitialList(|c.lens[l]|)))
  }

  // ---------------------------------------------------------------------------
  // Steps
  // ---------------------------------------------------------------------------

  ghost predicate Shaped(c: Config, s: State)
  {
    && ValidConfig(c)
    && |s.lists| == |c.lens|
    && s.cur < |s.lists|
    && (forall l :: 0 <= l < |s.lists| ==> |s.lists[l].workers| == |c.lens[l]|)
    && (s.cpc.Spawn? || s.cpc.Name? ==> s.idx < |c.lens[s.cur]|)
  }

  predicate WorkerCanGo(L: RankList, n: nat)
    requires n < |L.workers|
  {
    match L.workers[n].pc
    case Unborn | Absent | Asleep => false
    case Loop | Woken => L.startHeld.Nobody?
    case AskDone => L.doneHeld.Nobody?
    case _ => true
  }

  predicate MainCanStep(s: State)
    requires s.cur < |s.lists|
  {
    match s.cpc
    case TakeDone | Roused => s.lists[s.cur].doneHeld.Nobody?
    case TakeStart => s.lists[s.cur].startHeld.Nobody?
    case Dozing | Halted => false
    case _ => true
  }

  ghost predicate Enabled(c: Config, s: State, a: Action)
    requires Shaped(c, s)
  {
    match a
    case Step => MainCanStep(s)
    case Halt => s.cpc.Outside?
    case Rouse => s.cpc.Dozing?
    case Go(l, n) => l < |s.lists| && n < |s.lists[l].workers| && WorkerCanGo(s.lists[l], n)
    case Jolt(l, n) => l < |s.lists| && n < |s.lists[l].workers| && s.lists[l].workers[n].pc.Asleep?
  }

  function SetWorker(L: RankList, n: nat, w: Worker): RankList
    requires n < |L.workers|
  {
    L.(workers := L.workers[n := w])
  }

  /** The end-use worker advances its own run counter instead of copying the shared one. */
  function Stamped(kind: Kind, own: Ticket, next: Ticket): Ticket
  {
    if kind.Counter? then next else Ticket(next.time, Succ(own.run))
  }

  /** One step of worker n, on its list. */
  function WorkerStep(kind: Kind, len: nat, L: RankList, n: nat): RankList
    requires n < |L.workers|
  {
    var w := L.workers[n];
    match w.pc
    case Loop => SetWorker(L, n, w.(pc := Test)).(startHeld := Thread(n))
    case Woken => SetWorker(L, n, w.(pc := Test)).(startHeld := Thread(n))
    case Test =>
      if w.ticket == L.next then SetWorker(L, n, w.(pc := Asleep)).(startHeld := Nobody)
      else SetWorker(L, n, w.(pc := Release))
    case Release => SetWorker(L, n, w.(pc := Work)).(startHeld := Nobody)
    case Work =>
      if w.k < len then SetWorker(L, n, w.(k := w.k + 1))
      else SetWorker(L, n, w.(pc := Stamp, k := 0))
    case Stamp => SetWorker(L, n, w.(pc := AskDone, ticket := Stamped(kind, w.ticket, L.next), runs := w.runs + 1))
    case AskDone => SetWorker(L, n, w.(pc := Count)).(doneHeld := Thread(n))
    case Count => SetWorker(L, n, w.(pc := Signal)).(donecount := Pred(L.donecount))
    case Signal => SetWorker(L, n, w.(pc := LeaveDone))
    case LeaveDone => SetWorker(L, n, w.(pc := Loop)).(doneHeld := Nobody)
    case _ => L
  }

  function Wake(w: Worker): Worker { if w.pc.Asleep? then w.(pc := Woken) else w }

  function Announce(c: Config, iter: nat, last: Ticket): Ticket
  {
    Ticket(if c.kind.Counter? then last.time else c.time(iter), Succ(last.run))
  }

  /** The main thread's step, as seen by the list it is working on. */
  ghost function MainList(c: Config, s: State): RankList
    requires Shaped(c, s)
  {
    var L := s.lists[s.cur];
    match s.cpc
    case Spawn => SetWorker(L, s.idx, L.workers[s.idx].(pc := if c.created(s.cur, s.idx) then Loop else Absent))
    case Name =>
      if c.created(s.cur, s.idx) then SetWorker(L, s.idx, L.workers[s.idx].(slot := s.idx)) else L
    case TakeDone => L.(doneHeld := Main)
    case SetCount => L.(donecount := |L.workers|)
    case TakeStart => L.(startHeld := Main)
    case Bump => L.(next := Announce(c, s.iter, L.next), rounds := L.rounds + 1)
    case WakeAll => L.(workers := seq(|L.workers|, n requires 0 <= n < |L.workers| => Wake(L.workers[n])))
    case DropStart => L.(startHeld := Nobody)
    case Check => if L.donecount > 0 then L.(doneHeld := Nobody) else L
    case Roused => L.(doneHeld := Main)
    case DropDone => L.(doneHeld := Nobody)
    case _ => L
  }

  /** The main thread's own program counter and indices after its step. Threads are created in the
      first iteration only. */
  ghost function MainStep(c: Config, s: State): State
    requires Shaped(c, s)
  {
    var t := s.(lists := s.lists[s.cur := MainList(c, s)]);
    match s.cpc
    case Outside => if s.iter == 0 then t.(cpc := Spawn, idx := 0) else t.(cpc := TakeDone)
    case Spawn => t.(cpc := Name)
    case Name => if s.idx + 1 < |c.lens[s.cur]| then t.(cpc := Spawn, idx := s.idx + 1) else t.(cpc := TakeDone)
    case TakeDone => t.(cpc := SetCount)
    case SetCount => t.(cpc := TakeStart)
    case TakeStart => t.(cpc := Bump)
    case Bump => t.(cpc := WakeAll)
    case WakeAll => t.(cpc := DropStart)
    case DropStart => t.(cpc := Check)
    case Check => t.(cpc := if s.lists[s.cur].donecount > 0 then Dozing else DropDone)
    case Roused => t.(cpc := Check)
    case DropDone =>
      if s.cur + 1 < |c.lens| then t.(cpc := Outside, cur := s.cur + 1)
      else t.(cpc := Outside, cur := 0, iter := s.iter + 1)
    case _ => s
  }

  ghost function Next(c: Config, s: State, a: Action): (t: State)
    requires Shaped(c, s) && Enabled(c, s, a)
    ensures Shaped(c, t)
  {
    match a
    case Step => MainStep(c, s)
    case Halt => s.(cpc := Halted)
    case Rouse => s.(cpc := Roused)
    case Go(l, n) =>
      var t := s.(lists := s.lists[l := WorkerStep(c.kind, c.lens[l][n], s.lists[l], n)]);
      if s.lists[l].workers[n].pc.Signal? && l == s.cur && s.cpc.Dozing? then t.(cpc := Roused) else t
    case Jolt(l, n) =>
      var w := s.lists[l].workers[n];
      s.(lists := s.lists[l := SetWorker(s.lists[l], n, w.(pc := Woken))])
  }

  /** s reaches t by taking the given steps in order. */
  ghost predicate Run(c: Config, s: State, acts: seq<Action>, t: State)
    requires Shaped(c, s)
    ensures Run(c, s, acts, t) ==> Shaped(c, t)
    decreases |acts|
  {
    if acts == [] then s == t
    else Enabled(c, s, acts[0]) && Run(c, Next(c, s, acts[0]), acts[1..], t)
  }

  ghost predicate Reachable(c: Config, s: State)
  {
    ValidConfig(c) && exists acts: seq<Action> :: Run(c, Initial(c), acts, s)
  }
}
