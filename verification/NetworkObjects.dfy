/** The network, its interfaces and messages as objects: what polling and commit do to them, link by link. */
module NetworkObjects {
  import opened Options
  import opened Sync
  import opened Network
  import opened Links
  import opened Unlinking

  // ---------------------------------------------------------------------------
  // When an interface has something to send
  // ---------------------------------------------------------------------------

  datatype Duplex = DXM_FULL_DUPLEX | DXM_HALF_DUPLEX | DXM_XMIT_ONLY | DXM_RECV_ONLY

  datatype SendMode = NSM_UPDATE | NSM_INTERVAL | NSM_UPDATE_PERIOD

  /** What polling an interface depends on: how it is set up, when it last sent, and its data buffer. */
  datatype Setting = Setting(duplex: Duplex, mode: SendMode, updateRate: int, lastSend: int, held: seq<char>)

  /** Whether polling the parent's data at the given time queues a message. */
  function Wants(p: Setting, now: int, data: seq<char>): bool
  {
    if p.duplex.DXM_RECV_ONLY? then false
    else if !p.mode.NSM_UPDATE? && p.lastSend + p.updateRate <= now then true
    else if !p.mode.NSM_INTERVAL? then p.held != data
    else false
  }

  function Polled(p: Setting, now: int, data: seq<char>): Setting
  {
    if Wants(p, now, data) then p.(held := data, lastSend := now) else p
  }

  /** What polling an interface queues. */
  function Asked(p: Setting, to: nat, size: real, now: int, data: seq<char>, id: nat): Option<Offer>
  {
    if Wants(p, now, data) then Some(Offer(id, to, size)) else None
  }

  /** A message read from the inbox is copied over the start of the buffer. */
  function Overlaid(held: seq<char>, text: seq<char>): (r: seq<char>)
    ensures |r| == |held|
  {
    if |text| <= |held| then text + held[|text|..] else text[..|held|]
  }

  function OverlaidAll(held: seq<char>, texts: seq<seq<char>>): (r: seq<char>)
    ensures |r| == |held|
  {
    if texts == [] then held else Overlaid(OverlaidAll(held, texts[..|texts| - 1]), texts[|texts| - 1])
  }

  /** An interface polled again after it queued a message, having read messages meanwhile, is silent until the
      data differ from what it holds then, if it looks at them, or its interval is over, if it has one. */
  lemma PolledAgainIff(p: Setting, now: int, data: seq<char>, texts: seq<seq<char>>, later: int, other: seq<char>)
    requires Wants(p, now, data)
    ensures var q := Polled(p, now, data);
            Wants(q.(held := OverlaidAll(q.held, texts)), later, other) <==>
              || (!p.mode.NSM_INTERVAL? && other != OverlaidAll(data, texts))
              || (!p.mode.NSM_UPDATE? && now + p.updateRate <= later)
  {
  }

  /** What an interface holds after reading messages: at every place the character of the last message that reaches
      so far, or what it held before. */
  lemma OverlaidMeans(held: seq<char>, texts: seq<seq<char>>, text: seq<char>, k: nat)
    requires k < |held|
    ensures OverlaidAll(held, []) == held
    ensures OverlaidAll(held, texts + [text])[k] == if k < |text| then text[k] else OverlaidAll(held, texts)[k]
  {
    assert (texts + [text])[..|texts|] == texts;
  }

  function Zeros(n: nat): seq<char> { seq(n, i => '\0') }

  /** The first poll compares with a cleared buffer: it queues a message if and only if the interface may send, and
      its interval is over, or it looks at data and they are not all zero. */
  lemma FirstPollIff(p: Setting, now: int, data: seq<char>)
    requires p.held == Zeros(|data|)
    ensures Wants(p, now, data) <==>
            && !p.duplex.DXM_RECV_ONLY?
            && (|| (!p.mode.NSM_UPDATE? && p.lastSend + p.updateRate <= now)
                || (!p.mode.NSM_INTERVAL? && exists k :: 0 <= k < |data| && data[k] != '\0'))
  {
    if p.held != data {
      var k :| 0 <= k < |data| && p.held[k] != data[k];
      assert data[k] != '\0';
    }
  }

  // ---------------------------------------------------------------------------
  // Messages and interfaces
  // ---------------------------------------------------------------------------

  class Node {
    var msg: Msg
    var next: Node?
    var prev: Node?

    /** Memory for a message. */
    constructor (msg: Msg)
      ensures this.msg == msg && next == null && prev == null
    {
      this.msg, next, prev := msg, null, null;
    }
  }

  function Opt(a: Node?): Option<Node> { if a == null then None else Some(a) }

  class Interface {
    const sendRate: real
    const duplex: Duplex
    const mode: SendMode
    const updateRate: int
    const size: real
    /** The number of the interface it sends to. */
    const to: nat
    var bandwidthUsed: real
    var lastSend: int
    var held: seq<char>
    var outbox: Node?
    var inbox: Node?
    var next: Interface?
    /** Its place among the interfaces of its network. */
    var number: nat

    /** Memory is cleared, the data buffer with it. */
    constructor (sendRate: real, duplex: Duplex, mode: SendMode, updateRate: int, size: real, to: nat, bufferSize: nat)
      ensures this.sendRate == sendRate && this.size == size && this.to == to
      ensures State() == Setting(duplex, mode, updateRate, 0, Zeros(bufferSize))
      ensures outbox == null && inbox == null && bandwidthUsed == 0.0 && next == null
    {
      this.sendRate, this.duplex, this.mode, this.updateRate := sendRate, duplex, mode, updateRate;
      this.size, this.to := size, to;
      bandwidthUsed, lastSend, held, next := 0.0, 0, Zeros(bufferSize), null;
      outbox, inbox := null, null;
    }

    function State(): Setting
      reads `lastSend, `held
    {
      Setting(duplex, mode, updateRate, lastSend, held)
    }

    /** Polls the parent's data; a new message, in new memory, becomes the head of the outbox. It has no link back,
        and the head before gets none. */
    method CheckBuffer(now: int, data: seq<char>, id: nat, spare: Node) returns (wrote: bool)
      modifies `outbox, `lastSend, `held, spare
      ensures State() == Polled(old(State()), now, data)
      ensures wrote == Wants(old(State()), now, data)
      ensures wrote ==>
        && outbox == spare && spare.msg == Queued(Offer(id, to, size), now)
        && spare.next == old(outbox) && spare.prev == null
      ensures !wrote ==> outbox == old(outbox) && unchanged(spare)
    {
      wrote := false;
      var timeForUpdate := lastSend + updateRate <= now;
      if duplex.DXM_RECV_ONLY? { return; }
      if (mode.NSM_INTERVAL? || mode.NSM_UPDATE_PERIOD?) && timeForUpdate {
        wrote := true;
      } else if mode.NSM_UPDATE? || mode.NSM_UPDATE_PERIOD? {
        wrote := held != data;
      }
      if !wrote { return; }
      held := data;
      spare.msg := Msg(id, to, size, now, 0.0, 0.0, 0.0, now, 0, NMS_NONE);
      spare.prev := null;
      spare.next := outbox;
      outbox := spare;
      lastSend := now;
    }
  }

  // ---------------------------------------------------------------------------
  // Heaps without loose ends
  // ---------------------------------------------------------------------------

  ghost predicate Within<A>(h: Heap<A>, p: Option<A>) { p.Some? ==> p.value in h.cells }

  ghost predicate CellClosed<A>(h: Heap<A>, a: A)
    requires a in h.cells
  {
    Within(h, h.cells[a].next) && Within(h, h.cells[a].prev) && h.cells[a].msg.to < |h.inbox|
  }

  ghost predicate Closed<A>(h: Heap<A>)
  {
    && |h.inbox| == |h.outbox| && (forall a :: a in h.cells ==> CellClosed(h, a))
    && forall i :: 0 <= i < |h.outbox| ==> Within(h, h.outbox[i]) && Within(h, h.inbox[i])
  }

  lemma ClosedSetMsg<A>(h: Heap<A>, a: A, m: Msg)
    requires Closed(h) && m.to < |h.inbox|
    ensures Closed(SetMsg(h, a, m))
  {
    var g := SetMsg(h, a, m);
    forall x | x in g.cells ensures CellClosed(g, x) { assert CellClosed(h, x); }
  }

  lemma ClosedQueue<A>(h: Heap<A>, i: nat, a: A, m: Msg)
    requires Closed(h) && m.to < |h.inbox|
    ensures Closed(Queue(h, i, a, m))
  {
    var g := Queue(h, i, a, m);
    forall x | x in g.cells ensures CellClosed(g, x) { assert x in h.cells ==> CellClosed(h, x); }
  }

  lemma ClosedSetNext<A>(h: Heap<A>, p: Option<A>, q: Option<A>)
    requires Closed(h) && Within(h, q)
    ensures Closed(SetNext(h, p, q)) && SetNext(h, p, q).cells.Keys == h.cells.Keys
  {
    var g := SetNext(h, p, q);
    forall x | x in g.cells ensures CellClosed(g, x) { assert CellClosed(h, x); }
  }

  lemma ClosedSetPrev<A>(h: Heap<A>, p: Option<A>, q: Option<A>)
    requires Closed(h) && Within(h, q)
    ensures Closed(SetPrev(h, p, q)) && SetPrev(h, p, q).cells.Keys == h.cells.Keys
  {
    var g := SetPrev(h, p, q);
    forall x | x in g.cells ensures CellClosed(g, x) { assert CellClosed(h, x); }
  }

  lemma ClosedHeads<A>(h: Heap<A>, i: nat, p: Option<A>, j: nat, q: Option<A>)
    requires Closed(h) && Within(h, p) && Within(h, q)
    ensures Closed(h.(outbox := SetHead(h.outbox, i, p))) && Closed(h.(inbox := SetHead(h.inbox, j, q)))
  {
    var f, g := h.(outbox := SetHead(h.outbox, i, p)), h.(inbox := SetHead(h.inbox, j, q));
    forall x | x in h.cells ensures CellClosed(f, x) && CellClosed(g, x) { assert CellClosed(h, x); }
  }

  lemma ClosedTake<A>(h: Heap<A>, i: nat, a: A, now: int, latency: real)
    requires Closed(h) && a in h.cells
    ensures Closed(Take(h, i, a, now, latency))
  {
    assert CellClosed(h, a);
    var c := h.cells[a];
    var top := Head(h.inbox, c.msg.to);
    ClosedSetMsg(h, a, Deliver(c.msg, now, latency));
    var h1 := SetMsg(h, a, Deliver(c.msg, now, latency));
    ClosedSetNext(h1, c.prev, c.next);
    ClosedSetPrev(SetNext(h1, c.prev, c.next), c.next, c.prev);
    var h2 := SetPrev(SetNext(h1, c.prev, c.next), c.next, c.prev);
    ClosedHeads(h2, i, c.next, i, None);
    var h3 := if Head(h2.outbox, i) == Some(a) then h2.(outbox := SetHead(h2.outbox, i, c.next)) else h2;
    ClosedSetNext(h3, Some(a), top);
    ClosedSetPrev(SetNext(h3, Some(a), top), top, Some(a));
    ClosedHeads(SetPrev(SetNext(h3, Some(a), top), top, Some(a)), i, None, c.msg.to, Some(a));
  }

  lemma {:induction false} ClosedUpdateFrom<A>(h: Heap<A>, cur: Option<A>, now: int, n: nat)
    requires Closed(h) && UpdateFrom(h, cur, now, n).Some?
    ensures Closed(UpdateFrom(h, cur, now, n).value)
    ensures |UpdateFrom(h, cur, now, n).value.inbox| == |h.inbox|
    decreases n
  {
    if cur.Some? {
      var c := h.cells[cur.value];
      assert CellClosed(h, cur.value);
      ClosedSetMsg(h, cur.value, Accrue(c.msg, now));
      ClosedUpdateFrom(SetMsg(h, cur.value, Accrue(c.msg, now)), c.next, now, n - 1);
    }
  }

  lemma {:induction false} ClosedRateFrom<A>(h: Heap<A>, cur: Option<A>, bw: real, used: real, cap: real, n: nat)
    requires Closed(h) && RateFrom(h, cur, bw, used, cap, n).Some?
    ensures Closed(RateFrom(h, cur, bw, used, cap, n).value.0)
    decreases n
  {
    if cur.Some? {
      var c := h.cells[cur.value];
      var m := Serve(bw, used, cap, c.msg);
      assert CellClosed(h, cur.value);
      ClosedSetMsg(h, cur.value, m);
      ClosedRateFrom(SetMsg(h, cur.value, m), c.next, bw, used + m.rate, cap, n - 1);
    }
  }

  lemma {:induction false} ClosedUpdateTo<A>(h: Heap<A>, i: nat, now: int, n: nat)
    requires Closed(h) && UpdateTo(h, i, now, n).Some?
    ensures Closed(UpdateTo(h, i, now, n).value)
  {
    if i > 0 {
      ClosedUpdateTo(h, i - 1, now, n);
      var g := UpdateTo(h, i - 1, now, n).value;
      ClosedUpdateFrom(g, Head(g.outbox, i - 1), now, n);
    }
  }

  lemma {:induction false} ClosedRateTo<A>(h: Heap<A>, caps: seq<real>, bw: real, i: nat, n: nat)
    requires Closed(h) && i <= |caps| && RateTo(h, caps, bw, i, n).Some?
    ensures Closed(RateTo(h, caps, bw, i, n).value.0)
  {
    if i > 0 {
      ClosedRateTo(h, caps, bw, i - 1, n);
      var g := RateTo(h, caps, bw, i - 1, n).value;
      ClosedRateFrom(g.0, Head(g.0.outbox, i - 1), bw, g.1, caps[i - 1], n);
    }
  }

  /** What polling makes of the network, interface by interface. */
  ghost predicate PollAt<A>(gs: seq<Heap<A>>, t: Tick, addrs: seq<A>, i: nat)
    requires i < |addrs| == |t.offers| == |gs| - 1
  {
    gs[i + 1] == if t.offers[i].Some? then Queue(gs[i], i, addrs[i], Queued(t.offers[i].value, t.now)) else gs[i]
  }

  ghost predicate Polling<A>(gs: seq<Heap<A>>, t: Tick, addrs: seq<A>)
  {
    |addrs| == |t.offers| == |gs| - 1 && forall i :: 0 <= i < |addrs| ==> PollAt(gs, t, addrs, i)
  }

  lemma PollingOf<A>(h: Heap<A>, t: Tick, addrs: seq<A>) returns (gs: seq<Heap<A>>)
    requires |addrs| == |t.offers|
    ensures Polling(gs, t, addrs) && gs[0] == h && gs[|addrs|] == PollTo(h, t, addrs, |addrs|)
  {
    gs := seq(|addrs| + 1, i requires 0 <= i <= |addrs| == |t.offers| => PollTo(h, t, addrs, i));
    forall i | 0 <= i < |addrs| ensures PollAt(gs, t, addrs, i) {
      assert gs[i] == PollTo(h, t, addrs, i) && gs[i + 1] == PollTo(h, t, addrs, i + 1);
    }
  }

  lemma {:induction false} ClosedPollTo<A>(h: Heap<A>, t: Tick, addrs: seq<A>, i: nat)
    requires Closed(h) && i <= |addrs| == |t.offers| == |h.inbox|
    requires forall k :: 0 <= k < i && t.offers[k].Some? ==> t.offers[k].value.to < |h.inbox|
    ensures Closed(PollTo(h, t, addrs, i)) && |PollTo(h, t, addrs, i).inbox| == |h.inbox|
  {
    if i > 0 {
      ClosedPollTo(h, t, addrs, i - 1);
      if t.offers[i - 1].Some? {
        ClosedQueue(PollTo(h, t, addrs, i - 1), i - 1, addrs[i - 1], Queued(t.offers[i - 1].value, t.now));
      }
    }
  }

  // ---------------------------------------------------------------------------
  // Walks that end have ended before
  // ---------------------------------------------------------------------------

  lemma {:induction false} Prefixes<A>(h: Heap<A>, caps: seq<real>, bw: real, now: int, latency: real, i: nat, k: nat,
                                       n: nat)
    requires k <= i <= |caps|
    ensures UpdateTo(h, i, now, n).Some? ==> UpdateTo(h, k, now, n).Some?
    ensures ScanTo(h, caps, i, n).Some? ==> ScanTo(h, caps, k, n).Some?
    ensures RateTo(h, caps, bw, i, n).Some? ==> RateTo(h, caps, bw, k, n).Some?
    ensures ReceiveTo(h, i, now, latency, n).Some? ==> ReceiveTo(h, k, now, latency, n).Some?
  {
    if k < i { Prefixes(h, caps, bw, now, latency, i - 1, k, n); }
  }

  /** One interface more. */
  lemma UpdateNext<A>(h: Heap<A>, now: int, i: nat, k: nat, n: nat)
    requires i < k && UpdateTo(h, k, now, n).Some?
    ensures UpdateTo(h, i, now, n).Some? && UpdateTo(h, i + 1, now, n).Some?
    ensures var g := UpdateTo(h, i, now, n).value;
            UpdateTo(h, i + 1, now, n) == UpdateFrom(g, Head(g.outbox, i), now, n)
  {
    var caps := seq(k, _ => 0.0);
    Prefixes(h, caps, 0.0, now, 0.0, k, i + 1, n);
  }

  lemma ScanNext<A>(h: Heap<A>, caps: seq<real>, i: nat, n: nat)
    requires i < |caps| && ScanTo(h, caps, |caps|, n).Some?
    ensures ScanTo(h, caps, i, n).Some? && ScanFrom(h, Head(h.outbox, i), caps[i], 0.0, n).Some?
    ensures ScanTo(h, caps, i + 1, n)
            == Some(ScanTo(h, caps, i, n).value + ScanFrom(h, Head(h.outbox, i), caps[i], 0.0, n).value)
  {
    Prefixes(h, caps, 0.0, 0, 0.0, |caps|, i + 1, n);
  }

  lemma RateStep<A>(h: Heap<A>, a: A, bw: real, used: real, cap: real, k: nat, m: Msg)
    requires RateFrom(h, Some(a), bw, used, cap, k).Some?
    requires a in h.cells ==> m == Serve(bw, used, cap, h.cells[a].msg)
    ensures 0 < k && a in h.cells
    ensures var g := h.(cells := h.cells[a := h.cells[a].(msg := m)]);
            RateFrom(h, Some(a), bw, used, cap, k) == RateFrom(g, h.cells[a].next, bw, used + m.rate, cap, k - 1)
  {
  }

  /** Sharing out, interface by interface: links, and bandwidth in use. */
  ghost predicate RateAt<A>(gs: seq<(Heap<A>, real)>, caps: seq<real>, bw: real, i: nat, n: nat)
    requires i < |caps| == |gs| - 1
  {
    RateFrom(gs[i].0, Head(gs[i].0.outbox, i), bw, gs[i].1, caps[i], n) == Some(gs[i + 1])
  }

  ghost predicate Rating<A>(gs: seq<(Heap<A>, real)>, caps: seq<real>, bw: real, n: nat)
  {
    |gs| == |caps| + 1 && forall i :: 0 <= i < |caps| ==> RateAt(gs, caps, bw, i, n)
  }

  ghost predicate Differences<A>(gs: seq<(Heap<A>, real)>, shares: seq<real>)
  {
    |gs| == |shares| + 1 && forall j :: 0 <= j < |shares| ==> shares[j] == gs[j + 1].1 - gs[j].1
  }

  lemma RatingOf<A>(h: Heap<A>, caps: seq<real>, bw: real, n: nat) returns (gs: seq<(Heap<A>, real)>)
    requires RateTo(h, caps, bw, |caps|, n).Some?
    ensures Rating(gs, caps, bw, n) && gs[0] == (h, 0.0) && RateTo(h, caps, bw, |caps|, n) == Some(gs[|caps|])
    ensures Differences(gs, Shares(h, caps, bw, n))
  {
    forall i | 0 <= i <= |caps| ensures RateTo(h, caps, bw, i, n).Some? {
      Prefixes(h, caps, bw, 0, 0.0, |caps|, i, n);
    }
    gs := seq(|caps| + 1, i requires 0 <= i <= |caps| => RateTo(h, caps, bw, i, n).value);
    forall i | 0 <= i < |caps| ensures RateAt(gs, caps, bw, i, n) {
      assert RateTo(h, caps, bw, i, n) == Some(gs[i]) && RateTo(h, caps, bw, i + 1, n) == Some(gs[i + 1]);
    }
  }

  /** Receiving, interface by interface: links, and time asked for. */
  ghost predicate ReceiveAt<A>(gs: seq<(Heap<A>, Time)>, now: int, latency: real, i: nat, n: nat)
    requires i < |gs| - 1
  {
    ReceiveFrom(gs[i].0, i, Head(gs[i].0.outbox, i), now, latency, gs[i].1, n) == Some(gs[i + 1])
  }

  ghost predicate Receiving<A>(gs: seq<(Heap<A>, Time)>, now: int, latency: real, k: nat, n: nat)
  {
    |gs| == k + 1 && forall i :: 0 <= i < k ==> ReceiveAt(gs, now, latency, i, n)
  }

  lemma ReceivingOf<A>(h: Heap<A>, now: int, latency: real, k: nat, n: nat) returns (gs: seq<(Heap<A>, Time)>)
    requires ReceiveTo(h, k, now, latency, n).Some?
    ensures Receiving(gs, now, latency, k, n) && gs[0] == (h, TS_NEVER)
    ensures ReceiveTo(h, k, now, latency, n) == Some(gs[k])
  {
    var caps := seq(k, _ => 0.0);
    forall i | 0 <= i <= k ensures ReceiveTo(h, i, now, latency, n).Some? {
      Prefixes(h, caps, 0.0, now, latency, k, i, n);
    }
    gs := seq(k + 1, i requires 0 <= i <= k => ReceiveTo(h, i, now, latency, n).value);
    forall i | 0 <= i < k ensures ReceiveAt(gs, now, latency, i, n) {
      assert ReceiveTo(h, i, now, latency, n) == Some(gs[i]) && ReceiveTo(h, i + 1, now, latency, n) == Some(gs[i + 1]);
    }
  }

  // ---------------------------------------------------------------------------
  // The two halves of moving a message
  // ---------------------------------------------------------------------------

  ghost function Cut<A>(h: Heap<A>, a: A, now: int, latency: real): Heap<A>
    requires a in h.cells
  {
    var c := h.cells[a];
    SetPrev(SetNext(SetMsg(h, a, Deliver(c.msg, now, latency)), c.prev, c.next), c.next, c.prev)
  }

  ghost function Detached<A>(h: Heap<A>, i: nat, a: A, now: int, latency: real): Heap<A>
    requires a in h.cells
  {
    var g := Cut(h, a, now, latency);
    if Head(g.outbox, i) == Some(a) then g.(outbox := SetHead(g.outbox, i, h.cells[a].next)) else g
  }

  ghost function OnTop<A>(h: Heap<A>, a: A, j: nat): Heap<A>
  {
    var top := Head(h.inbox, j);
    var g := SetPrev(SetNext(h, Some(a), top), top, Some(a));
    g.(inbox := SetHead(g.inbox, j, Some(a)))
  }

  lemma TakeIs<A>(h: Heap<A>, i: nat, a: A, now: int, latency: real)
    requires a in h.cells
    ensures Take(h, i, a, now, latency) == OnTop(Detached(h, i, a, now, latency), a, h.cells[a].msg.to)
    ensures var g := Detached(h, i, a, now, latency);
            a in g.cells && g.cells[a].msg.to == h.cells[a].msg.to && g.inbox == h.inbox && g.cells.Keys == h.cells.Keys
  {
  }

  /** Where a walk that receives is: the links, the next message, and the time asked for so far. */
  datatype Spot<A> = Spot(heap: Heap<A>, cur: Option<A>, rv: Time)

  ghost predicate StepAt<A>(w: seq<Spot<A>>, q: nat, i: nat, now: int, latency: real)
    requires q < |w| - 1
  {
    w[q].cur.Some? && w[q].cur.value in w[q].heap.cells && Stepped(w[q], w[q + 1], w[q].cur.value, i, now, latency)
  }

  ghost predicate Stepped<A>(p: Spot<A>, s: Spot<A>, a: A, i: nat, now: int, latency: real)
    requires a in p.heap.cells
  {
    && s.heap == (if Done(p.heap.cells[a].msg) then Take(p.heap, i, a, now, latency) else p.heap)
    && s.cur == p.heap.cells[a].next && s.rv == Min(p.rv, Call(p.heap.cells[a].msg, now, latency))
  }

  /** A walk, spot by spot, up to its end. */
  ghost predicate Walk<A>(w: seq<Spot<A>>, i: nat, now: int, latency: real)
  {
    && w != [] && w[|w| - 1].cur == None
    && forall q :: 0 <= q < |w| - 1 ==> StepAt(w, q, i, now, latency)
  }

  lemma WalkEnds<A>(w: seq<Spot<A>>, q: nat, i: nat, now: int, latency: real)
    requires Walk(w, i, now, latency) && q < |w| && w[q].cur == None
    ensures q == |w| - 1
  {
    assert q < |w| - 1 ==> StepAt(w, q, i, now, latency);
  }

  lemma {:induction false} WalkOf<A>(s: Spot<A>, i: nat, now: int, latency: real, n: nat) returns (w: seq<Spot<A>>)
    requires ReceiveFrom(s.heap, i, s.cur, now, latency, s.rv, n).Some?
    ensures Walk(w, i, now, latency) && w[0] == s
    ensures ReceiveFrom(s.heap, i, s.cur, now, latency, s.rv, n) == Some((w[|w| - 1].heap, w[|w| - 1].rv))
    decreases n
  {
    if s.cur.None? {
      w := [s];
    } else {
      var c := s.heap.cells[s.cur.value];
      var g := if Done(c.msg) then Take(s.heap, i, s.cur.value, now, latency) else s.heap;
      var next := Spot(g, c.next, Min(s.rv, Call(c.msg, now, latency)));
      var rest := WalkOf(next, i, now, latency, n - 1);
      w := [s] + rest;
      forall q | 0 <= q < |w| - 1 ensures StepAt(w, q, i, now, latency) {
        if q > 0 { assert StepAt(rest, q - 1, i, now, latency); }
      }
    }
  }

  /** The links after each part of a call. */
  datatype Plan<A> = Plan(polled: Heap<A>, updated: Heap<A>, rated: Heap<A>, used: real, shares: seq<real>,
                          received: Heap<A>, next: Time)

  ghost predicate Planned<A>(p: Plan<A>, caps: seq<real>, bw: real, now: int, latency: real, k: nat, n: nat)
  {
    && k == |caps| && UpdateTo(p.polled, k, now, n) == Some(p.updated) && ScanTo(p.updated, caps, k, n).Some?
    && RateTo(p.updated, caps, bw, k, n) == Some((p.rated, p.used)) && p.shares == Shares(p.updated, caps, bw, n)
    && Closed(p.rated) && ReceiveTo(p.rated, k, now, latency, n) == Some((p.received, p.next))
  }

  lemma PlanOf<A>(bw: real, caps: seq<real>, h: Heap<A>, t: Tick, addrs: seq<A>, n: nat) returns (p: Plan<A>)
    requires |caps| == |addrs| == |t.offers| == |h.inbox| && CommitLinks(bw, caps, h, t, addrs, n).Some?
    requires Closed(h) && forall k :: 0 <= k < |addrs| && t.offers[k].Some? ==> t.offers[k].value.to < |h.inbox|
    ensures p.polled == PollTo(h, t, addrs, |addrs|) && Planned(p, caps, bw, t.now, t.latency, |addrs|, n)
    ensures CommitLinks(bw, caps, h, t, addrs, n) == Some(Linked(p.received, p.used, p.next))
    ensures SharesOf(bw, caps, h, t, addrs, n) == p.shares
  {
    var k := |addrs|;
    var q := PollTo(h, t, addrs, k);
    ClosedPollTo(h, t, addrs, k);
    ClosedUpdateTo(q, k, t.now, n);
    var g := UpdateTo(q, k, t.now, n).value;
    ClosedRateTo(g, caps, bw, k, n);
    var r := RateTo(g, caps, bw, k, n).value;
    var d := ReceiveTo(r.0, k, t.now, t.latency, n).value;
    p := Plan(q, g, r.0, r.1, Shares(g, caps, bw, n), d.0, d.1);
  }

  // ---------------------------------------------------------------------------
  // The network
  // ---------------------------------------------------------------------------

  function RatesOf(nifs: seq<Interface>): (r: seq<real>)
    ensures |r| == |nifs|
  {
    seq(|nifs|, i requires 0 <= i < |nifs| => nifs[i].sendRate)
  }

  function Only(nif: Interface?): set<Interface> { if nif == null then {} else {nif} }

  class CommNetwork {
    var bandwidth: real
    var bandwidthUsed: real
    var firstIf: Interface?
    var lastIf: Interface?
    /** The interfaces by number, in the order of the links. */
    var nifs: seq<Interface>
    /** The messages. */
    ghost var nodes: set<Node>

    /** The links from the first interface on spell the interfaces, none of them twice. */
    ghost predicate Ring()
      reads `nifs, `firstIf, `lastIf, nifs`next, nifs`number
    {
      && (forall k :: 0 <= k < |nifs| ==> nifs[k].number == k)
      && firstIf == At(0)
      && lastIf == (if nifs == [] then null else nifs[|nifs| - 1])
      && (forall k {:trigger nifs[k].next} :: 0 <= k < |nifs| ==> nifs[k].next == At(k + 1))
    }

    ghost function At(k: nat): Interface?
      reads `nifs
    {
      if k < |nifs| then nifs[k] else null
    }

    ghost function Cells(): map<Node, Cell<Node>>
      reads `nodes, nodes
    {
      map a | a in nodes :: Cell(a.msg, Opt(a.next), Opt(a.prev))
    }

    constructor (bandwidth: real)
      ensures Ring() && Shows(Heap(map[], [], [])) && nifs == [] && nodes == {}
      ensures this.bandwidth == bandwidth && bandwidthUsed == 0.0
    {
      this.bandwidth := bandwidth;
      bandwidthUsed, nifs, firstIf, lastIf, nodes := 0.0, [], null, null, {};
    }

    /** Attaching links an interface behind the last one: following the links then meets the same interfaces
        in the same order, and the new one at the end. A null interface is refused. One that is attached already
        becomes the last, and the links do not lead to those behind it any more. */
    method Attach(nif: Interface?) returns (ok: bool)
      requires Ring()
      modifies `nifs, `firstIf, `lastIf, nifs`next, Only(nif)`next, Only(nif)`number
      ensures ok <==> nif != null
      ensures Ring()
      ensures nif == null ==> nifs == old(nifs)
      ensures nif != null && nif !in old(nifs) ==> nifs == old(nifs) + [nif]
      ensures nif != null && nif in old(nifs) ==> nifs == old(nifs)[..old(nif.number) + 1]
    {
      if nif == null { return false; }
      if firstIf == null {
        firstIf := nif;
        lastIf := nif;
        nif.next := null;
      } else {
        lastIf.next := nif;
        lastIf := nif;
        nif.next := null;
      }
      if nif in nifs {
        nifs := nifs[..nif.number + 1];
      } else {
        nif.number := |nifs|;
        nifs := nifs + [nif];
      }
      ok := true;
    }

    // -------------------------------------------------------------------------
    // One message
    // -------------------------------------------------------------------------

    method PutMsg(a: Node, m: Msg)
      requires a in nodes
      modifies a`msg
      ensures a.msg == m && Cells() == old(Cells())[a := old(Cells())[a].(msg := m)]
    {
      a.msg := m;
      assert Cells() == old(Cells())[a := old(Cells())[a].(msg := m)];
    }

    /** The counters of one message. */
    method AccrueNode(a: Node, now: int)
      requires a in nodes
      modifies a`msg
      ensures Cells() == old(Cells())[a := old(Cells())[a].(msg := Accrue(old(a.msg), now))]
    {
      var dt := (now - a.msg.last) as real;
      var m := a.msg.(sent := a.msg.sent + a.msg.rate * dt);
      m := m.(recv := m.recv + m.rate * dt, last := now);
      assert m == Accrue(a.msg, now);
      PutMsg(a, m);
    }

    /** One message's rate; the tally that the whole bandwidth is compared with stays zero. */
    method RateNode(a: Node, cap: real, netBwUsed: real)
      requires a in nodes && netBwUsed == 0.0
      modifies a`msg
      ensures a.msg == Serve(bandwidth, bandwidthUsed, cap, old(a.msg))
      ensures Cells() == old(Cells())[a := old(Cells())[a].(msg := a.msg)]
    {
      var m := a.msg;
      if bandwidth - bandwidthUsed > cap {
        m := m.(rate := cap, state := NMS_SENDING);
      } else if bandwidth == netBwUsed {
        m := m.(rate := 0.0, state := if m.sent > 0.0 then NMS_DELAYED else NMS_REJECTED);
      } else {
        m := m.(rate := bandwidth - bandwidthUsed, state := NMS_SENDING);
      }
      var rmn := m.size - m.sent;
      if rmn < m.rate { m := m.(rate := rmn); }
      PutMsg(a, m);
    }

    /** Rates one message and adds its rate to the accounts. */
    method ShareNode(nif: Interface, a: Node, netBwUsed: real, ghost m: Msg)
      requires a in nodes && netBwUsed == 0.0 && m == Serve(bandwidth, bandwidthUsed, nif.sendRate, a.msg)
      modifies a`msg, `bandwidthUsed, nif`bandwidthUsed
      ensures Cells() == old(Cells())[a := old(Cells())[a].(msg := m)]
      ensures bandwidthUsed == old(bandwidthUsed) + m.rate && nif.bandwidthUsed == old(nif.bandwidthUsed) + m.rate
    {
      RateNode(a, nif.sendRate, netBwUsed);
      nif.bandwidthUsed := nif.bandwidthUsed + a.msg.rate;
      bandwidthUsed := bandwidthUsed + a.msg.rate;
    }

    /** Sets the next link of a message, if there is one. */
    method PutNext(a: Node?, p: Node?, ghost h: Heap<Node>)
      requires h.cells == Cells() && (a != null ==> a in nodes)
      modifies nodes`next
      ensures Cells() == SetNext(h, Opt(a), Opt(p)).cells
    {
      if a != null {
        a.next := p;
        assert Cells() == h.cells[a := h.cells[a].(next := Opt(p))];
      }
    }

    method PutPrev(a: Node?, p: Node?, ghost h: Heap<Node>)
      requires h.cells == Cells() && (a != null ==> a in nodes)
      modifies nodes`prev
      ensures Cells() == SetPrev(h, Opt(a), Opt(p)).cells
    {
      if a != null {
        a.prev := p;
        assert Cells() == h.cells[a := h.cells[a].(prev := Opt(p))];
      }
    }

    /** The interfaces have these heads. */
    ghost predicate Heads(outs: seq<Option<Node>>, ins: seq<Option<Node>>)
      reads `nifs, nifs`outbox, nifs`inbox, nifs`number
    {
      && |outs| == |ins| == |nifs| && (forall i :: 0 <= i < |nifs| ==> nifs[i].number == i)
      && forall i :: 0 <= i < |nifs| ==> outs[i] == Opt(nifs[i].outbox) && ins[i] == Opt(nifs[i].inbox)
    }

    /** The messages and heads are those of h. */
    ghost predicate Shows(h: Heap<Node>)
      reads `nifs, nifs`outbox, nifs`inbox, nifs`number, `nodes, nodes
    {
      h.cells == Cells() && Heads(h.outbox, h.inbox)
    }

    /** A finished message is unlinked, as far as its link back allows. */
    method CutNode(a: Node, now: int, latency: real, ghost h: Heap<Node>)
      requires h.cells == Cells() && Closed(h) && a in nodes
      modifies nodes
      ensures Cells() == Cut(h, a, now, latency).cells
    {
      assert CellClosed(h, a);
      var after, before := a.next, a.prev;
      ghost var h1 := SetMsg(h, a, Deliver(a.msg, now, latency));
      PutMsg(a, a.msg.(state := NMS_DELIVERED, end := now + Ceil(latency)));
      PutNext(before, after, h1);
      PutPrev(after, before, SetNext(h1, Opt(before), Opt(after)));
    }

    method UnlinkNode(nif: Interface, ghost i: nat, a: Node, now: int, latency: real, ghost h: Heap<Node>)
      requires Shows(h) && Closed(h) && i < |nifs| && nifs[i] == nif && a in nodes
      modifies nodes, nif`outbox
      ensures Shows(Detached(h, i, a, now, latency))
    {
      var after := a.next;
      CutNode(a, now, latency, h);
      assert Heads(h.outbox, h.inbox);
      if nif.outbox == a { PutOutbox(nif, i, after, Cut(h, a, now, latency)); }
    }

    method PutOutbox(nif: Interface, ghost i: nat, p: Node?, ghost h: Heap<Node>)
      requires Shows(h) && i < |nifs| && nifs[i] == nif
      modifies nif`outbox
      ensures Shows(h.(outbox := SetHead(h.outbox, i, Opt(p))))
    {
      nif.outbox := p;
    }

    method PutInbox(nif: Interface, ghost j: nat, p: Node?, ghost h: Heap<Node>)
      requires Shows(h) && j < |nifs| && nifs[j] == nif
      modifies nif`inbox
      ensures Shows(h.(inbox := SetHead(h.inbox, j, Opt(p))))
    {
      nif.inbox := p;
    }

    /** ... and goes on top of its receiver's inbox. */
    method LinkNode(dest: Interface, ghost j: nat, a: Node, ghost h: Heap<Node>)
      requires Shows(h) && j < |nifs| && nifs[j] == dest && a in nodes && (dest.inbox != null ==> dest.inbox in nodes)
      modifies nodes, dest`inbox
      ensures Shows(OnTop(h, a, j))
    {
      var top := dest.inbox;
      PutNext(a, top, h);
      PutPrev(top, a, SetNext(h, Some(a), Opt(top)));
      assert Heads(h.outbox, h.inbox);
      PutInbox(dest, j, a, SetPrev(SetNext(h, Some(a), Opt(top)), Opt(top), Some(a)));
    }

    method TakeNode(nif: Interface, ghost i: nat, a: Node, now: int, latency: real, ghost h: Heap<Node>)
      requires Shows(h) && Closed(h) && i < |nifs| && nifs[i] == nif && a in nodes
      modifies nodes, nif`outbox, nifs`inbox
      ensures Shows(Take(h, i, a, now, latency))
    {
      assert CellClosed(h, a) && Within(h, h.inbox[a.msg.to]);
      ghost var j := a.msg.to;
      TakeIs(h, i, a, now, latency);
      UnlinkNode(nif, i, a, now, latency, h);
      LinkNode(nifs[a.msg.to], j, a, Detached(h, i, a, now, latency));
    }

    // -------------------------------------------------------------------------
    // Along one outbox; h is the network before, whose heads do not change
    // -------------------------------------------------------------------------

    method UpdateBox(head: Node?, now: int, ghost h: Heap<Node>, ghost n: nat)
      requires h.cells == Cells() && UpdateFrom(h, Opt(head), now, n).Some?
      modifies nodes`msg
      ensures UpdateFrom(h, Opt(head), now, n) == Some(h.(cells := Cells()))
    {
      var cur := head;
      ghost var k := n;
      while cur != null
        invariant UpdateFrom(h.(cells := Cells()), Opt(cur), now, k) == UpdateFrom(h, Opt(head), now, n)
        decreases k
      {
        AccrueNode(cur, now);
        cur, k := cur.next, k - 1;
      }
    }

    /** What one interface would like to send. */
    method ScanBox(head: Node?, cap: real, ghost h: Heap<Node>, ghost n: nat) returns (wanted: real)
      requires h.cells == Cells() && ScanFrom(h, Opt(head), cap, 0.0, n).Some?
      ensures ScanFrom(h, Opt(head), cap, 0.0, n) == Some(wanted)
    {
      wanted := 0.0;
      var cur := head;
      ghost var k := n;
      while cur != null
        invariant ScanFrom(h, Opt(head), cap, 0.0, n) == ScanFrom(h, Opt(cur), cap, wanted, k)
        decreases k
      {
        if wanted + cur.msg.size - cur.msg.sent > cap {
          wanted := cap;
          return;
        }
        wanted := wanted + (cur.msg.size - cur.msg.sent);
        cur, k := cur.next, k - 1;
      }
    }

    /** Rates for one interface, out of what the network has left. */
    method RateBox(nif: Interface, ghost h: Heap<Node>, ghost n: nat)
      requires h.cells == Cells()
      requires RateFrom(h, Opt(nif.outbox), bandwidth, bandwidthUsed, nif.sendRate, n).Some?
      modifies nodes`msg, `bandwidthUsed, nif`bandwidthUsed
      ensures RateFrom(h, Opt(nif.outbox), bandwidth, old(bandwidthUsed), nif.sendRate, n)
              == Some((h.(cells := Cells()), bandwidthUsed))
      ensures nif.bandwidthUsed == bandwidthUsed - old(bandwidthUsed)
    {
      var netBwUsed, cur := 0.0, nif.outbox;
      nif.bandwidthUsed := 0.0;
      ghost var k, all := n, RateFrom(h, Opt(cur), bandwidth, bandwidthUsed, nif.sendRate, n);
      while cur != null
        invariant RateFrom(h.(cells := Cells()), Opt(cur), bandwidth, bandwidthUsed, nif.sendRate, k) == all
        invariant nif.bandwidthUsed == bandwidthUsed - old(bandwidthUsed)
        decreases k
      {
        cur := RateNext(nif, cur, netBwUsed, h, k, all);
        k := k - 1;
      }
    }

    /** One message more. */
    method RateNext(nif: Interface, a: Node, netBwUsed: real, ghost h: Heap<Node>, ghost k: nat,
                    ghost all: Option<(Heap<Node>, real)>) returns (after: Node?)
      requires netBwUsed == 0.0 && all.Some?
      requires RateFrom(h.(cells := Cells()), Some(a), bandwidth, bandwidthUsed, nif.sendRate, k) == all
      modifies nodes`msg, `bandwidthUsed, nif`bandwidthUsed
      ensures 0 < k
      ensures RateFrom(h.(cells := Cells()), Opt(after), bandwidth, bandwidthUsed, nif.sendRate, k - 1) == all
      ensures nif.bandwidthUsed - old(nif.bandwidthUsed) == bandwidthUsed - old(bandwidthUsed)
    {
      ghost var m := Serve(bandwidth, bandwidthUsed, nif.sendRate, a.msg);
      RateStep(h.(cells := Cells()), a, bandwidth, bandwidthUsed, nif.sendRate, k, m);
      ShareNode(nif, a, netBwUsed, m);
      after := a.next;
    }

    /** When an unfinished message will be looked at again, if that is earlier. */
    method Predict(m: Msg, now: int, rv0: Time) returns (rv: Time)
      ensures rv == Min(rv0, Wake(m, now))
    {
      rv := rv0;
      if m.rate > 0.0 {
        var secs := (m.size - m.recv) / m.rate;
        var next := if secs < 1.0 then now + 1 else secs.Floor + now;
        if next < rv { rv := next; }
      }
    }

    /** One message of an outbox, when it receives. */
    method LookAt(nif: Interface, ghost i: nat, a: Node, now: int, latency: real, rv0: Time, ghost p: Spot<Node>,
                  ghost s: Spot<Node>) returns (after: Node?, rv: Time)
      requires Shows(p.heap) && Closed(p.heap) && i < |nifs| && nifs[i] == nif && p.rv == rv0 <= TS_NEVER
      requires a in nodes && Stepped(p, s, a, i, now, latency)
      modifies nodes, nif`outbox, nifs`inbox
      ensures Shows(s.heap) && Closed(s.heap) && rv == s.rv <= TS_NEVER && Opt(after) == s.cur
    {
      rv, after := rv0, a.next;
      var m := a.msg;
      if m.recv >= m.size {
        if now + Ceil(latency) < rv { rv := now + Ceil(latency); }
        TakeNode(nif, i, a, now, latency, p.heap);
        ClosedTake(p.heap, i, a, now, latency);
      } else {
        rv := Predict(m, now, rv);
      }
    }

    /** Takes the finished messages out of one outbox; w is the walk. */
    method ReceiveBox(nif: Interface, ghost i: nat, now: int, latency: real, rv0: Time, ghost w: seq<Spot<Node>>)
      returns (rv: Time)
      requires Walk(w, i, now, latency) && w[0].cur == Opt(nif.outbox) && w[0].rv == rv0 <= TS_NEVER
      requires Shows(w[0].heap) && Closed(w[0].heap) && i < |nifs| && nifs[i] == nif
      modifies nodes, nif`outbox, nifs`inbox
      ensures rv == w[|w| - 1].rv <= TS_NEVER && Shows(w[|w| - 1].heap) && Closed(w[|w| - 1].heap)
    {
      rv := rv0;
      var cur := nif.outbox;
      ghost var q := 0;
      while cur != null
        invariant q < |w| && w[q].cur == Opt(cur) && w[q].rv == rv <= TS_NEVER
        invariant Shows(w[q].heap) && Closed(w[q].heap)
        decreases |w| - q
      {
        cur, rv := Advance(nif, i, cur, now, latency, rv, w, q);
        q := q + 1;
      }
      WalkEnds(w, q, i, now, latency);
    }

    /** One step of a walk. */
    method Advance(nif: Interface, ghost i: nat, a: Node, now: int, latency: real, rv0: Time, ghost w: seq<Spot<Node>>,
                   ghost q: nat) returns (after: Node?, rv: Time)
      requires Walk(w, i, now, latency) && q < |w| && w[q].cur == Some(a) && w[q].rv == rv0 <= TS_NEVER
      requires Shows(w[q].heap) && Closed(w[q].heap) && i < |nifs| && nifs[i] == nif
      modifies nodes, nif`outbox, nifs`inbox
      ensures q + 1 < |w| && w[q + 1].cur == Opt(after) && w[q + 1].rv == rv <= TS_NEVER
      ensures Shows(w[q + 1].heap) && Closed(w[q + 1].heap)
    {
      assert StepAt(w, q, i, now, latency);
      after, rv := LookAt(nif, i, a, now, latency, rv0, w[q], w[q + 1]);
    }

    // -------------------------------------------------------------------------
    // Along the interfaces
    // -------------------------------------------------------------------------

    method UpdateOne(nif: Interface, ghost i: nat, now: int, ghost h: Heap<Node>, ghost g: Heap<Node>, ghost n: nat)
      returns (after: Interface?, ghost f: Heap<Node>)
      requires Ring() && Shows(g) && i < |nifs| && nifs[i] == nif
      requires UpdateTo(h, |nifs|, now, n).Some? && UpdateTo(h, i, now, n) == Some(g)
      modifies nodes`msg
      ensures Ring() && UpdateTo(h, i + 1, now, n) == Some(f) && Shows(f) && after == At(i + 1)
    {
      UpdateNext(h, now, i, |nifs|, n);
      UpdateBox(nif.outbox, now, g, n);
      assert Heads(g.outbox, g.inbox);
      f := UpdateFrom(g, Head(g.outbox, i), now, n).value;
      assert nifs[i].next == At(i + 1);
      after := nif.next;
    }

    /** Every message's counters are brought up to date. */
    method Update(now: int, ghost h: Heap<Node>, ghost n: nat, ghost after: Heap<Node>)
      requires Ring() && Shows(h) && UpdateTo(h, |nifs|, now, n) == Some(after)
      modifies nodes`msg
      ensures Ring() && Shows(after)
    {
      var nif := firstIf;
      ghost var i, g := 0, h;
      while nif != null
        invariant Ring() && 0 <= i <= |nifs| && nif == At(i)
        invariant UpdateTo(h, i, now, n) == Some(g) && Shows(g)
        decreases |nifs| - i
      {
        nif, g := UpdateOne(nif, i, now, h, g, n);
        i := i + 1;
      }
    }

    method ScanOne(nif: Interface, ghost i: nat, ghost h: Heap<Node>, ghost n: nat) returns (nifBw: real)
      requires Shows(h) && i < |nifs| && nifs[i] == nif && ScanTo(h, RatesOf(nifs), |nifs|, n).Some?
      ensures ScanTo(h, RatesOf(nifs), i, n).Some?
      ensures ScanTo(h, RatesOf(nifs), i + 1, n) == Some(ScanTo(h, RatesOf(nifs), i, n).value + nifBw)
    {
      ScanNext(h, RatesOf(nifs), i, n);
      nifBw := ScanBox(nif.outbox, nif.sendRate, h, n);
    }

    /** What all interfaces together would like to send. */
    method ScanDemand(ghost h: Heap<Node>, ghost n: nat) returns (netBw: real)
      requires Ring() && Shows(h) && ScanTo(h, RatesOf(nifs), |nifs|, n).Some?
      ensures ScanTo(h, RatesOf(nifs), |nifs|, n) == Some(netBw)
    {
      netBw := 0.0;
      var nif := firstIf;
      ghost var i := 0;
      while nif != null
        invariant 0 <= i <= |nifs| && nif == At(i) && ScanTo(h, RatesOf(nifs), i, n) == Some(netBw)
        decreases |nifs| - i
      {
        var nifBw := ScanOne(nif, i, h, n);
        netBw := netBw + nifBw;
        assert nifs[i].next == At(i + 1);
        nif, i := nif.next, i + 1;
      }
    }

    /** One interface more; gs is what sharing out makes of the network, interface by interface. */
    method ShareOne(nif: Interface, ghost i: nat, ghost gs: seq<(Heap<Node>, real)>, ghost n: nat)
      requires i < |nifs| && nifs[i] == nif && Rating(gs, RatesOf(nifs), bandwidth, n)
      requires Shows(gs[i].0) && bandwidthUsed == gs[i].1
      modifies nodes`msg, `bandwidthUsed, nif`bandwidthUsed
      ensures Shows(gs[i + 1].0) && bandwidthUsed == gs[i + 1].1 && nif.bandwidthUsed == gs[i + 1].1 - gs[i].1
    {
      assert RateAt(gs, RatesOf(nifs), bandwidth, i, n);
      RateBox(nif, gs[i].0, n);
      assert Heads(gs[i].0.outbox, gs[i].0.inbox);
    }

    ghost predicate AccountedTo(shares: seq<real>, i: nat)
      requires i <= |nifs| <= |shares|
      reads `nifs, nifs`bandwidthUsed
    {
      forall j :: 0 <= j < i ==> nifs[j].bandwidthUsed == shares[j]
    }

    /** The first i interfaces have had their shares. */
    ghost predicate SharedTo(gs: seq<(Heap<Node>, real)>, shares: seq<real>, i: nat)
      requires i <= |nifs| <= |shares| && |nifs| < |gs|
      reads `firstIf, `lastIf, nifs`next, `bandwidthUsed, nifs`bandwidthUsed
      reads `nifs, nifs`outbox, nifs`inbox, nifs`number, `nodes, nodes
    {
      Ring() && Shows(gs[i].0) && bandwidthUsed == gs[i].1 && AccountedTo(shares, i)
    }

    /** Every message is given a rate, in the order of the interfaces. */
    method ShareOut(ghost h: Heap<Node>, ghost n: nat, ghost shares: seq<real>, ghost after: Heap<Node>,
                    ghost used: real)
      requires Ring() && Shows(h) && RateTo(h, RatesOf(nifs), bandwidth, |nifs|, n) == Some((after, used))
      requires shares == Shares(h, RatesOf(nifs), bandwidth, n)
      modifies nodes`msg, `bandwidthUsed, nifs`bandwidthUsed
      ensures Ring() && Shows(after) && bandwidthUsed == used && AccountedTo(shares, |nifs|)
    {
      ghost var gs := RatingOf(h, RatesOf(nifs), bandwidth, n);
      ShareAll(gs, RatesOf(nifs), shares, n);
    }

    method ShareAll(ghost gs: seq<(Heap<Node>, real)>, ghost caps: seq<real>, ghost shares: seq<real>, ghost n: nat)
      requires Ring() && caps == RatesOf(nifs) && Rating(gs, caps, bandwidth, n) && Shows(gs[0].0) && gs[0].1 == 0.0
      requires |shares| == |nifs| && Differences(gs, shares)
      modifies nodes`msg, `bandwidthUsed, nifs`bandwidthUsed
      ensures Ring() && Shows(gs[|nifs|].0) && bandwidthUsed == gs[|nifs|].1 && AccountedTo(shares, |nifs|)
    {
      bandwidthUsed := 0.0;
      var nif := firstIf;
      ghost var i := 0;
      while nif != null
        invariant 0 <= i <= |nifs| && nif == At(i) && SharedTo(gs, shares, i)
        decreases |nifs| - i
      {
        nif := ShareNext(nif, i, gs, caps, shares, n);
        i := i + 1;
      }
    }

    method ShareNext(nif: Interface, ghost i: nat, ghost gs: seq<(Heap<Node>, real)>, ghost caps: seq<real>,
                     ghost shares: seq<real>, ghost n: nat) returns (after: Interface?)
      requires i < |nifs| == |shares| && nifs[i] == nif && Differences(gs, shares) && SharedTo(gs, shares, i)
      requires caps == RatesOf(nifs) && Rating(gs, caps, bandwidth, n)
      modifies nodes`msg, `bandwidthUsed, nif`bandwidthUsed
      ensures SharedTo(gs, shares, i + 1) && after == At(i + 1)
    {
      assert forall j :: 0 <= j < i ==> nifs[j].number != nif.number;
      ShareOne(nif, i, gs, n);
      assert nifs[i].next == At(i + 1);
      after := nif.next;
    }

    /** One interface more; gs is what receiving makes of the network, interface by interface. */
    method ReceiveOne(nif: Interface, ghost i: nat, now: int, latency: real, rv0: Time,
                      ghost gs: seq<(Heap<Node>, Time)>, ghost n: nat) returns (after: Interface?, rv: Time)
      requires Ring() && i < |nifs| && nifs[i] == nif && Receiving(gs, now, latency, |nifs|, n)
      requires Shows(gs[i].0) && Closed(gs[i].0) && rv0 == gs[i].1 <= TS_NEVER
      modifies nodes, nif`outbox, nifs`inbox
      ensures Ring() && Shows(gs[i + 1].0) && Closed(gs[i + 1].0) && rv == gs[i + 1].1 <= TS_NEVER
      ensures after == At(i + 1)
    {
      assert ReceiveAt(gs, now, latency, i, n);
      ghost var w := WalkOf(Spot(gs[i].0, Head(gs[i].0.outbox, i), rv0), i, now, latency, n);
      rv := ReceiveBox(nif, i, now, latency, rv0, w);
      assert nifs[i].next == At(i + 1);
      after := nif.next;
    }

    /** Finished messages go to the interfaces they are for; the others say when they will finish. */
    method Receive(now: int, latency: real, ghost h: Heap<Node>, ghost n: nat, ghost after: Heap<Node>,
                   ghost next: Time) returns (rv: Time)
      requires Ring() && Shows(h) && Closed(h) && ReceiveTo(h, |nifs|, now, latency, n) == Some((after, next))
      modifies nodes, nifs`outbox, nifs`inbox
      ensures Ring() && Shows(after) && Closed(after) && rv == next
    {
      ghost var gs := ReceivingOf(h, now, latency, |nifs|, n);
      rv := ReceiveAll(now, latency, gs, n);
    }

    method ReceiveAll(now: int, latency: real, ghost gs: seq<(Heap<Node>, Time)>, ghost n: nat) returns (rv: Time)
      requires Ring() && Receiving(gs, now, latency, |nifs|, n) && gs[0].1 == TS_NEVER
      requires Shows(gs[0].0) && Closed(gs[0].0)
      modifies nodes, nifs`outbox, nifs`inbox
      ensures Ring() && Shows(gs[|nifs|].0) && Closed(gs[|nifs|].0) && rv == gs[|nifs|].1
    {
      rv := TS_NEVER;
      var nif := firstIf;
      ghost var i := 0;
      while nif != null
        invariant Ring() && 0 <= i <= |nifs| && nif == At(i)
        invariant Shows(gs[i].0) && Closed(gs[i].0) && rv == gs[i].1 <= TS_NEVER
        decreases |nifs| - i
      {
        nif, rv := ReceiveOne(nif, i, now, latency, rv, gs, n);
        i := i + 1;
      }
    }

    // -------------------------------------------------------------------------
    // Polling
    // -------------------------------------------------------------------------

    /** The first i interfaces have been polled; `was` are the settings before. */
    ghost predicate PolledTo(was: seq<Setting>, now: int, data: seq<seq<char>>, i: nat)
      reads `nifs, nifs`lastSend, nifs`held
    {
      && |was| == |data| == |nifs|
      && forall j :: 0 <= j < |nifs| ==>
           nifs[j].State() == if j < i then Polled(was[j], now, data[j]) else was[j]
    }

    /** What polling the interfaces, with these settings, queues. */
    ghost predicate Foreseen(t: Tick, was: seq<Setting>, data: seq<seq<char>>, ids: seq<nat>)
      reads `nifs
    {
      && |t.offers| == |was| == |data| == |ids| == |nifs|
      && forall i :: 0 <= i < |nifs| ==>
           t.offers[i] == Asked(was[i], nifs[i].to, nifs[i].size, t.now, data[i], ids[i])
    }

    /** The memory for the interfaces from i on is not in use. */
    ghost predicate Unused(spare: seq<Node>, i: nat)
      reads `nodes
    {
      forall j :: i <= j < |spare| ==> spare[j] !in nodes
    }

    /** All messages are of these. */
    ghost predicate NoneBut(was: set<Node>, spare: seq<Node>)
      reads `nodes
    {
      forall a :: a in nodes ==> a in was || a in spare
    }

    method PollOne(nif: Interface, ghost i: nat, now: int, data: seq<char>, id: nat, spare: Node,
                   ghost o: Option<Offer>, ghost g: Heap<Node>)
      requires Shows(g) && i < |nifs| && nifs[i] == nif && spare !in nodes
      requires o == Asked(nif.State(), nif.to, nif.size, now, data, id)
      modifies `nodes, nif`outbox, nif`lastSend, nif`held, spare
      ensures Shows(if o.Some? then Queue(g, i, spare, Queued(o.value, now)) else g)
      ensures nif.State() == Polled(old(nif.State()), now, data)
      ensures nodes == old(nodes) + if o.Some? then {spare} else {}
    {
      var wrote := nif.CheckBuffer(now, data, id, spare);
      if wrote {
        nodes := nodes + {spare};
        assert Cells() == g.cells[spare := Cell(Queued(o.value, now), g.outbox[i], None)];
      }
    }

    /** One interface more; gs is what polling makes of the network, interface by interface. */
    method PollNext(nif: Interface, ghost i: nat, data: seq<seq<char>>, ids: seq<nat>, spare: seq<Node>, now: int,
                    k: nat, ghost t: Tick, ghost was: seq<Setting>, ghost gs: seq<Heap<Node>>)
      returns (after: Interface?)
      requires Ring() && i == k < |nifs| == |spare| && nifs[i] == nif && Foreseen(t, was, data, ids) && t.now == now
      requires Polling(gs, t, spare) && Shows(gs[i]) && Distinct(spare) && Unused(spare, i)
      requires PolledTo(was, now, data, i)
      modifies `nodes, nif`outbox, nif`lastSend, nif`held, spare
      ensures Ring() && Shows(gs[i + 1]) && Unused(spare, i + 1) && PolledTo(was, now, data, i + 1)
      ensures NoneBut(old(nodes), spare) && after == At(i + 1)
    {
      assert PollAt(gs, t, spare, i);
      assert forall j :: 0 <= j < |nifs| && j != i ==> nifs[j].number != nif.number;
      PollOne(nif, i, now, data[k], ids[k], spare[k], t.offers[i], gs[i]);
      assert nifs[i].next == At(i + 1);
      after := nif.next;
    }

    method PollAll(now: int, data: seq<seq<char>>, ids: seq<nat>, spare: seq<Node>, ghost t: Tick,
                   ghost was: seq<Setting>, ghost gs: seq<Heap<Node>>)
      requires Ring() && |spare| == |nifs| && Foreseen(t, was, data, ids) && t.now == now
      requires Polling(gs, t, spare) && Shows(gs[0]) && Distinct(spare) && Unused(spare, 0)
      requires PolledTo(was, now, data, 0)
      modifies `nodes, nifs`outbox, nifs`lastSend, nifs`held, spare
      ensures Ring() && Shows(gs[|nifs|]) && PolledTo(was, now, data, |nifs|) && NoneBut(old(nodes), spare)
    {
      var nif, i := firstIf, 0;
      while nif != null
        invariant Ring() && 0 <= i <= |nifs| && nif == At(i)
        invariant Shows(gs[i]) && Unused(spare, i) && PolledTo(was, now, data, i) && NoneBut(old(nodes), spare)
        decreases |nifs| - i
      {
        nif := PollNext(nif, i, data, ids, spare, now, i, t, was, gs);
        i := i + 1;
      }
    }

    /** Every interface is polled, in the order of the links. */
    method Poll(now: int, data: seq<seq<char>>, ids: seq<nat>, spare: seq<Node>, ghost t: Tick,
                ghost was: seq<Setting>, ghost h: Heap<Node>, ghost after: Heap<Node>)
      requires Ring() && |spare| == |nifs| && Foreseen(t, was, data, ids) && t.now == now
      requires Shows(h) && Distinct(spare) && Unused(spare, 0) && PolledTo(was, now, data, 0)
      requires after == PollTo(h, t, spare, |nifs|)
      modifies `nodes, nifs`outbox, nifs`lastSend, nifs`held, spare
      ensures Ring() && Shows(after) && PolledTo(was, now, data, |nifs|) && NoneBut(old(nodes), spare)
    {
      ghost var gs := PollingOf(h, t, spare);
      PollAll(now, data, ids, spare, t, was, gs);
    }

    // -------------------------------------------------------------------------
    // A call
    // -------------------------------------------------------------------------

    /** What commit does once the interfaces have been polled. */
    method CommitPolled(now: int, latency: real, data: seq<seq<char>>, ghost was: seq<Setting>, ghost p: Plan<Node>,
                        ghost n: nat) returns (rv: Time)
      requires PolledTo(was, now, data, |nifs|)
      requires Ring() && Shows(p.polled) && Planned(p, RatesOf(nifs), bandwidth, now, latency, |nifs|, n)
      modifies nodes, `bandwidthUsed, nifs`outbox, nifs`inbox, nifs`bandwidthUsed
      ensures Ring() && PolledTo(was, now, data, |nifs|)
      ensures Shows(p.received) && Closed(p.received) && bandwidthUsed == p.used && rv == p.next
      ensures |p.shares| == |nifs| && AccountedTo(p.shares, |nifs|)
    {
      CommitShared(now, latency, data, was, p, n);
      rv := CommitReceived(now, latency, data, was, p, n);
    }

    method CommitShared(now: int, latency: real, data: seq<seq<char>>, ghost was: seq<Setting>, ghost p: Plan<Node>,
                        ghost n: nat)
      requires Ring() && Shows(p.polled) && Planned(p, RatesOf(nifs), bandwidth, now, latency, |nifs|, n)
      requires PolledTo(was, now, data, |nifs|)
      modifies nodes`msg, `bandwidthUsed, nifs`bandwidthUsed
      ensures Ring() && Shows(p.rated) && bandwidthUsed == p.used && PolledTo(was, now, data, |nifs|)
      ensures |p.shares| == |nifs| && AccountedTo(p.shares, |nifs|)
    {
      CommitRated(now, latency, p, n);
    }

    method CommitRated(now: int, latency: real, ghost p: Plan<Node>, ghost n: nat)
      requires Ring() && Shows(p.polled) && Planned(p, RatesOf(nifs), bandwidth, now, latency, |nifs|, n)
      modifies nodes`msg, `bandwidthUsed, nifs`bandwidthUsed
      ensures Ring() && Shows(p.rated) && bandwidthUsed == p.used
      ensures |p.shares| == |nifs| && AccountedTo(p.shares, |nifs|)
    {
      Update(now, p.polled, n, p.updated);
      var _ := ScanDemand(p.updated, n);
      ShareOut(p.updated, n, p.shares, p.rated, p.used);
    }

    method CommitReceived(now: int, latency: real, data: seq<seq<char>>, ghost was: seq<Setting>, ghost p: Plan<Node>,
                          ghost n: nat) returns (rv: Time)
      requires Ring() && Shows(p.rated) && Planned(p, RatesOf(nifs), bandwidth, now, latency, |nifs|, n)
      requires PolledTo(was, now, data, |nifs|) && |p.shares| == |nifs| && AccountedTo(p.shares, |nifs|)
      modifies nodes, nifs`outbox, nifs`inbox
      ensures Ring() && Shows(p.received) && Closed(p.received) && rv == p.next
      ensures PolledTo(was, now, data, |nifs|) && AccountedTo(p.shares, |nifs|)
    {
      rv := Receive(now, latency, p.rated, n, p.received, p.next);
    }

    /** One call of commit, as a whole: the network is left as a call on the links leaves it, if the walks along the
        links end. Polling makes the tick t; `was` are the settings before, h the links. */
    method CommitNow(now: int, latency: real, data: seq<seq<char>>, ids: seq<nat>, spare: seq<Node>, ghost t: Tick,
                     ghost was: seq<Setting>, ghost h: Heap<Node>, ghost n: nat) returns (rv: Time)
      requires Ring() && Shows(h) && Closed(h) && forall i :: 0 <= i < |nifs| ==> nifs[i].to < |nifs|
      requires |spare| == |nifs| && Distinct(spare) && Unused(spare, 0)
      requires PolledTo(was, now, data, 0) && Foreseen(t, was, data, ids) && t.now == now && t.latency == latency
      requires CommitLinks(bandwidth, RatesOf(nifs), h, t, spare, n).Some?
      modifies `nodes, `bandwidthUsed, nodes, spare
      modifies nifs`outbox, nifs`inbox, nifs`bandwidthUsed, nifs`lastSend, nifs`held
      ensures Ring() && PolledTo(was, now, data, |nifs|)
      ensures var r := CommitLinks(bandwidth, RatesOf(nifs), h, t, spare, n).value;
              Shows(r.heap) && Closed(r.heap) && bandwidthUsed == r.used && rv == r.next
      ensures |SharesOf(bandwidth, RatesOf(nifs), h, t, spare, n)| == |nifs|
      ensures AccountedTo(SharesOf(bandwidth, RatesOf(nifs), h, t, spare, n), |nifs|)
    {
      ghost var p := PlanOf(bandwidth, RatesOf(nifs), h, t, spare, n);
      rv := CommitPlanned(now, latency, data, ids, spare, t, was, h, n, p);
    }

    method CommitPlanned(now: int, latency: real, data: seq<seq<char>>, ids: seq<nat>, spare: seq<Node>, ghost t: Tick,
                         ghost was: seq<Setting>, ghost h: Heap<Node>, ghost n: nat, ghost p: Plan<Node>)
      returns (rv: Time)
      requires Ring() && Shows(h) && |spare| == |nifs| && Distinct(spare) && Unused(spare, 0)
      requires PolledTo(was, now, data, 0) && Foreseen(t, was, data, ids) && t.now == now && t.latency == latency
      requires p.polled == PollTo(h, t, spare, |nifs|)
      requires Planned(p, RatesOf(nifs), bandwidth, now, latency, |nifs|, n)
      modifies `nodes, `bandwidthUsed, nodes, spare
      modifies nifs`outbox, nifs`inbox, nifs`bandwidthUsed, nifs`lastSend, nifs`held
      ensures Ring() && PolledTo(was, now, data, |nifs|)
      ensures Shows(p.received) && Closed(p.received) && bandwidthUsed == p.used && rv == p.next
      ensures |p.shares| == |nifs| && AccountedTo(p.shares, |nifs|)
    {
      Poll(now, data, ids, spare, t, was, h, p.polled);
      rv := CommitPolled(now, latency, data, was, p, n);
    }
  }
}
