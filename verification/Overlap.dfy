/** Two runs in which a message is queued while an older one of its interface is undelivered, and the older one
    finishes first. */
module Overlap {
  import opened Options
  import opened Sync
  import opened Network
  import opened Links
  import opened LinkedRuns
  import opened LinkedCommit
  import opened Unlinking
  import opened LinkedNetwork

  /** Message 1 or 2 of size 3, from interface 0 to interface 1, as much of it received as sent. */
  function M(id: nat, start: int, sent: real, rate: real, last: int, end: int, state: MsgState): Msg
  {
    Msg(id, 1, 3.0, start, sent, sent, rate, last, end, state)
  }

  /** A call that queues at interface 0, or nowhere. */
  function CallAt(now: int, o: Option<Offer>): Tick { Tick(now, 10.0, [o, None]) }

  function Caps(): seq<real> { [1.0, 1.0] }

  ghost function H0(): Heap<nat> { Heap(map[], [None, None], [None, None]) }

  ghost function H1(): Heap<nat>
  {
    Heap(map[1 := Cell(M(1, 0, 0.0, 1.0, 0, 0, NMS_SENDING), None, None)], [Some(1), None], [None, None])
  }

  lemma UpdateTwo(h: Heap<nat>, g: Heap<nat>, now: int, n: nat)
    requires |h.outbox| == 2 && h.outbox[1] == None && g.outbox == h.outbox
    requires UpdateFrom(h, h.outbox[0], now, n) == Some(g)
    ensures UpdateTo(h, 2, now, n) == Some(g)
  {
    assert UpdateTo(h, 0, now, n) == Some(h);
    assert UpdateTo(h, 1, now, n) == Some(g);
  }

  lemma RateTwo(h: Heap<nat>, g: Heap<nat>, used: real, n: nat)
    requires |h.outbox| == 2 && h.outbox[1] == None && g.outbox == h.outbox
    requires RateFrom(h, h.outbox[0], 10.0, 0.0, 1.0, n) == Some((g, used))
    ensures RateTo(h, Caps(), 10.0, 2, n) == Some((g, used))
  {
    assert RateTo(h, Caps(), 10.0, 0, n) == Some((h, 0.0));
    assert RateTo(h, Caps(), 10.0, 1, n) == Some((g, used));
  }

  lemma ReceiveTwo(h: Heap<nat>, g: Heap<nat>, now: int, rv: Time, n: nat)
    requires |h.outbox| == 2 && h.outbox[1] == None && |g.outbox| == 2 && g.outbox[1] == None
    requires ReceiveFrom(h, 0, h.outbox[0], now, 10.0, TS_NEVER, n) == Some((g, rv))
    ensures ReceiveTo(h, 2, now, 10.0, n) == Some((g, rv))
  {
    assert ReceiveTo(h, 0, now, 10.0, n) == Some((h, TS_NEVER));
    assert ReceiveTo(h, 1, now, 10.0, n) == Some((g, rv));
  }

  lemma ScanTwo(h: Heap<nat>, n: nat)
    requires |h.outbox| == 2 && h.outbox[1] == None && ScanFrom(h, h.outbox[0], 1.0, 0.0, n).Some?
    ensures ScanTo(h, Caps(), 2, n).Some?
  {
    assert ScanTo(h, Caps(), 0, n) == Some(0.0);
    assert ScanTo(h, Caps(), 1, n).Some?;
  }

  lemma PollTwo(h: Heap<nat>, t: Tick, addrs: seq<nat>)
    requires |addrs| == |t.offers| == 2 && t.offers[1] == None
    ensures PollTo(h, t, addrs, 2)
            == if t.offers[0].Some? then Queue(h, 0, addrs[0], Queued(t.offers[0].value, t.now)) else h
  {
    assert PollTo(h, t, addrs, 0) == h;
    assert PollTo(h, t, addrs, 1) == PollTo(h, t, addrs, 2);
  }

  /** A call, from what its walks along the outbox of interface 0 do. */
  lemma {:induction false} CommitTwo(h: Heap<nat>, t: Tick, addrs: seq<nat>, p: Heap<nat>, u: Heap<nat>, r: Heap<nat>,
                                     used: real, g: Heap<nat>, next: Time, n: nat)
    requires |addrs| == |t.offers| == 2 && t.offers[1] == None && t.latency == 10.0
    requires p == if t.offers[0].Some? then Queue(h, 0, addrs[0], Queued(t.offers[0].value, t.now)) else h
    requires |p.outbox| == 2 && p.outbox[1] == None && u.outbox == p.outbox == r.outbox
    requires |g.outbox| == 2 && g.outbox[1] == None
    requires UpdateFrom(p, p.outbox[0], t.now, n) == Some(u) && ScanFrom(u, u.outbox[0], 1.0, 0.0, n).Some?
    requires RateFrom(u, u.outbox[0], 10.0, 0.0, 1.0, n) == Some((r, used))
    requires ReceiveFrom(r, 0, r.outbox[0], t.now, 10.0, TS_NEVER, n) == Some((g, next))
    ensures CommitLinks(10.0, Caps(), h, t, addrs, n) == Some(Linked(g, used, next))
  {
    PollTwo(h, t, addrs);
    UpdateTwo(p, u, t.now, n);
    ScanTwo(u, n);
    RateTwo(u, r, used, n);
    ReceiveTwo(r, g, t.now, next, n);
  }

  /** What the walks do at one cell. */
  lemma UpdateCell(h: Heap<nat>, a: nat, g: Heap<nat>, now: int, n: nat)
    requires 0 < n && a in h.cells && g == h.(cells := h.cells[a := h.cells[a].(msg := Accrue(h.cells[a].msg, now))])
    ensures UpdateFrom(h, Some(a), now, n) == UpdateFrom(g, h.cells[a].next, now, n - 1)
  {
  }

  lemma RateCell(h: Heap<nat>, a: nat, m: Msg, g: Heap<nat>, used: real, n: nat)
    requires 0 < n && a in h.cells && m == Serve(10.0, used, 1.0, h.cells[a].msg)
    requires g == h.(cells := h.cells[a := h.cells[a].(msg := m)])
    ensures RateFrom(h, Some(a), 10.0, used, 1.0, n) == RateFrom(g, h.cells[a].next, 10.0, used + m.rate, 1.0, n - 1)
  {
  }

  lemma IdleCell(h: Heap<nat>, a: nat, now: int, rv: Time, next: Time, n: nat)
    requires 0 < n && a in h.cells && !Done(h.cells[a].msg) && next == Min(rv, Wake(h.cells[a].msg, now))
    ensures ReceiveFrom(h, 0, Some(a), now, 10.0, rv, n) == ReceiveFrom(h, 0, h.cells[a].next, now, 10.0, next, n - 1)
  {
  }

  lemma DoneCell(h: Heap<nat>, a: nat, g: Heap<nat>, now: int, rv: Time, next: Time, n: nat)
    requires 0 < n && a in h.cells && Done(h.cells[a].msg) && next == Min(rv, Min(TS_NEVER, now + 10))
    requires g == Take(h, 0, a, now, 10.0)
    ensures ReceiveFrom(h, 0, Some(a), now, 10.0, rv, n) == ReceiveFrom(g, 0, h.cells[a].next, now, 10.0, next, n - 1)
  {
  }

  lemma UpdateBoth(h: Heap<nat>, f: Heap<nat>, g: Heap<nat>, now: int, n: nat)
    requires 2 <= n && 3 in h.cells && h.cells[3].next == Some(1) && 1 in f.cells && f.cells[1].next == None
    requires f == h.(cells := h.cells[3 := h.cells[3].(msg := Accrue(h.cells[3].msg, now))])
    requires g == f.(cells := f.cells[1 := f.cells[1].(msg := Accrue(f.cells[1].msg, now))])
    ensures UpdateFrom(h, Some(3), now, n) == Some(g)
  {
    UpdateCell(h, 3, f, now, n);
    UpdateCell(f, 1, g, now, n - 1);
  }

  lemma ScanLast(h: Heap<nat>, w: real, n: nat)
    requires 1 <= n && 1 in h.cells && h.cells[1].next == None
    ensures ScanFrom(h, Some(1), 1.0, w, n).Some?
  {
  }

  lemma ScanBoth(h: Heap<nat>, n: nat)
    requires 2 <= n && 3 in h.cells && h.cells[3].next == Some(1) && 1 in h.cells && h.cells[1].next == None
    ensures ScanFrom(h, Some(3), 1.0, 0.0, n).Some?
  {
    ScanLast(h, 0.0 + h.cells[3].msg.size - h.cells[3].msg.sent, n - 1);
    ScanLast(h, 0.0 + (h.cells[3].msg.size - h.cells[3].msg.sent), n - 1);
  }

  lemma RateBoth(h: Heap<nat>, f: Heap<nat>, g: Heap<nat>, m: Msg, k: Msg, n: nat)
    requires 2 <= n && 3 in h.cells && h.cells[3].next == Some(1) && 1 in f.cells && f.cells[1].next == None
    requires m == Serve(10.0, 0.0, 1.0, h.cells[3].msg) && f == h.(cells := h.cells[3 := h.cells[3].(msg := m)])
    requires k == Serve(10.0, m.rate, 1.0, f.cells[1].msg) && g == f.(cells := f.cells[1 := f.cells[1].(msg := k)])
    ensures RateFrom(h, Some(3), 10.0, 0.0, 1.0, n) == Some((g, m.rate + k.rate))
  {
    RateCell(h, 3, m, f, 0.0, n);
    RateCell(f, 1, k, g, m.rate, n - 1);
  }

  /** The cells 1 and 3 of messages 1 and 2, the head of the first outbox and of the second inbox. */
  ghost function Two(m: Msg, next: Option<nat>, prev: Option<nat>, k: Msg, next2: Option<nat>, prev2: Option<nat>,
                     out: Option<nat>, top: Option<nat>): Heap<nat>
  {
    Heap(map[1 := Cell(m, next, prev), 3 := Cell(k, next2, prev2)], [out, None], [None, top])
  }

  lemma First(n: nat)
    requires 1 <= n
    ensures CommitLinks(10.0, Caps(), H0(), CallAt(0, Some(Offer(1, 1, 3.0))), [1, 2], n) == Some(Linked(H1(), 1.0, 3))
  {
    var t := CallAt(0, Some(Offer(1, 1, 3.0)));
    var p := Heap(map[1 := Cell(M(1, 0, 0.0, 0.0, 0, 0, NMS_NONE), None, None)], [Some(1), None], [None, None]);
    assert p == Queue(H0(), 0, 1, Queued(t.offers[0].value, 0));
    UpdateCell(p, 1, p, 0, n);
    RateCell(p, 1, H1().cells[1].msg, H1(), 0.0, n);
    assert ReceiveFrom(H1(), 0, Some(1), 0, 10.0, TS_NEVER, n) == Some((H1(), 3));
    CommitTwo(H0(), t, [1, 2], p, p, H1(), 1.0, H1(), 3, n);
  }

  // ---------------------------------------------------------------------------
  // Message 2 is queued at 1, and finished at 4
  // ---------------------------------------------------------------------------

  ghost function A2(): Heap<nat>
  {
    Two(M(1, 0, 1.0, 1.0, 1, 0, NMS_SENDING), None, None, M(2, 1, 0.0, 1.0, 1, 0, NMS_SENDING), Some(1), None,
        Some(3), None)
  }

  lemma SecondA(n: nat)
    requires 2 <= n
    ensures CommitLinks(10.0, Caps(), H1(), CallAt(1, Some(Offer(2, 1, 3.0))), [3, 4], n) == Some(Linked(A2(), 2.0, 3))
  {
    var t, m, k := CallAt(1, Some(Offer(2, 1, 3.0))), H1().cells[1].msg, M(2, 1, 0.0, 0.0, 1, 0, NMS_NONE);
    var p := Two(m, None, None, k, Some(1), None, Some(3), None);
    assert p == Queue(H1(), 0, 3, Queued(t.offers[0].value, 1));
    var u := Two(M(1, 0, 1.0, 1.0, 1, 0, NMS_SENDING), None, None, k, Some(1), None, Some(3), None);
    UpdateBoth(p, p, u, 1, n);
    ScanBoth(u, n);
    var f := Two(u.cells[1].msg, None, None, A2().cells[3].msg, Some(1), None, Some(3), None);
    RateBoth(u, f, A2(), f.cells[3].msg, A2().cells[1].msg, n);
    IdleCell(A2(), 3, 1, TS_NEVER, 4, n);
    IdleCell(A2(), 1, 1, 4, 3, n - 1);
    CommitTwo(H1(), t, [3, 4], p, u, A2(), 2.0, A2(), 3, n);
  }

  /** Message 1 is finished behind message 2, and stays linked to it. */
  ghost function A3(): Heap<nat>
  {
    Two(M(1, 0, 3.0, 0.0, 3, 13, NMS_DELIVERED), None, None, M(2, 1, 2.0, 1.0, 3, 0, NMS_SENDING), Some(1), None,
        Some(3), Some(1))
  }

  lemma ThirdA(n: nat)
    requires 2 <= n
    ensures CommitLinks(10.0, Caps(), A2(), CallAt(3, None), [5, 6], n) == Some(Linked(A3(), 1.0, 4))
  {
    var m, k := M(1, 0, 3.0, 1.0, 3, 0, NMS_SENDING), M(2, 1, 2.0, 1.0, 3, 0, NMS_SENDING);
    var f := Two(A2().cells[1].msg, None, None, k, Some(1), None, Some(3), None);
    var u := Two(m, None, None, k, Some(1), None, Some(3), None);
    UpdateBoth(A2(), f, u, 3, n);
    ScanBoth(u, n);
    var r := Two(m.(rate := 0.0), None, None, k, Some(1), None, Some(3), None);
    RateBoth(u, u, r, k, m.(rate := 0.0), n);
    IdleCell(r, 3, 3, TS_NEVER, 4, n);
    assert Take(r, 0, 1, 3, 10.0) == A3();
    DoneCell(r, 1, A3(), 3, 4, 4, n - 1);
    CommitTwo(A2(), CallAt(3, None), [5, 6], A2(), u, r, 1.0, A3(), 4, n);
  }

  /** The next call delivers message 2, and then message 1 again, with a later end. */
  ghost function A4(): Heap<nat>
  {
    Two(M(1, 0, 3.0, 0.0, 4, 14, NMS_DELIVERED), Some(3), Some(3), M(2, 1, 3.0, 0.0, 4, 14, NMS_DELIVERED), None,
        Some(1), None, Some(1))
  }

  /** The links when the fourth call receives messages, and when message 2 has been taken out. */
  ghost function A4Rated(): Heap<nat>
  {
    Two(M(1, 0, 3.0, 0.0, 4, 13, NMS_SENDING), None, None, M(2, 1, 3.0, 0.0, 4, 0, NMS_SENDING), Some(1), None,
        Some(3), Some(1))
  }

  lemma ReceiveA4(n: nat)
    requires 2 <= n
    ensures ReceiveFrom(A4Rated(), 0, Some(3), 4, 10.0, TS_NEVER, n) == Some((A4(), 14))
  {
    var d := Two(A4Rated().cells[1].msg, None, Some(3), A4().cells[3].msg, Some(1), None, Some(1), Some(3));
    assert Take(A4Rated(), 0, 3, 4, 10.0) == d;
    DoneCell(A4Rated(), 3, d, 4, TS_NEVER, 14, n);
    assert Take(d, 0, 1, 4, 10.0) == A4();
    DoneCell(d, 1, A4(), 4, 14, 14, n - 1);
  }

  lemma FourthA(n: nat)
    requires 2 <= n
    ensures CommitLinks(10.0, Caps(), A3(), CallAt(4, None), [7, 8], n) == Some(Linked(A4(), 0.0, 14))
  {
    var m, k := M(1, 0, 3.0, 0.0, 4, 13, NMS_DELIVERED), M(2, 1, 3.0, 1.0, 4, 0, NMS_SENDING);
    var f := Two(A3().cells[1].msg, None, None, k, Some(1), None, Some(3), Some(1));
    var u := Two(m, None, None, k, Some(1), None, Some(3), Some(1));
    UpdateBoth(A3(), f, u, 4, n);
    ScanBoth(u, n);
    var l := k.(rate := 0.0);
    var e := Two(m, None, None, l, Some(1), None, Some(3), Some(1));
    RateBoth(u, e, A4Rated(), l, m.(state := NMS_SENDING), n);
    ReceiveA4(n);
    CommitTwo(A3(), CallAt(4, None), [7, 8], A3(), u, A4Rated(), 0.0, A4(), 14, n);
  }

  lemma ReadA(n: nat)
    requires 2 <= n
    ensures FilterLinks(A4(), 1, 14, n).Some?
    ensures FilterLinks(A4(), 1, 14, n).value.1 == [A4().cells[3].msg, A4().cells[1].msg]
  {
    var m, k := A4().cells[1].msg, A4().cells[3].msg;
    assert FilterFrom(A4(), None, 14, n - 2) == Some((A4(), None, []));
    assert FilterFrom(A4(), Some(3), 14, n - 1) == Some((A4(), None, [] + [k]));
    assert [] + [k] == [k] && [k] + [m] == [k, m];
    var g := SetNext(A4(), Some(1), None);
    assert FilterFrom(A4(), Some(1), 14, n) == Some((g, None, [k] + [m]));
  }

  // ---------------------------------------------------------------------------
  // Message 2 is queued at 2, and not finished at 4
  // ---------------------------------------------------------------------------

  ghost function B2(): Heap<nat>
  {
    Two(M(1, 0, 2.0, 1.0, 2, 0, NMS_SENDING), None, None, M(2, 2, 0.0, 1.0, 2, 0, NMS_SENDING), Some(1), None,
        Some(3), None)
  }

  lemma SecondB(n: nat)
    requires 2 <= n
    ensures CommitLinks(10.0, Caps(), H1(), CallAt(2, Some(Offer(2, 1, 3.0))), [3, 4], n) == Some(Linked(B2(), 2.0, 3))
  {
    var t, m, k := CallAt(2, Some(Offer(2, 1, 3.0))), H1().cells[1].msg, M(2, 2, 0.0, 0.0, 2, 0, NMS_NONE);
    var p := Two(m, None, None, k, Some(1), None, Some(3), None);
    assert p == Queue(H1(), 0, 3, Queued(t.offers[0].value, 2));
    var u := Two(M(1, 0, 2.0, 1.0, 2, 0, NMS_SENDING), None, None, k, Some(1), None, Some(3), None);
    UpdateBoth(p, p, u, 2, n);
    ScanBoth(u, n);
    var f := Two(u.cells[1].msg, None, None, B2().cells[3].msg, Some(1), None, Some(3), None);
    RateBoth(u, f, B2(), f.cells[3].msg, B2().cells[1].msg, n);
    IdleCell(B2(), 3, 2, TS_NEVER, 5, n);
    IdleCell(B2(), 1, 2, 5, 3, n - 1);
    CommitTwo(H1(), t, [3, 4], p, u, B2(), 2.0, B2(), 3, n);
  }

  ghost function B3(): Heap<nat>
  {
    Two(M(1, 0, 3.0, 0.0, 3, 13, NMS_DELIVERED), None, None, M(2, 2, 1.0, 1.0, 3, 0, NMS_SENDING), Some(1), None,
        Some(3), Some(1))
  }

  lemma ThirdB(n: nat)
    requires 2 <= n
    ensures CommitLinks(10.0, Caps(), B2(), CallAt(3, None), [5, 6], n) == Some(Linked(B3(), 1.0, 5))
  {
    var m, k := M(1, 0, 3.0, 1.0, 3, 0, NMS_SENDING), M(2, 2, 1.0, 1.0, 3, 0, NMS_SENDING);
    var f := Two(B2().cells[1].msg, None, None, k, Some(1), None, Some(3), None);
    var u := Two(m, None, None, k, Some(1), None, Some(3), None);
    UpdateBoth(B2(), f, u, 3, n);
    ScanBoth(u, n);
    var r := Two(m.(rate := 0.0), None, None, k, Some(1), None, Some(3), None);
    RateBoth(u, u, r, k, m.(rate := 0.0), n);
    IdleCell(r, 3, 3, TS_NEVER, 5, n);
    assert Take(r, 0, 1, 3, 10.0) == B3();
    DoneCell(r, 1, B3(), 3, 5, 5, n - 1);
    CommitTwo(B2(), CallAt(3, None), [5, 6], B2(), u, r, 1.0, B3(), 5, n);
  }

  /** Delivered again on top of itself, message 1 is its own next. */
  ghost function B4(): Heap<nat>
  {
    Two(M(1, 0, 3.0, 0.0, 4, 14, NMS_DELIVERED), Some(1), Some(1), M(2, 2, 2.0, 1.0, 4, 0, NMS_SENDING), Some(1), None,
        Some(3), Some(1))
  }

  lemma FourthB(n: nat)
    requires 2 <= n
    ensures CommitLinks(10.0, Caps(), B3(), CallAt(4, None), [7, 8], n) == Some(Linked(B4(), 1.0, 5))
  {
    var m, k := M(1, 0, 3.0, 0.0, 4, 13, NMS_DELIVERED), M(2, 2, 2.0, 1.0, 4, 0, NMS_SENDING);
    var f := Two(B3().cells[1].msg, None, None, k, Some(1), None, Some(3), Some(1));
    var u := Two(m, None, None, k, Some(1), None, Some(3), Some(1));
    UpdateBoth(B3(), f, u, 4, n);
    ScanBoth(u, n);
    var r := Two(m.(state := NMS_SENDING), None, None, k, Some(1), None, Some(3), Some(1));
    RateBoth(u, u, r, k, m.(state := NMS_SENDING), n);
    IdleCell(r, 3, 4, TS_NEVER, 5, n);
    assert Take(r, 0, 1, 4, 10.0) == B4();
    DoneCell(r, 1, B4(), 4, 5, 5, n - 1);
    CommitTwo(B3(), CallAt(4, None), [7, 8], B3(), u, r, 1.0, B4(), 5, n);
  }

  lemma {:induction false} RoundAndRound(h: Heap<nat>, now: int, n: nat)
    requires 1 in h.cells && h.cells[1].next == Some(1)
    ensures UpdateFrom(h, Some(1), now, n) == None && FilterFrom(h, Some(1), now, n) == None
    decreases n
  {
    if n > 0 {
      RoundAndRound(SetMsg(h, 1, Accrue(h.cells[1].msg, now)), now, n - 1);
      RoundAndRound(h, now, n - 1);
    }
  }

  /** No later call ends, whenever it comes, and no reading of the inbox. */
  lemma FifthB(t: Tick, addrs: seq<nat>, t1: int, n: nat)
    requires |addrs| == |t.offers| == 2 && t.offers == [None, None]
    ensures CommitLinks(10.0, Caps(), B4(), t, addrs, n) == None && FilterLinks(B4(), 1, t1, n) == None
  {
    PollTwo(B4(), t, addrs);
    RoundAndRound(B4(), t1, n);
    var f := SetMsg(B4(), 3, Accrue(B4().cells[3].msg, t.now));
    if n > 0 { RoundAndRound(f, t.now, n - 1); }
    assert UpdateFrom(B4(), Some(3), t.now, n) == None;
    assert UpdateTo(B4(), 0, t.now, n) == Some(B4());
    assert UpdateTo(B4(), 1, t.now, n) == None;
    assert UpdateTo(B4(), 2, t.now, n) == None;
  }

  // ---------------------------------------------------------------------------
  // The runs
  // ---------------------------------------------------------------------------

  /** Message 1 is queued at 0, message 2 at the given time; two more calls. */
  function Run(second: int): seq<Step<nat>>
  {
    [Called(CallAt(0, Some(Offer(1, 1, 3.0))), [1, 2]), Called(CallAt(second, Some(Offer(2, 1, 3.0))), [3, 4]),
     Called(CallAt(3, None), [5, 6]), Called(CallAt(4, None), [7, 8])]
  }

  /** One call more, or one reading. */
  lemma ThenCall(hs: seq<Step<nat>>, t: Tick, addrs: seq<nat>, n: nat, s: LinkedNet<nat>, r: Option<Linked<nat>>)
    requires Sized(Caps(), hs) && |addrs| == 2 && Deliverable(t, 2) && LinkedAfter(10.0, Caps(), hs, n) == Some(s)
    requires r == CommitLinks(10.0, Caps(), s.heap, t, addrs, n)
    ensures Sized(Caps(), hs + [Called(t, addrs)])
    ensures LinkedAfter(10.0, Caps(), hs + [Called(t, addrs)], n)
            == if r.None? then None else Some(LinkedNet(r.value.heap, r.value.used, r.value.next, s.logs))
  {
    assert (hs + [Called(t, addrs)])[..|hs|] == hs;
  }

  lemma ThenReading(hs: seq<Step<nat>>, j: nat, t1: int, n: nat, s: LinkedNet<nat>)
    requires Sized(Caps(), hs) && LinkedAfter(10.0, Caps(), hs, n) == Some(s) && j < |s.logs|
    ensures Sized(Caps(), hs + [Reading(j, t1)])
    ensures var r := FilterLinks(s.heap, j, t1, n);
            LinkedAfter(10.0, Caps(), hs + [Reading(j, t1)], n)
            == if r.None? then None else Some(s.(heap := r.value.0, logs := s.logs[j := s.logs[j] + r.value.1]))
  {
    assert (hs + [Reading(j, t1)])[..|hs|] == hs;
  }

  lemma MoreAddresses(hs: seq<Step<nat>>, t: Tick, addrs: seq<nat>)
    ensures Addresses(hs + [Called(t, addrs)]) == Addresses(hs) + addrs
  {
    assert (hs + [Called(t, addrs)])[..|hs|] == hs;
  }

  lemma RunSized(second: int)
    ensures Sized(Caps(), Run(second)) && Distinct(Addresses(Run(second)[..3]))
  {
    var r := Run(second);
    RunPrefixes(second);
    MoreAddresses([], r[0].t, [1, 2]);
    MoreAddresses(r[..1], r[1].t, [3, 4]);
    MoreAddresses(r[..2], r[2].t, [5, 6]);
    assert Addresses(r[..3]) == [1, 2, 3, 4, 5, 6];
  }

  lemma RunPrefixes(second: int)
    ensures var r := Run(second);
            r[..1] == [] + [r[0]] && r[..2] == r[..1] + [r[1]] && r[..3] == r[..2] + [r[2]] && r == r[..3] + [r[3]]
  {
  }

  function LinkedAs(h: Heap<nat>, used: real, next: Time): LinkedNet<nat> { LinkedNet(h, used, next, [[], []]) }

  lemma RunOne(second: int, n: nat)
    requires 2 <= n
    ensures Sized(Caps(), Run(second)[..1])
    ensures LinkedAfter(10.0, Caps(), Run(second)[..1], n) == Some(LinkedAs(H1(), 1.0, 3))
  {
    First(n);
    RunPrefixes(second);
    assert Unlinked<nat>(2) == LinkedAs(H0(), 0.0, TS_NEVER);
    var t := CallAt(0, Some(Offer(1, 1, 3.0)));
    ThenCall([], t, [1, 2], n, LinkedAs(H0(), 0.0, TS_NEVER), Some(Linked(H1(), 1.0, 3)));
  }

  /** Every call comes when the one before asked for it, or earlier. */
  lemma RunA(n: nat)
    requires 2 <= n
    ensures Sized(Caps(), Run(1)[..3]) && LinkedAfter(10.0, Caps(), Run(1)[..3], n) == Some(LinkedAs(A3(), 1.0, 4))
    ensures Sized(Caps(), Run(1)) && LinkedAfter(10.0, Caps(), Run(1), n) == Some(LinkedAs(A4(), 0.0, 14))
  {
    var r := Run(1);
    RunOne(1, n);
    RunPrefixes(1);
    SecondA(n);
    ThenCall(r[..1], r[1].t, r[1].addrs, n, LinkedAs(H1(), 1.0, 3), Some(Linked(A2(), 2.0, 3)));
    ThirdA(n);
    ThenCall(r[..2], r[2].t, r[2].addrs, n, LinkedAs(A2(), 2.0, 3), Some(Linked(A3(), 1.0, 4)));
    FourthA(n);
    ThenCall(r[..3], r[3].t, r[3].addrs, n, LinkedAs(A3(), 1.0, 4), Some(Linked(A4(), 0.0, 14)));
  }

  lemma RunB(n: nat)
    requires 2 <= n
    ensures Sized(Caps(), Run(2)) && LinkedAfter(10.0, Caps(), Run(2), n) == Some(LinkedAs(B4(), 1.0, 5))
  {
    var r := Run(2);
    RunOne(2, n);
    RunPrefixes(2);
    SecondB(n);
    ThenCall(r[..1], r[1].t, r[1].addrs, n, LinkedAs(H1(), 1.0, 3), Some(Linked(B2(), 2.0, 3)));
    ThirdB(n);
    ThenCall(r[..2], r[2].t, r[2].addrs, n, LinkedAs(B2(), 2.0, 3), Some(Linked(B3(), 1.0, 5)));
    FourthB(n);
    ThenCall(r[..3], r[3].t, r[3].addrs, n, LinkedAs(B3(), 1.0, 5), Some(Linked(B4(), 1.0, 5)));
  }

  /** A message queued at 1 overtakes the one queued at 0, although that one was delivered first: it is delivered
      again behind it, with end time 14 instead of 13. */
  lemma OverlapReversesOrder(n: nat)
    requires 2 <= n
    ensures Sized(Caps(), Run(1)[..3]) && Sized(Caps(), Run(1) + [Reading(1, 14)])
    ensures LinkedAfter(10.0, Caps(), Run(1)[..3], n) == Some(LinkedAs(A3(), 1.0, 4))
    ensures A3().cells[1].msg.state == NMS_DELIVERED && A3().cells[1].msg.end == 13
    ensures var s := LinkedAfter(10.0, Caps(), Run(1) + [Reading(1, 14)], n);
            && s.Some? && |s.value.logs| == 2 && |s.value.logs[1]| == 2
            && s.value.logs[1][0].id == 2 && s.value.logs[1][1].id == 1 && s.value.logs[1][1].end == 14
  {
    RunA(n);
    ReadA(n);
    ThenReading(Run(1), 1, 14, n, LinkedAs(A4(), 0.0, 14));
  }

  /** It is the third call that finds the older message finished behind the newer: every call comes when the one
      before asked for it, or earlier, but the outbox still leads to the delivered message. */
  lemma OverlapNotInFront()
    ensures Sized(Caps(), Run(1)[..3]) && !AlwaysInFront(10.0, Caps(), 0, Run(1)[..3])
  {
    RunSized(1);
    var hs := Run(1)[..3];
    var n := 2 + Needed(10.0, Caps(), 0, hs);
    RunA(n);
    if AlwaysInFront(10.0, Caps(), 0, hs) {
      var s := LinkedNothingRejected(10.0, Caps(), 0, hs, n);
      assert All(Spelled(OutboxOf(s, 0, n)), Sending);
      Strand(n);
    }
  }

  lemma Strand(n: nat)
    requires 2 <= n
    ensures OutboxOf(LinkedAs(A3(), 1.0, 4), 0, n) == Some([A3().cells[3].msg, A3().cells[1].msg])
    ensures A3().cells[1].msg in Spelled(OutboxOf(LinkedAs(A3(), 1.0, 4), 0, n)) && !Sending(A3().cells[1].msg)
  {
    assert Along(A3(), None, n - 2) == Some([]);
    assert Along(A3(), Some(1), n - 1) == Some([A3().cells[1].msg] + []);
    assert [A3().cells[3].msg, A3().cells[1].msg] == [A3().cells[3].msg] + ([A3().cells[1].msg] + []);
    assert [A3().cells[3].msg, A3().cells[1].msg][1] == A3().cells[1].msg;
  }

  /** With message 2 queued at 2, no later call ends, and no reading of the inbox. */
  lemma OverlapNeverEnds(t: Tick, addrs: seq<nat>, t1: int, n: nat)
    requires 2 <= n && |addrs| == 2 && t.offers == [None, None]
    ensures Sized(Caps(), Run(2)) && LinkedAfter(10.0, Caps(), Run(2), n).Some?
    ensures Sized(Caps(), Run(2) + [Called(t, addrs)]) && Sized(Caps(), Run(2) + [Reading(1, t1)])
    ensures LinkedAfter(10.0, Caps(), Run(2) + [Called(t, addrs)], n) == None
    ensures LinkedAfter(10.0, Caps(), Run(2) + [Reading(1, t1)], n) == None
  {
    RunB(n);
    FifthB(t, addrs, t1, n);
    ThenCall(Run(2), t, addrs, n, LinkedAs(B4(), 1.0, 5), None);
    ThenReading(Run(2), 1, t1, n, LinkedAs(B4(), 1.0, 5));
  }
}
