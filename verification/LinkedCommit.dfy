/** A call of commit on orderly links does what the commit function says, if and only if no finished message
    is behind an unfinished one of its outbox. */
module LinkedCommit {
  import opened Options
  import opened Sync
  import opened Network
  import opened Links
  import opened OrderlyLinks
  import opened Unlinking
  import opened Demand

  /** The first i interfaces are those of r, the others those of nifs. */
  function Mixed(nifs: seq<Sender>, r: seq<Sender>, i: nat): (v: seq<Sender>)
    requires i <= |nifs| == |r|
    ensures |v| == |nifs|
  {
    r[..i] + nifs[i..]
  }

  ghost predicate SameRates(nifs: seq<Sender>, r: seq<Sender>)
  {
    |nifs| == |r| && forall i :: 0 <= i < |nifs| ==> r[i].cap == nifs[i].cap
  }

  lemma MixedNext(nifs: seq<Sender>, r: seq<Sender>, i: nat)
    requires SameRates(nifs, r) && i < |nifs|
    ensures Mixed(nifs, r, i + 1) == Boxed(Mixed(nifs, r, i), i, r[i].box)
    ensures Boxed(Mixed(nifs, r, i), i, nifs[i].box) == Mixed(nifs, r, i)
  {
  }

  /** Every outbox and inbox is short enough to be walked in n steps. */
  ghost predicate Short(v: seq<Sender>, n: nat)
  {
    forall i :: 0 <= i < |v| ==> |v[i].box| <= n
  }

  // ---------------------------------------------------------------------------
  // Polling
  // ---------------------------------------------------------------------------

  function Queueing(nifs: seq<Sender>, t: Tick): (r: seq<Sender>)
    requires |t.offers| == |nifs|
    ensures SameRates(nifs, r)
  {
    seq(|nifs|, i requires 0 <= i < |nifs| => nifs[i].(box := Offered(nifs[i].box, t.offers[i], t.now)))
  }

  /** New cells, all different. */
  ghost predicate NewCells<A>(h: Heap<A>, addrs: seq<A>)
  {
    Distinct(addrs) && forall k :: 0 <= k < |addrs| ==> addrs[k] !in h.cells
  }

  ghost predicate Deliverable(t: Tick, n: nat)
  {
    |t.offers| == n && forall i :: 0 <= i < n && t.offers[i].Some? ==> t.offers[i].value.to < n
  }

  lemma {:induction false} PollKeeps<A>(h: Heap<A>, l: Lists<A>, nifs: seq<Sender>, boxes: seq<seq<Msg>>, t: Tick,
                                        addrs: seq<A>, i: nat) returns (v: Lists<A>)
    requires Represents(h, l, nifs, boxes) && NewCells(h, addrs) && |addrs| == |nifs| && Deliverable(t, |nifs|)
    requires i <= |nifs|
    ensures Represents(PollTo(h, t, addrs, i), v, Mixed(nifs, Queueing(nifs, t), i), boxes)
    ensures forall k :: i <= k < |addrs| ==> addrs[k] !in PollTo(h, t, addrs, i).cells
  {
    if i == 0 {
      v := l;
      assert Mixed(nifs, Queueing(nifs, t), 0) == nifs;
    } else {
      var u := PollKeeps(h, l, nifs, boxes, t, addrs, i - 1);
      v := PollStep(PollTo(h, t, addrs, i - 1), u, nifs, boxes, t, addrs, i - 1);
    }
  }

  lemma PollStep<A>(g: Heap<A>, u: Lists<A>, nifs: seq<Sender>, boxes: seq<seq<Msg>>, t: Tick, addrs: seq<A>, i: nat)
    returns (v: Lists<A>)
    requires |addrs| == |nifs| && i < |nifs| && Deliverable(t, |nifs|) && addrs[i] !in g.cells
    requires Represents(g, u, Mixed(nifs, Queueing(nifs, t), i), boxes)
    ensures var e := if t.offers[i].Some? then Queue(g, i, addrs[i], Queued(t.offers[i].value, t.now)) else g;
            Represents(e, v, Mixed(nifs, Queueing(nifs, t), i + 1), boxes)
  {
    var r := Queueing(nifs, t);
    MixedNext(nifs, r, i);
    if t.offers[i].Some? {
      v := Enqueued(u, i, addrs[i]);
      QueueKeeps(g, u, Mixed(nifs, r, i), boxes, i, addrs[i], Queued(t.offers[i].value, t.now));
    } else {
      v := u;
    }
  }

  // ---------------------------------------------------------------------------
  // Counters, demand and rates
  // ---------------------------------------------------------------------------

  lemma OutboxSize<A>(h: Heap<A>, l: Lists<A>, nifs: seq<Sender>, boxes: seq<seq<Msg>>, i: nat)
    requires Represents(h, l, nifs, boxes) && i < |nifs|
    ensures |l.outs[i]| == |nifs[i].box| && Head(h.outbox, i) == At(l.outs[i], 0)
  {
    assert OutboxIs(h, l, i, nifs[i].box);
  }

  lemma {:induction false} UpdateKeeps<A>(h: Heap<A>, l: Lists<A>, nifs: seq<Sender>, boxes: seq<seq<Msg>>,
                                          r: seq<Sender>, now: int, n: nat, i: nat) returns (g: Heap<A>)
    requires Represents(h, l, nifs, boxes) && i <= |nifs| && SameRates(nifs, r) && Short(nifs, n)
    requires forall k :: 0 <= k < |nifs| ==> r[k].box == AccrueBox(nifs[k].box, now)
    ensures UpdateTo(h, i, now, n) == Some(g) && Represents(g, l, Mixed(nifs, r, i), boxes)
  {
    if i == 0 {
      g := h;
      assert Mixed(nifs, r, 0) == nifs;
    } else {
      var k := i - 1;
      var f := UpdateKeeps(h, l, nifs, boxes, r, now, n, k);
      g := UpdateOne(f, l, Mixed(nifs, r, k), boxes, now, n, k, UpdateFrom(f, Head(f.outbox, k), now, n));
      MixedNext(nifs, r, k);
    }
  }

  lemma UpdateOne<A>(f: Heap<A>, l: Lists<A>, v: seq<Sender>, boxes: seq<seq<Msg>>, now: int, n: nat, k: nat,
                     walk: Option<Heap<A>>) returns (g: Heap<A>)
    requires Represents(f, l, v, boxes) && k < |v| && |v[k].box| <= n
    requires walk == UpdateFrom(f, Head(f.outbox, k), now, n)
    ensures walk == Some(g) && Represents(g, l, Boxed(v, k, AccrueBox(v[k].box, now)), boxes)
  {
    var b, c := v[k].box, AccrueBox(v[k].box, now);
    OutboxSize(f, l, v, boxes, k);
    assert Changed(b, c, 0) == b && Boxed(v, k, b) == v;
    forall q | 0 <= q < |b| ensures AccruedAt(b, c, now, q) { }
    g := UpdateWalk(f, l, v, boxes, k, b, c, 0, now, n, walk);
  }

  lemma {:induction false} RateKeeps<A>(h: Heap<A>, l: Lists<A>, nifs: seq<Sender>, boxes: seq<seq<Msg>>,
                                        caps: seq<real>, bw: real, r: seq<Sender>, loads: seq<real>, tally: seq<real>,
                                        n: nat, i: nat) returns (g: Heap<A>)
    requires Represents(h, l, nifs, boxes) && i <= |nifs| && Short(nifs, n) && Shared(bw, nifs, r, loads, tally)
    requires |caps| == |nifs| && forall k :: 0 <= k < |nifs| ==> caps[k] == nifs[k].cap
    ensures RateTo(h, caps, bw, i, n) == Some((g, tally[i])) && Represents(g, l, Mixed(nifs, r, i), boxes)
  {
    if i == 0 {
      g := h;
      assert Mixed(nifs, r, 0) == nifs;
    } else {
      var f := RateKeeps(h, l, nifs, boxes, caps, bw, r, loads, tally, n, i - 1);
      g := RateNext(f, l, nifs, boxes, bw, r, loads, tally, n, i - 1, caps[i - 1]);
    }
  }

  lemma RateNext<A>(f: Heap<A>, l: Lists<A>, nifs: seq<Sender>, boxes: seq<seq<Msg>>, bw: real, r: seq<Sender>,
                    loads: seq<real>, tally: seq<real>, n: nat, k: nat, cap: real) returns (g: Heap<A>)
    requires k < |nifs| && Short(nifs, n) && Shared(bw, nifs, r, loads, tally) && cap == nifs[k].cap
    requires Represents(f, l, Mixed(nifs, r, k), boxes)
    ensures RateFrom(f, Head(f.outbox, k), bw, tally[k], cap, n) == Some((g, tally[k + 1]))
    ensures Represents(g, l, Mixed(nifs, r, k + 1), boxes)
  {
    assert SharedAt(bw, nifs, r, loads, tally, k);
    g := RateOne(f, l, Mixed(nifs, r, k), boxes, bw, tally[k], cap, r[k].box, n, k);
    MixedNext(nifs, r, k);
  }

  lemma RateOne<A>(f: Heap<A>, l: Lists<A>, v: seq<Sender>, boxes: seq<seq<Msg>>, bw: real, used: real, cap: real,
                   r: seq<Msg>, n: nat, k: nat) returns (g: Heap<A>)
    requires Represents(f, l, v, boxes) && k < |v| && |v[k].box| <= n && r == ServeBox(bw, used, cap, v[k].box)
    ensures RateFrom(f, Head(f.outbox, k), bw, used, cap, n) == Some((g, used + Load(r)))
    ensures Represents(g, l, Boxed(v, k, r), boxes)
  {
    var b := v[k].box;
    OutboxSize(f, l, v, boxes, k);
    BoxServed(bw, used, cap, b);
    assert Changed(b, r, 0) == b && Boxed(v, k, b) == v && r[..0] == [];
    g := RateWalk(f, l, v, boxes, k, b, r, 0, bw, used, cap, n);
  }

  // ---------------------------------------------------------------------------
  // Receiving
  // ---------------------------------------------------------------------------

  lemma {:induction false} PushedAppend(box: seq<Msg>, a: seq<Msg>, b: seq<Msg>, j: nat)
    ensures Pushed(Pushed(box, a, j), b, j) == Pushed(box, a + b, j)
  {
    if b == [] {
      assert a + b == a;
    } else {
      PushedAppend(box, a, b[..|b| - 1], j);
      assert (a + b)[..|a + b| - 1] == a + b[..|b| - 1];
    }
  }

  lemma LandedAppend(boxes: seq<seq<Msg>>, a: seq<Msg>, b: seq<Msg>)
    ensures Landed(Landed(boxes, a), b) == Landed(boxes, a + b)
  {
    forall j | 0 <= j < |boxes| ensures Landed(Landed(boxes, a), b)[j] == Landed(boxes, a + b)[j] {
      PushedAppend(boxes[j], a, b, j);
    }
  }

  ghost predicate InFront(s: seq<Sender>)
  {
    forall i :: 0 <= i < |s| ==> FinishedInFront(s[i].box)
  }

  /** The first i outboxes have been emptied of their finished messages. */
  ghost predicate ReceivedTo<A>(g: Heap<A>, rv: Time, v: Lists<A>, s: seq<Sender>, boxes: seq<seq<Msg>>, i: nat,
                                now: int, latency: real)
    requires i <= |s|
  {
    && Represents(g, v, Mixed(s, KeptAll(s), i), Landed(boxes, DeliveredAll(s[..i], now, latency)))
    && rv == CallAll(s[..i], now, latency)
  }

  lemma {:induction false} ReceiveKeeps<A>(h: Heap<A>, l: Lists<A>, s: seq<Sender>, boxes: seq<seq<Msg>>, now: int,
                                           latency: real, n: nat, i: nat)
    returns (g: Heap<A>, v: Lists<A>, rv: Time)
    requires Represents(h, l, s, boxes) && i <= |s| && Short(s, n)
    requires forall k :: 0 <= k < i ==> FinishedInFront(s[k].box)
    ensures ReceiveTo(h, i, now, latency, n) == Some((g, rv)) && ReceivedTo(g, rv, v, s, boxes, i, now, latency)
    ensures rv <= TS_NEVER
  {
    if i == 0 {
      g, v, rv := h, l, TS_NEVER;
      LandedNone(boxes);
      assert Mixed(s, KeptAll(s), 0) == s && s[..0] == [];
    } else {
      var f, u, rv0;
      f, u, rv0 := ReceiveKeeps(h, l, s, boxes, now, latency, n, i - 1);
      g, v, rv := ReceiveOne(f, u, rv0, s, boxes, now, latency, n, i - 1);
    }
  }

  lemma ReceiveOne<A>(f: Heap<A>, u: Lists<A>, rv0: Time, s: seq<Sender>, boxes: seq<seq<Msg>>, now: int,
                      latency: real, n: nat, i: nat) returns (g: Heap<A>, v: Lists<A>, rv: Time)
    requires i < |s| && |s[i].box| <= n && FinishedInFront(s[i].box) && rv0 <= TS_NEVER
    requires ReceivedTo(f, rv0, u, s, boxes, i, now, latency)
    ensures ReceiveFrom(f, i, Head(f.outbox, i), now, latency, rv0, n) == Some((g, rv)) && rv <= TS_NEVER
    ensures ReceivedTo(g, rv, v, s, boxes, i + 1, now, latency)
  {
    var m := Mixed(s, KeptAll(s), i);
    MixedNext(s, KeptAll(s), i);
    var ds, more := DeliveredAll(s[..i], now, latency), Delivered(s[i].box, now, latency);
    g, v, rv := ReceiveWalk(f, u, m, Landed(boxes, ds), i, s[i].box, now, latency, rv0, n);
    LandedAppend(boxes, ds, more);
    assert s[..i + 1][..i] == s[..i];
  }

  // ---------------------------------------------------------------------------
  // A whole call
  // ---------------------------------------------------------------------------

  /** The rates of the interfaces. */
  ghost predicate Rates(nifs: seq<Sender>, caps: seq<real>)
  {
    |caps| == |nifs| && forall k :: 0 <= k < |nifs| ==> caps[k] == nifs[k].cap
  }

  lemma QueueingShort(nifs: seq<Sender>, t: Tick, n: nat)
    requires |t.offers| == |nifs| && Short(Current(nifs, t), n)
    ensures Short(Queueing(nifs, t), n)
  {
    forall i | 0 <= i < |nifs| ensures |Queueing(nifs, t)[i].box| <= n {
      assert |Current(nifs, t)[i].box| == |Queueing(nifs, t)[i].box|;
    }
  }

  lemma MixedAll(nifs: seq<Sender>, r: seq<Sender>)
    requires |nifs| == |r|
    ensures Mixed(nifs, r, |nifs|) == r
  {
  }

  /** A call up to the point where it receives messages. */
  lemma UpToServing<A>(h: Heap<A>, l: Lists<A>, nifs: seq<Sender>, boxes: seq<seq<Msg>>, t: Tick, addrs: seq<A>, n: nat)
    returns (g: Heap<A>, v: Lists<A>)
    requires Represents(h, l, nifs, boxes) && NewCells(h, addrs) && |addrs| == |nifs| && Deliverable(t, |nifs|)
    requires Short(Current(nifs, t), n)
    ensures UpdateTo(PollTo(h, t, addrs, |addrs|), |addrs|, t.now, n) == Some(g)
    ensures Represents(g, v, Current(nifs, t), boxes)
  {
    v := PollKeeps(h, l, nifs, boxes, t, addrs, |nifs|);
    MixedAll(nifs, Queueing(nifs, t));
    QueueingShort(nifs, t, n);
    g := UpdateKeeps(PollTo(h, t, addrs, |addrs|), v, Queueing(nifs, t), boxes, Current(nifs, t), t.now, n, |nifs|);
    MixedAll(Queueing(nifs, t), Current(nifs, t));
  }

  lemma UpToReceiving<A>(h: Heap<A>, l: Lists<A>, nifs: seq<Sender>, boxes: seq<seq<Msg>>, bw: real, caps: seq<real>,
                         t: Tick, addrs: seq<A>, n: nat) returns (g: Heap<A>, v: Lists<A>)
    requires Represents(h, l, nifs, boxes) && NewCells(h, addrs) && |addrs| == |nifs| && Deliverable(t, |nifs|)
    requires Short(Current(nifs, t), n) && Rates(nifs, caps)
    ensures Represents(g, v, Served(bw, nifs, t), boxes) && Short(Served(bw, nifs, t), n)
    ensures var d := ReceiveTo(g, |addrs|, t.now, t.latency, n);
            CommitLinks(bw, caps, h, t, addrs, n)
            == if d.None? then None else Some(Linked(d.value.0, LoadAll(Served(bw, nifs, t)), d.value.1))
  {
    var f;
    f, v := UpToServing(h, l, nifs, boxes, t, addrs, n);
    g := Serving(f, v, Current(nifs, t), boxes, bw, caps, n);
  }

  lemma Serving<A>(f: Heap<A>, v: Lists<A>, c: seq<Sender>, boxes: seq<seq<Msg>>, bw: real, caps: seq<real>, n: nat)
    returns (g: Heap<A>)
    requires Represents(f, v, c, boxes) && Short(c, n) && Rates(c, caps)
    ensures Represents(g, v, ServeAll(bw, c), boxes) && Short(ServeAll(bw, c), n)
    ensures ScanTo(f, caps, |c|, n).Some? && RateTo(f, caps, bw, |c|, n) == Some((g, LoadAll(ServeAll(bw, c))))
  {
    var r := ServeAll(bw, c);
    ServeAllShared(bw, c);
    ScanIsDemand(f, v, c, boxes, caps, n, |c|);
    g := RateKeeps(f, v, c, boxes, caps, bw, r, Loads(r), Tally(r), n, |c|);
    MixedAll(c, r);
    assert r[..|c|] == r;
    ServedShort(bw, c, n);
  }

  /** The bandwidth that a call gives to each interface is the sum of the rates of its messages. */
  lemma SharesAreLoads<A>(h: Heap<A>, l: Lists<A>, nifs: seq<Sender>, boxes: seq<seq<Msg>>, bw: real, caps: seq<real>,
                          t: Tick, addrs: seq<A>, n: nat)
    requires Represents(h, l, nifs, boxes) && NewCells(h, addrs) && |addrs| == |nifs| && Deliverable(t, |nifs|)
    requires Short(Current(nifs, t), n) && Rates(nifs, caps)
    ensures SharesOf(bw, caps, h, t, addrs, n) == Loads(Served(bw, nifs, t))
  {
    var f, v := UpToServing(h, l, nifs, boxes, t, addrs, n);
    var c, r := Current(nifs, t), Served(bw, nifs, t);
    ServeAllShared(bw, c);
    forall j | 0 <= j < |nifs| ensures Shares(f, caps, bw, n)[j] == Loads(r)[j] {
      ShareIsLoad(f, v, c, boxes, caps, bw, r, Loads(r), Tally(r), n, j);
    }
  }

  lemma ShareIsLoad<A>(h: Heap<A>, l: Lists<A>, nifs: seq<Sender>, boxes: seq<seq<Msg>>, caps: seq<real>, bw: real,
                       r: seq<Sender>, loads: seq<real>, tally: seq<real>, n: nat, j: nat)
    requires Represents(h, l, nifs, boxes) && j < |nifs| && Short(nifs, n) && Shared(bw, nifs, r, loads, tally)
    requires Rates(nifs, caps)
    ensures Shares(h, caps, bw, n)[j] == loads[j]
  {
    var before := RateTotal(h, l, nifs, boxes, caps, bw, r, loads, tally, n, j);
    var after := RateTotal(h, l, nifs, boxes, caps, bw, r, loads, tally, n, j + 1);
    assert SharedAt(bw, nifs, r, loads, tally, j);
    ShareAt(h, caps, bw, n, j, before, after);
  }

  lemma RateTotal<A>(h: Heap<A>, l: Lists<A>, nifs: seq<Sender>, boxes: seq<seq<Msg>>, caps: seq<real>, bw: real,
                     r: seq<Sender>, loads: seq<real>, tally: seq<real>, n: nat, i: nat)
    returns (total: Option<(Heap<A>, real)>)
    requires Represents(h, l, nifs, boxes) && i <= |nifs| && Short(nifs, n) && Shared(bw, nifs, r, loads, tally)
    requires Rates(nifs, caps)
    ensures total == RateTo(h, caps, bw, i, n) && total.Some? && total.value.1 == tally[i]
  {
    var g := RateKeeps(h, l, nifs, boxes, caps, bw, r, loads, tally, n, i);
    total := Some((g, tally[i]));
  }

  lemma ShareAt<A>(h: Heap<A>, caps: seq<real>, bw: real, n: nat, j: nat, before: Option<(Heap<A>, real)>,
                   after: Option<(Heap<A>, real)>)
    requires j < |caps| && before == RateTo(h, caps, bw, j, n) && after == RateTo(h, caps, bw, j + 1, n)
    requires before.Some? && after.Some?
    ensures Shares(h, caps, bw, n)[j] == after.value.1 - before.value.1
  {
  }

  lemma ServedShort(bw: real, c: seq<Sender>, n: nat)
    requires Short(c, n)
    ensures Short(ServeAll(bw, c), n)
  {
    forall i | 0 <= i < |c| ensures |ServeAll(bw, c)[i].box| <= n { ServeAllAt(bw, c, i); }
  }

  /** If finished messages are in front, a call leaves lists with what the commit function says. */
  lemma CommitKeeps<A>(h: Heap<A>, l: Lists<A>, nifs: seq<Sender>, boxes: seq<seq<Msg>>, bw: real, caps: seq<real>,
                       t: Tick, addrs: seq<A>, n: nat) returns (r: Linked<A>, v: Lists<A>)
    requires Represents(h, l, nifs, boxes) && NewCells(h, addrs) && |addrs| == |nifs| && Deliverable(t, |nifs|)
    requires Short(Current(nifs, t), n) && Rates(nifs, caps) && InFront(Served(bw, nifs, t))
    ensures CommitLinks(bw, caps, h, t, addrs, n) == Some(r)
    ensures var net := Commit(bw, nifs, t);
            && r.used == net.used && r.next == net.next
            && Represents(r.heap, v, net.nifs, Landed(boxes, net.delivered))
  {
    var s := Served(bw, nifs, t);
    var f, u := UpToReceiving(h, l, nifs, boxes, bw, caps, t, addrs, n);
    var g, rv;
    g, v, rv := ReceiveKeeps(f, u, s, boxes, t.now, t.latency, n, |nifs|);
    MixedAll(s, KeptAll(s));
    assert s[..|nifs|] == s;
    r := Linked(g, LoadAll(s), rv);
  }

  // ---------------------------------------------------------------------------
  // No walk makes or frees a cell
  // ---------------------------------------------------------------------------

  lemma {:induction false} UpdateCells<A>(h: Heap<A>, cur: Option<A>, now: int, n: nat)
    requires UpdateFrom(h, cur, now, n).Some?
    ensures UpdateFrom(h, cur, now, n).value.cells.Keys == h.cells.Keys
    decreases n
  {
    if cur.Some? {
      var c := h.cells[cur.value];
      UpdateCells(SetMsg(h, cur.value, Accrue(c.msg, now)), c.next, now, n - 1);
    }
  }

  lemma {:induction false} RateCells<A>(h: Heap<A>, cur: Option<A>, bw: real, used: real, cap: real, n: nat)
    requires RateFrom(h, cur, bw, used, cap, n).Some?
    ensures RateFrom(h, cur, bw, used, cap, n).value.0.cells.Keys == h.cells.Keys
    decreases n
  {
    if cur.Some? {
      var c := h.cells[cur.value];
      var m := Serve(bw, used, cap, c.msg);
      RateCells(SetMsg(h, cur.value, m), c.next, bw, used + m.rate, cap, n - 1);
    }
  }

  lemma {:induction false} ReceiveCells<A>(h: Heap<A>, i: nat, cur: Option<A>, now: int, latency: real, rv: Time,
                                           n: nat)
    requires ReceiveFrom(h, i, cur, now, latency, rv, n).Some?
    ensures ReceiveFrom(h, i, cur, now, latency, rv, n).value.0.cells.Keys == h.cells.Keys
    decreases n
  {
    if cur.Some? {
      var c := h.cells[cur.value];
      var g := if Done(c.msg) then Take(h, i, cur.value, now, latency) else h;
      ReceiveCells(g, i, c.next, now, latency, Min(rv, Call(c.msg, now, latency)), n - 1);
    }
  }

  lemma {:induction false} WalksCells<A>(h: Heap<A>, caps: seq<real>, bw: real, now: int, latency: real, i: nat, n: nat)
    requires i <= |caps|
    ensures UpdateTo(h, i, now, n).Some? ==> UpdateTo(h, i, now, n).value.cells.Keys == h.cells.Keys
    ensures RateTo(h, caps, bw, i, n).Some? ==> RateTo(h, caps, bw, i, n).value.0.cells.Keys == h.cells.Keys
    ensures ReceiveTo(h, i, now, latency, n).Some? ==>
              ReceiveTo(h, i, now, latency, n).value.0.cells.Keys == h.cells.Keys
  {
    if i > 0 {
      WalksCells(h, caps, bw, now, latency, i - 1, n);
      var u, r := UpdateTo(h, i - 1, now, n), RateTo(h, caps, bw, i - 1, n);
      var d := ReceiveTo(h, i - 1, now, latency, n);
      if UpdateTo(h, i, now, n).Some? { UpdateCells(u.value, Head(u.value.outbox, i - 1), now, n); }
      if RateTo(h, caps, bw, i, n).Some? {
        RateCells(r.value.0, Head(r.value.0.outbox, i - 1), bw, r.value.1, caps[i - 1], n);
      }
      if ReceiveTo(h, i, now, latency, n).Some? {
        ReceiveCells(d.value.0, i - 1, Head(d.value.0.outbox, i - 1), now, latency, d.value.1, n);
      }
    }
  }

  lemma {:induction false} PollCells<A>(h: Heap<A>, t: Tick, addrs: seq<A>, i: nat)
    requires i <= |addrs| == |t.offers|
    ensures forall x :: x in PollTo(h, t, addrs, i).cells ==> x in h.cells || x in addrs
  {
    if i > 0 { PollCells(h, t, addrs, i - 1); }
  }

  lemma CommitCells<A>(bw: real, caps: seq<real>, h: Heap<A>, t: Tick, addrs: seq<A>, n: nat)
    requires |caps| == |addrs| == |t.offers| && CommitLinks(bw, caps, h, t, addrs, n).Some?
    ensures forall x :: x in CommitLinks(bw, caps, h, t, addrs, n).value.heap.cells ==> x in h.cells || x in addrs
  {
    var p := PollTo(h, t, addrs, |addrs|);
    PollCells(h, t, addrs, |addrs|);
    WalksCells(p, caps, bw, t.now, t.latency, |addrs|, n);
    var g := UpdateTo(p, |addrs|, t.now, n).value;
    WalksCells(g, caps, bw, t.now, t.latency, |addrs|, n);
    WalksCells(RateTo(g, caps, bw, |addrs|, n).value.0, caps, bw, t.now, t.latency, |addrs|, n);
  }

  // ---------------------------------------------------------------------------
  // ... and only then
  // ---------------------------------------------------------------------------

  /** The lists `cells` from i on are apart from each other, and as long as the outboxes of s. */
  ghost predicate Separate<A>(cells: seq<seq<A>>, s: seq<Sender>, i: nat)
  {
    && |cells| == |s| && (forall p :: i <= p < |s| ==> |cells[p]| == |s[p].box| && Distinct(cells[p]))
    && forall p, q :: i <= p < |s| && i <= q < |s| && p != q ==> Apart(cells[p], cells[q])
  }

  /** Outbox i has been emptied as far as its links allow, and the outboxes from p on are as they were. */
  ghost predicate Emptying<A>(g: Heap<A>, cells: seq<seq<A>>, s: seq<Sender>, i: nat, p: nat, now: int, latency: real)
    requires Separate(cells, s, i) && i < p
  {
    && (i < |s| ==> Left(g, cells[i], s[i].box, i, |cells[i]|, now, latency))
    && forall q :: p <= q < |s| ==> Left(g, cells[q], s[q].box, q, 0, now, latency)
  }

  lemma SeparateLists<A>(h: Heap<A>, l: Lists<A>, v: seq<Sender>, boxes: seq<seq<Msg>>, now: int, latency: real)
    requires Represents(h, l, v, boxes)
    ensures Separate(l.outs, v, 0)
    ensures forall q :: 0 <= q < |v| ==> Left(h, l.outs[q], v[q].box, q, 0, now, latency)
  {
    forall p | 0 <= p < |v|
      ensures |l.outs[p]| == |v[p].box| && Distinct(l.outs[p])
      ensures Left(h, l.outs[p], v[p].box, p, 0, now, latency)
    {
      LeftFirst(h, l, v, boxes, p, now, latency);
    }
    forall p, q | 0 <= p < |v| && 0 <= q < |v| && p != q ensures Apart(l.outs[p], l.outs[q]) {
      assert OutboxIs(h, l, p, v[p].box) && OutboxIs(h, l, q, v[q].box);
    }
  }

  lemma EmptyOne<A>(g: Heap<A>, cells: seq<seq<A>>, s: seq<Sender>, i: nat, p: nat, now: int, latency: real, rv: Time,
                    n: nat) returns (f: Heap<A>, t: Time)
    requires Separate(cells, s, i) && i < p < |s| && |s[p].box| <= n && Emptying(g, cells, s, i, p, now, latency)
    ensures ReceiveFrom(g, p, Head(g.outbox, p), now, latency, rv, n) == Some((f, t))
    ensures Emptying(f, cells, s, i, p + 1, now, latency)
  {
    var walk := ReceiveFrom(g, p, Head(g.outbox, p), now, latency, rv, n);
    FirstOpenIs(s[p].box, 0);
    f, t := AnyWalk(g, cells[p], s[p].box, p, 0, now, latency, rv, n, walk);
    AsideWalk(g, cells[p], s[p].box, p, 0, now, latency, rv, n, walk, f, t, cells[i], s[i].box, i, |cells[i]|);
    forall q | p < q < |s| ensures Left(f, cells[q], s[q].box, q, 0, now, latency) {
      AsideWalk(g, cells[p], s[p].box, p, 0, now, latency, rv, n, walk, f, t, cells[q], s[q].box, q, 0);
    }
  }

  lemma EmptyFirst<A>(g: Heap<A>, l: Lists<A>, v: seq<Sender>, boxes: seq<seq<Msg>>, s: seq<Sender>,
                      i: nat, now: int, latency: real, rv: Time, n: nat) returns (f: Heap<A>, t: Time)
    requires Represents(g, l, v, boxes) && |v| == |s| && i < |s| && |s[i].box| <= n
    requires forall q :: i <= q < |s| ==> v[q] == s[q]
    ensures ReceiveFrom(g, i, Head(g.outbox, i), now, latency, rv, n) == Some((f, t))
    ensures Separate(l.outs, s, i) && Emptying(f, l.outs, s, i, i + 1, now, latency)
  {
    SeparateLists(g, l, v, boxes, now, latency);
    var c, b := l.outs[i], s[i].box;
    var walk := ReceiveFrom(g, i, Head(g.outbox, i), now, latency, rv, n);
    FirstOpenIs(b, 0);
    f, t := AnyWalk(g, c, b, i, 0, now, latency, rv, n, walk);
    forall q | i < q < |s| ensures Left(f, l.outs[q], s[q].box, q, 0, now, latency) {
      AsideWalk(g, c, b, i, 0, now, latency, rv, n, walk, f, t, l.outs[q], s[q].box, q, 0);
    }
  }

  lemma EmptyTo<A>(h: Heap<A>, l: Lists<A>, s: seq<Sender>, boxes: seq<seq<Msg>>, now: int, latency: real, n: nat,
                   i: nat) returns (g: Heap<A>, cells: seq<seq<A>>, rv: Time)
    requires Represents(h, l, s, boxes) && i < |s| && Short(s, n)
    requires forall k :: 0 <= k < i ==> FinishedInFront(s[k].box)
    ensures ReceiveTo(h, i + 1, now, latency, n) == Some((g, rv))
    ensures Separate(cells, s, i) && Emptying(g, cells, s, i, i + 1, now, latency)
  {
    var f, u, rv0;
    f, u, rv0 := ReceiveKeeps(h, l, s, boxes, now, latency, n, i);
    var more := Landed(boxes, DeliveredAll(s[..i], now, latency));
    g, rv := EmptyFirst(f, u, Mixed(s, KeptAll(s), i), more, s, i, now, latency, rv0, n);
    cells := u.outs;
  }

  /** From the first outbox that has a finished message behind an unfinished one, on. */
  lemma {:induction false} EmptyAll<A>(h: Heap<A>, l: Lists<A>, s: seq<Sender>, boxes: seq<seq<Msg>>, now: int,
                                       latency: real, n: nat, i: nat, p: nat)
    returns (g: Heap<A>, cells: seq<seq<A>>, rv: Time)
    requires Represents(h, l, s, boxes) && i < p <= |s| && Short(s, n)
    requires forall k :: 0 <= k < i ==> FinishedInFront(s[k].box)
    ensures ReceiveTo(h, p, now, latency, n) == Some((g, rv))
    ensures Separate(cells, s, i) && Emptying(g, cells, s, i, p, now, latency)
  {
    if p == i + 1 {
      g, cells, rv := EmptyTo(h, l, s, boxes, now, latency, n, i);
    } else {
      var f, rv0;
      f, cells, rv0 := EmptyAll(h, l, s, boxes, now, latency, n, i, p - 1);
      g, rv := EmptyOne(f, cells, s, i, p - 1, now, latency, rv0, n);
    }
  }

  lemma FirstStranding(s: seq<Sender>) returns (i: nat)
    requires !InFront(s)
    ensures i < |s| && !FinishedInFront(s[i].box) && forall k :: 0 <= k < i ==> FinishedInFront(s[k].box)
  {
    i := 0;
    while i < |s| && FinishedInFront(s[i].box)
      invariant i <= |s| && forall k :: 0 <= k < i ==> FinishedInFront(s[k].box)
    {
      i := i + 1;
    }
  }

  /** From orderly links every call ends, and it leaves links to exactly the messages that the commit function
      keeps if and only if no finished message is behind an unfinished one. */
  lemma CommitIff<A(!new)>(h: Heap<A>, l: Lists<A>, nifs: seq<Sender>, boxes: seq<seq<Msg>>, bw: real, caps: seq<real>,
                           t: Tick, addrs: seq<A>, n: nat) returns (r: Linked<A>)
    requires Represents(h, l, nifs, boxes) && NewCells(h, addrs) && |addrs| == |nifs| && Deliverable(t, |nifs|)
    requires Short(Current(nifs, t), n) && Rates(nifs, caps)
    ensures CommitLinks(bw, caps, h, t, addrs, n) == Some(r)
    ensures Holds(r.heap, Commit(bw, nifs, t).nifs) <==> InFront(Served(bw, nifs, t))
  {
    var s := Served(bw, nifs, t);
    if InFront(s) {
      var v;
      r, v := CommitKeeps(h, l, nifs, boxes, bw, caps, t, addrs, n);
    } else {
      var f, u := UpToReceiving(h, l, nifs, boxes, bw, caps, t, addrs, n);
      var i := FirstStranding(s);
      var g, cells, rv;
      g, cells, rv := EmptyAll(f, u, s, boxes, t.now, t.latency, n, i, |s|);
      r := Linked(g, LoadAll(s), rv);
      if Holds(g, KeptAll(s)) {
        var v, more :| Represents(g, v, KeptAll(s), more);
        Strands(g, cells[i], s[i].box, i, t.now, t.latency, v, s, more);
      }
    }
  }
}
