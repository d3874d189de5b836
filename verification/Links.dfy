/** The messages of a network as the program links them: cells with a next and a previous link, the heads
    of outboxes and inboxes, and what polling, commit and the reading of an inbox do to the links. A walk
    along a list is given a number of steps, and yields nothing if the list has not ended by then. */
module Links {
  import opened Options
  import opened Sync
  import opened Network

  datatype Cell<A> = Cell(msg: Msg, next: Option<A>, prev: Option<A>)

  /** The cells ever allocated, by address, and the head of each interface's outbox and inbox. */
  datatype Heap<A> = Heap(cells: map<A, Cell<A>>, outbox: seq<Option<A>>, inbox: seq<Option<A>>)

  // ---------------------------------------------------------------------------
  // One cell
  // ---------------------------------------------------------------------------

  ghost function SetMsg<A>(h: Heap<A>, a: A, m: Msg): Heap<A>
  {
    if a in h.cells then h.(cells := h.cells[a := h.cells[a].(msg := m)]) else h
  }

  /** Does nothing if there is no cell at p. */
  ghost function SetNext<A>(h: Heap<A>, p: Option<A>, q: Option<A>): Heap<A>
  {
    if p.Some? && p.value in h.cells then h.(cells := h.cells[p.value := h.cells[p.value].(next := q)]) else h
  }

  ghost function SetPrev<A>(h: Heap<A>, p: Option<A>, q: Option<A>): Heap<A>
  {
    if p.Some? && p.value in h.cells then h.(cells := h.cells[p.value := h.cells[p.value].(prev := q)]) else h
  }

  ghost function Head<A>(heads: seq<Option<A>>, i: nat): Option<A>
  {
    if i < |heads| then heads[i] else None
  }

  ghost function SetHead<A>(heads: seq<Option<A>>, i: nat, p: Option<A>): (r: seq<Option<A>>)
    ensures |r| == |heads|
  {
    if i < |heads| then heads[i := p] else heads
  }

  /** A new message becomes the head of an outbox. It has no link back, and the head before gets none. */
  ghost function Queue<A>(h: Heap<A>, i: nat, a: A, m: Msg): Heap<A>
  {
    h.(cells := h.cells[a := Cell(m, Head(h.outbox, i), None)], outbox := SetHead(h.outbox, i, Some(a)))
  }

  /** A finished message is taken out of outbox i and put on top of its receiver's inbox. */
  ghost function Take<A>(h: Heap<A>, i: nat, a: A, now: int, latency: real): Heap<A>
    requires a in h.cells
  {
    var c := h.cells[a];
    var top := Head(h.inbox, c.msg.to);
    var h1 := SetMsg(h, a, Deliver(c.msg, now, latency));
    var h2 := SetPrev(SetNext(h1, c.prev, c.next), c.next, c.prev);
    var h3 := if Head(h2.outbox, i) == Some(a) then h2.(outbox := SetHead(h2.outbox, i, c.next)) else h2;
    var h4 := SetPrev(SetNext(h3, Some(a), top), top, Some(a));
    h4.(inbox := SetHead(h4.inbox, c.msg.to, Some(a)))
  }

  // ---------------------------------------------------------------------------
  // Walks along one outbox
  // ---------------------------------------------------------------------------

  /** Brings the counters of the messages from `cur` on up to date. */
  ghost function UpdateFrom<A>(h: Heap<A>, cur: Option<A>, now: int, n: nat): Option<Heap<A>>
    decreases n
  {
    if cur.None? then Some(h)
    else if n == 0 || cur.value !in h.cells then None
    else
      var c := h.cells[cur.value];
      UpdateFrom(SetMsg(h, cur.value, Accrue(c.msg, now)), c.next, now, n - 1)
  }

  /** What an interface would like to send of the messages from `cur` on, until that is more than its rate. */
  ghost function ScanFrom<A>(h: Heap<A>, cur: Option<A>, cap: real, wanted: real, n: nat): Option<real>
    decreases n
  {
    if cur.None? then Some(wanted)
    else if n == 0 || cur.value !in h.cells then None
    else
      var c := h.cells[cur.value];
      if wanted + c.msg.size - c.msg.sent > cap then Some(cap)
      else ScanFrom(h, c.next, cap, wanted + (c.msg.size - c.msg.sent), n - 1)
  }

  /** Gives the messages from `cur` on their rates; also the bandwidth then in use. */
  ghost function RateFrom<A>(h: Heap<A>, cur: Option<A>, bw: real, used: real, cap: real, n: nat)
    : Option<(Heap<A>, real)>
    decreases n
  {
    if cur.None? then Some((h, used))
    else if n == 0 || cur.value !in h.cells then None
    else
      var c := h.cells[cur.value];
      var m := Serve(bw, used, cap, c.msg);
      RateFrom(SetMsg(h, cur.value, m), c.next, bw, used + m.rate, cap, n - 1)
  }

  /** Takes the finished messages from `cur` on out of outbox i; also the earliest time asked for. */
  ghost function ReceiveFrom<A>(h: Heap<A>, i: nat, cur: Option<A>, now: int, latency: real, rv: Time, n: nat)
    : Option<(Heap<A>, Time)>
    decreases n
  {
    if cur.None? then Some((h, rv))
    else if n == 0 || cur.value !in h.cells then None
    else
      var c := h.cells[cur.value];
      var g := if Done(c.msg) then Take(h, i, cur.value, now, latency) else h;
      ReceiveFrom(g, i, c.next, now, latency, Min(rv, Call(c.msg, now, latency)), n - 1)
  }

  // ---------------------------------------------------------------------------
  // A call of commit
  // ---------------------------------------------------------------------------

  /** The first i interfaces have been polled; a new message of interface k gets the address addrs[k]. */
  ghost function PollTo<A>(h: Heap<A>, t: Tick, addrs: seq<A>, i: nat): Heap<A>
    requires i <= |addrs| == |t.offers|
  {
    if i == 0 then h
    else
      var g := PollTo(h, t, addrs, i - 1);
      if t.offers[i - 1].Some? then Queue(g, i - 1, addrs[i - 1], Queued(t.offers[i - 1].value, t.now)) else g
  }

  ghost function UpdateTo<A>(h: Heap<A>, i: nat, now: int, n: nat): Option<Heap<A>>
  {
    if i == 0 then Some(h)
    else
      var g := UpdateTo(h, i - 1, now, n);
      if g.None? then None else UpdateFrom(g.value, Head(g.value.outbox, i - 1), now, n)
  }

  ghost function ScanTo<A>(h: Heap<A>, caps: seq<real>, i: nat, n: nat): Option<real>
    requires i <= |caps|
  {
    if i == 0 then Some(0.0)
    else
      var w, v := ScanTo(h, caps, i - 1, n), ScanFrom(h, Head(h.outbox, i - 1), caps[i - 1], 0.0, n);
      if w.None? || v.None? then None else Some(w.value + v.value)
  }

  ghost function RateTo<A>(h: Heap<A>, caps: seq<real>, bw: real, i: nat, n: nat): Option<(Heap<A>, real)>
    requires i <= |caps|
  {
    if i == 0 then Some((h, 0.0))
    else
      var g := RateTo(h, caps, bw, i - 1, n);
      if g.None? then None
      else RateFrom(g.value.0, Head(g.value.0.outbox, i - 1), bw, g.value.1, caps[i - 1], n)
  }

  ghost function ReceiveTo<A>(h: Heap<A>, i: nat, now: int, latency: real, n: nat): Option<(Heap<A>, Time)>
  {
    if i == 0 then Some((h, TS_NEVER))
    else
      var g := ReceiveTo(h, i - 1, now, latency, n);
      if g.None? then None
      else ReceiveFrom(g.value.0, i - 1, Head(g.value.0.outbox, i - 1), now, latency, g.value.1, n)
  }

  /** What a call leaves: cells and links, the bandwidth in use, and when it wants to be called again. */
  datatype Linked<A> = Linked(heap: Heap<A>, used: real, next: Time)

  ghost function CommitLinks<A>(bw: real, caps: seq<real>, h: Heap<A>, t: Tick, addrs: seq<A>, n: nat)
    : Option<Linked<A>>
    requires |caps| == |addrs| == |t.offers|
  {
    var g := UpdateTo(PollTo(h, t, addrs, |addrs|), |addrs|, t.now, n);
    if g.None? || ScanTo(g.value, caps, |addrs|, n).None? then None
    else
      var r := RateTo(g.value, caps, bw, |addrs|, n);
      if r.None? then None
      else
        var d := ReceiveTo(r.value.0, |addrs|, t.now, t.latency, n);
        if d.None? then None else Some(Linked(d.value.0, r.value.1, d.value.1))
  }

  /** The bandwidth that sharing out gives to each interface. */
  ghost function Shares<A>(h: Heap<A>, caps: seq<real>, bw: real, n: nat): (r: seq<real>)
    ensures |r| == |caps|
  {
    seq(|caps|, j requires 0 <= j < |caps| =>
      var before, after := RateTo(h, caps, bw, j, n), RateTo(h, caps, bw, j + 1, n);
      if before.None? || after.None? then 0.0 else after.value.1 - before.value.1)
  }

  /** ... and a call does. */
  ghost function SharesOf<A>(bw: real, caps: seq<real>, h: Heap<A>, t: Tick, addrs: seq<A>, n: nat): seq<real>
    requires |caps| == |addrs| == |t.offers|
  {
    var g := UpdateTo(PollTo(h, t, addrs, |addrs|), |addrs|, t.now, n);
    if g.None? then [] else Shares(g.value, caps, bw, n)
  }

  // ---------------------------------------------------------------------------
  // Reading an inbox
  // ---------------------------------------------------------------------------

  /** Filters an inbox from `cur` on, the last message first: the cells, the head of the list without the
      messages that are due, and what was read. */
  ghost function FilterFrom<A>(h: Heap<A>, cur: Option<A>, t1: int, n: nat): Option<(Heap<A>, Option<A>, seq<Msg>)>
    decreases n
  {
    if cur.None? then Some((h, None, []))
    else if n == 0 || cur.value !in h.cells then None
    else
      var next := h.cells[cur.value].next;
      var g := FilterFrom(h, next, t1, n - 1);
      if g.None? || cur.value !in g.value.0.cells then None
      else
        var rest := if g.value.1 != next then SetNext(g.value.0, cur, g.value.1) else g.value.0;
        var c := rest.cells[cur.value];
        if c.msg.end <= t1 then Some((rest, c.next, g.value.2 + [c.msg])) else Some((rest, cur, g.value.2))
  }

  /** Filters the inbox of interface j. */
  ghost function FilterLinks<A>(h: Heap<A>, j: nat, t1: int, n: nat): Option<(Heap<A>, seq<Msg>)>
  {
    var g := FilterFrom(h, Head(h.inbox, j), t1, n);
    if g.None? then None
    else Some((g.value.0.(inbox := SetHead(g.value.0.inbox, j, g.value.1)), g.value.2))
  }
}
