/** A communication network that rejects when it is full: how `commit` moves bytes, shares out the
    bandwidth and says when it wants to be called again. Byte counts and rates are reals. */
module Network {
  import opened Options
  import opened Sync

  datatype MsgState = NMS_NONE | NMS_SENDING | NMS_DELIVERED | NMS_REJECTED | NMS_DELAYED

  /** A message; `id` stands for its address, `to` is the number of the receiving interface. */
  datatype Msg = Msg(id: nat, to: nat, size: real, start: int, sent: real, recv: real, rate: real,
                     last: int, end: int, state: MsgState)

  /** A sending interface: its rate and the messages it still has to send, newest first. */
  datatype Sender = Sender(cap: real, box: seq<Msg>)

  function Ceil(x: real): int { -(-x).Floor }

  function MinR(a: real, b: real): real { if b < a then b else a }

  // ---------------------------------------------------------------------------
  // What commit does to one message
  // ---------------------------------------------------------------------------

  function Accrue(m: Msg, now: int): Msg
  {
    var dt := (now - m.last) as real;
    m.(sent := m.sent + m.rate * dt, recv := m.recv + m.rate * dt, last := now)
  }

  /** The share of the bandwidth, before the cap by what is left to send. The tally the code compares
      the whole bandwidth with is never raised from zero. */
  function Share(bw: real, used: real, cap: real, m: Msg): (real, MsgState)
  {
    if bw - used > cap then (cap, NMS_SENDING)
    else if bw == 0.0 then (0.0, if m.sent > 0.0 then NMS_DELAYED else NMS_REJECTED)
    else (bw - used, NMS_SENDING)
  }

  function Serve(bw: real, used: real, cap: real, m: Msg): Msg
  {
    var (rate, state) := Share(bw, used, cap, m);
    m.(rate := MinR(rate, m.size - m.sent), state := state)
  }

  predicate Done(m: Msg) { m.recv >= m.size }

  function Deliver(m: Msg, now: int, latency: real): Msg
  {
    m.(state := NMS_DELIVERED, end := now + Ceil(latency))
  }

  /** When an unfinished message wants to be looked at again. */
  function Wake(m: Msg, now: int): Time
  {
    if m.rate <= 0.0 then TS_NEVER
    else
      var secs := (m.size - m.recv) / m.rate;
      Min(TS_NEVER, if secs < 1.0 then now + 1 else secs.Floor + now)
  }

  function Call(m: Msg, now: int, latency: real): Time
  {
    if Done(m) then Min(TS_NEVER, now + Ceil(latency)) else Wake(m, now)
  }

  // ---------------------------------------------------------------------------
  // ... to an outbox
  // ---------------------------------------------------------------------------

  function AccrueBox(b: seq<Msg>, now: int): (r: seq<Msg>)
    ensures |r| == |b|
  {
    seq(|b|, k requires 0 <= k < |b| => Accrue(b[k], now))
  }

  function Load(b: seq<Msg>): real
  {
    if |b| == 0 then 0.0 else Load(b[..|b| - 1]) + b[|b| - 1].rate
  }

  function ServeBox(bw: real, used: real, cap: real, b: seq<Msg>): (r: seq<Msg>)
    ensures |r| == |b|
  {
    if |b| == 0 then []
    else
      var p := ServeBox(bw, used, cap, b[..|b| - 1]);
      p + [Serve(bw, used + Load(p), cap, b[|b| - 1])]
  }

  function Kept(b: seq<Msg>): seq<Msg>
  {
    if |b| == 0 then []
    else if Done(b[|b| - 1]) then Kept(b[..|b| - 1])
    else Kept(b[..|b| - 1]) + [b[|b| - 1]]
  }

  function Delivered(b: seq<Msg>, now: int, latency: real): seq<Msg>
  {
    if |b| == 0 then []
    else if Done(b[|b| - 1]) then Delivered(b[..|b| - 1], now, latency) + [Deliver(b[|b| - 1], now, latency)]
    else Delivered(b[..|b| - 1], now, latency)
  }

  function CallBox(b: seq<Msg>, now: int, latency: real): Time
  {
    if |b| == 0 then TS_NEVER else Min(CallBox(b[..|b| - 1], now, latency), Call(b[|b| - 1], now, latency))
  }

  // ---------------------------------------------------------------------------
  // ... and to the network
  // ---------------------------------------------------------------------------

  /** One call: the clock, the latency then in force, and what each interface queues. */
  datatype Tick = Tick(now: int, latency: real, offers: seq<Option<Offer>>)

  datatype Offer = Offer(id: nat, to: nat, size: real)

  function Queued(o: Offer, now: int): Msg
  {
    Msg(o.id, o.to, o.size, now, 0.0, 0.0, 0.0, now, 0, NMS_NONE)
  }

  function Offered(b: seq<Msg>, o: Option<Offer>, now: int): seq<Msg>
  {
    if o.Some? then [Queued(o.value, now)] + b else b
  }

  /** The outboxes with new messages in front and every message's counters brought up to date. */
  function Current(nifs: seq<Sender>, t: Tick): (r: seq<Sender>)
    requires |t.offers| == |nifs|
    ensures |r| == |nifs|
  {
    seq(|nifs|, i requires 0 <= i < |nifs| =>
      nifs[i].(box := AccrueBox(Offered(nifs[i].box, t.offers[i], t.now), t.now)))
  }

  function LoadAll(nifs: seq<Sender>): real
  {
    if |nifs| == 0 then 0.0 else LoadAll(nifs[..|nifs| - 1]) + Load(nifs[|nifs| - 1].box)
  }

  function ServeAll(bw: real, nifs: seq<Sender>): (r: seq<Sender>)
    ensures |r| == |nifs|
  {
    if |nifs| == 0 then []
    else
      var p := ServeAll(bw, nifs[..|nifs| - 1]);
      var n := nifs[|nifs| - 1];
      p + [n.(box := ServeBox(bw, LoadAll(p), n.cap, n.box))]
  }

  function KeptAll(nifs: seq<Sender>): (r: seq<Sender>)
    ensures |r| == |nifs|
  {
    seq(|nifs|, i requires 0 <= i < |nifs| => nifs[i].(box := Kept(nifs[i].box)))
  }

  function DeliveredAll(nifs: seq<Sender>, now: int, latency: real): seq<Msg>
  {
    if |nifs| == 0 then []
    else DeliveredAll(nifs[..|nifs| - 1], now, latency) + Delivered(nifs[|nifs| - 1].box, now, latency)
  }

  function CallAll(nifs: seq<Sender>, now: int, latency: real): Time
  {
    if |nifs| == 0 then TS_NEVER
    else Min(CallAll(nifs[..|nifs| - 1], now, latency), CallBox(nifs[|nifs| - 1].box, now, latency))
  }

  /** A network after a call: its outboxes, the bandwidth in use, the messages the call delivered in
      the order it delivered them, the clock, and when it wants to be called again. */
  datatype Net = Net(nifs: seq<Sender>, used: real, delivered: seq<Msg>, now: int, next: Time)

  function Served(bw: real, nifs: seq<Sender>, t: Tick): (r: seq<Sender>)
    requires |t.offers| == |nifs|
    ensures |r| == |nifs|
  {
    ServeAll(bw, Current(nifs, t))
  }

  function Commit(bw: real, nifs: seq<Sender>, t: Tick): (r: Net)
    requires |t.offers| == |nifs|
    ensures |r.nifs| == |nifs|
  {
    var s := Served(bw, nifs, t);
    Net(KeptAll(s), LoadAll(s), DeliveredAll(s, t.now, t.latency), t.now, CallAll(s, t.now, t.latency))
  }

  /** An inbox after messages were pushed onto it one by one. */
  function Pushed(inbox: seq<Msg>, delivered: seq<Msg>, j: nat): seq<Msg>
  {
    if |delivered| == 0 then inbox
    else
      var m := delivered[|delivered| - 1];
      var rest := Pushed(inbox, delivered[..|delivered| - 1], j);
      if m.to == j then [m] + rest else rest
  }

  /** Every message gets its share of what the messages before it left. */
  lemma {:induction false} ServeBoxAt(bw: real, used: real, cap: real, b: seq<Msg>, k: nat)
    requires k < |b|
    ensures var r := ServeBox(bw, used, cap, b); r[k] == Serve(bw, used + Load(r[..k]), cap, b[k])
  {
    var n := |b| - 1;
    var p := ServeBox(bw, used, cap, b[..n]);
    var r := ServeBox(bw, used, cap, b);
    assert r[..n] == p;
    if k < n {
      ServeBoxAt(bw, used, cap, b[..n], k);
      assert r[..k] == p[..k];
    }
  }

  /** The message at index k is served with what those before it leave. */
  ghost predicate ServedAt(bw: real, used: real, cap: real, b: seq<Msg>, r: seq<Msg>, k: nat)
    requires k < |b| == |r|
  {
    r[k] == Serve(bw, used + Load(r[..k]), cap, b[k])
  }

  lemma BoxServed(bw: real, used: real, cap: real, b: seq<Msg>)
    ensures forall k :: 0 <= k < |b| ==> ServedAt(bw, used, cap, b, ServeBox(bw, used, cap, b), k)
  {
    forall k | 0 <= k < |b| ensures ServedAt(bw, used, cap, b, ServeBox(bw, used, cap, b), k) {
      ServeBoxAt(bw, used, cap, b, k);
    }
  }

  lemma LoadSnoc(b: seq<Msg>, k: nat)
    requires k < |b|
    ensures Load(b[..k + 1]) == Load(b[..k]) + b[k].rate
  {
    assert b[..k + 1][..k] == b[..k];
  }

  lemma {:induction false} ServeAllAt(bw: real, v: seq<Sender>, i: nat)
    requires i < |v|
    ensures var r := ServeAll(bw, v);
            r[i] == v[i].(box := ServeBox(bw, LoadAll(r[..i]), v[i].cap, v[i].box))
  {
    var n := |v| - 1;
    var p := ServeAll(bw, v[..n]);
    var r := ServeAll(bw, v);
    assert r[..n] == p;
    if i < n {
      ServeAllAt(bw, v[..n], i);
      assert r[..i] == p[..i];
    }
  }

  /** What sharing out does to the i-th interface; `tally[i]` is what the interfaces before it use. */
  ghost predicate SharedAt(bw: real, v: seq<Sender>, r: seq<Sender>, loads: seq<real>, tally: seq<real>, i: nat)
    requires i < |v| == |r| == |loads| && |tally| == |v| + 1
  {
    && r[i] == v[i].(box := ServeBox(bw, tally[i], v[i].cap, v[i].box))
    && loads[i] == Load(r[i].box)
    && tally[i + 1] == tally[i] + loads[i]
  }

  ghost predicate Shared(bw: real, v: seq<Sender>, r: seq<Sender>, loads: seq<real>, tally: seq<real>)
  {
    && |loads| == |r| == |v|
    && |tally| == |v| + 1
    && tally[0] == 0.0
    && (forall i :: 0 <= i < |v| ==> r[i].cap == v[i].cap)
    && (forall i :: 0 <= i < |v| ==> SharedAt(bw, v, r, loads, tally, i))
  }

  function Loads(r: seq<Sender>): seq<real>
  {
    seq(|r|, i requires 0 <= i < |r| => Load(r[i].box))
  }

  function Tally(r: seq<Sender>): seq<real>
  {
    seq(|r| + 1, i requires 0 <= i <= |r| => LoadAll(r[..i]))
  }

  lemma ServeAllShared(bw: real, v: seq<Sender>)
    ensures Shared(bw, v, ServeAll(bw, v), Loads(ServeAll(bw, v)), Tally(ServeAll(bw, v)))
  {
    var r := ServeAll(bw, v);
    forall i | 0 <= i < |v| ensures SharedAt(bw, v, r, Loads(r), Tally(r), i) && r[i].cap == v[i].cap {
      ServeAllAt(bw, v, i);
      LoadAllSnoc(r, i);
    }
  }

  lemma LoadAllSnoc(v: seq<Sender>, i: nat)
    requires i < |v|
    ensures LoadAll(v[..i + 1]) == LoadAll(v[..i]) + Load(v[i].box)
  {
    assert v[..i + 1][..i] == v[..i];
  }

  ghost predicate Addressed(nifs: seq<Sender>)
  {
    forall i, k :: 0 <= i < |nifs| && 0 <= k < |nifs[i].box| ==> nifs[i].box[k].to < |nifs|
  }
}
