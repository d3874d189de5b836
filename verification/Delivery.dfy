/** When a message arrives: one that is always given its interface's rate is delivered on the dot. */
module Delivery {
  import opened Options
  import opened Sync
  import opened Network
  import opened NetworkRuns
  import opened Pacing

  ghost predicate Queues(t: Tick, i: nat, id: nat)
  {
    i < |t.offers| && t.offers[i].Some? && t.offers[i].value.id == id
  }

  ghost predicate Present(b: seq<Msg>, id: nat)
  {
    exists k :: 0 <= k < |b| && b[k].id == id
  }

  /** When the message is given its share, its interface's whole rate is still left. */
  ghost predicate FullShare(bw: real, served: seq<Sender>, i: nat, id: nat)
  {
    i < |served| ==> forall k :: 0 <= k < |served[i].box| && served[i].box[k].id == id ==>
      served[i].cap <= bw - (LoadAll(served[..i]) + Load(served[i].box[..k]))
  }

  function Arrival(o: Offer, r: real, start: int): int
    requires 0.0 < r
  {
    start + Ceil(o.size / r)
  }

  /** The counters of a message that has had rate r since it was queued. */
  ghost predicate Paced(m: Msg, o: Offer, r: real, start: int, now: int)
  {
    && m.to == o.to && m.size == o.size && m.start == start <= now && m.last == now
    && m.sent == m.recv == MinR(r * (now - start) as real, o.size)
  }

  ghost predicate OnSchedule(m: Msg, o: Offer, r: real, start: int, now: int)
  {
    Paced(m, o, r, start, now) && m.sent < m.size && m.rate == MinR(r, m.size - m.sent)
  }

  lemma StaysPaced(m: Msg, o: Offer, r: real, start: int, before: int, next: int, now: int)
    requires OnSchedule(m, o, r, start, before) && Travelling(m, r, before, next)
    requires before <= now <= next && 0.0 < r
    ensures Paced(Accrue(m, now), o, r, start, now) && now <= Arrival(o, r, start)
  {
    var n, d := before - start, now - before;
    assert now - start == n + d;
    FloorOf(m, next, d);
    PaceKept(r, m.size, n, d, m.sent, m.rate);
  }

  lemma FloorOf(m: Msg, next: int, d: int)
    requires m.rate > 0.0 ==> next <= m.last + ((m.size - m.recv) / m.rate).Floor
    requires m.sent == m.recv && m.last + d <= next && m.rate > 0.0
    ensures d <= ((m.size - m.sent) / m.rate).Floor
  {
  }

  lemma StaysAbsent(bw: real, nifs: seq<Sender>, t: Tick, i: nat, id: nat)
    requires |t.offers| == |nifs| && i < |nifs|
    requires !Present(nifs[i].box, id) && !Queues(t, i, id)
    ensures !Present(Commit(bw, nifs, t).nifs[i].box, id)
  {
    var c, r := Current(nifs, t), Served(bw, nifs, t);
    ServedSize(bw, nifs, t, i);
    var kept := Kept(r[i].box);
    KeptMembers(r[i].box);
    forall j | 0 <= j < |kept| ensures kept[j].id != id {
      assert kept[j] in r[i].box;
      var k :| 0 <= k < |r[i].box| && r[i].box[k] == kept[j];
      ServedMsg(bw, nifs, t, i, k);
      assert c[i].box[k].id == kept[j].id;
      assert k < |Offered(nifs[i].box, t.offers[i], t.now)|;
      assert Offered(nifs[i].box, t.offers[i], t.now)[k].id == kept[j].id;
    }
  }

  /** What one call does to a message whose counters are on pace: it goes on if it is early, and is
      delivered if it is on time. */
  ghost predicate Handled(net: Net, i: nat, id: nat, o: Offer, r: real, start: int, latency: real)
    requires i < |net.nifs| && 0.0 < r
  {
    && net.now <= Arrival(o, r, start)
    && (Present(net.nifs[i].box, id) <==> net.now < Arrival(o, r, start))
    && (forall m :: m in net.nifs[i].box && m.id == id ==> OnSchedule(m, o, r, start, net.now))
    && (net.now == Arrival(o, r, start) ==> Arrives(net.delivered, id, o, start, net.now + Ceil(latency)))
  }

  ghost predicate Arrives(ds: seq<Msg>, id: nat, o: Offer, start: int, end: int)
  {
    exists d :: d in ds && d.id == id && d.to == o.to && d.start == start && d.end == end
                && d.sent == d.recv == d.size == o.size && d.state == NMS_DELIVERED
  }

  /** The message is on pace, has got all it can use, and is finished exactly if it is time. */
  ghost predicate Fair(b: seq<Msg>, id: nat, o: Offer, r: real, start: int, now: int)
    requires 0.0 < r
  {
    && Present(b, id)
    && forall m :: m in b && m.id == id ==>
         && Paced(m, o, r, start, now) && m.rate == MinR(r, m.size - m.sent)
         && (Done(m) <==> Arrival(o, r, start) <= now)
  }

  lemma ServedOnSchedule(bw: real, used: real, cap: real, m: Msg, o: Offer, start: int, now: int)
    requires 0.0 < cap <= bw - used && 0.0 < bw && Paced(m, o, cap, start, now)
    ensures var s := Serve(bw, used, cap, m);
            && Paced(s, o, cap, start, now) && s.rate == MinR(cap, s.size - s.sent)
            && (Done(s) <==> Arrival(o, cap, start) <= now)
  {
    SentAllIff(o.size, cap, now - start);
  }

  lemma ServedFair(bw: real, nifs: seq<Sender>, t: Tick, i: nat, id: nat, o: Offer, start: int)
    requires |t.offers| == |nifs| && i < |nifs| && 0.0 < nifs[i].cap && 0.0 < bw
    requires Present(Current(nifs, t)[i].box, id) && FullShare(bw, Served(bw, nifs, t), i, id)
    requires forall m :: m in Current(nifs, t)[i].box && m.id == id ==> Paced(m, o, nifs[i].cap, start, t.now)
    ensures Fair(Served(bw, nifs, t)[i].box, id, o, nifs[i].cap, start, t.now)
  {
    var c, r, cap := Current(nifs, t), Served(bw, nifs, t), nifs[i].cap;
    ServedSize(bw, nifs, t, i);
    var k0 :| 0 <= k0 < |c[i].box| && c[i].box[k0].id == id;
    ServedMsg(bw, nifs, t, i, k0);
    assert r[i].box[k0].id == id;
    forall m | m in r[i].box && m.id == id
      ensures Paced(m, o, cap, start, t.now) && m.rate == MinR(cap, m.size - m.sent)
      ensures Done(m) <==> Arrival(o, cap, start) <= t.now
    {
      var k :| 0 <= k < |r[i].box| && r[i].box[k] == m;
      ServedMsg(bw, nifs, t, i, k);
      assert c[i].box[k] in c[i].box;
      ServedOnSchedule(bw, LoadAll(r[..i]) + Load(r[i].box[..k]), cap, c[i].box[k], o, start, t.now);
    }
  }

  lemma FairKept(b: seq<Msg>, id: nat, o: Offer, r: real, start: int, now: int)
    requires 0.0 < r && Fair(b, id, o, r, start, now)
    ensures Present(Kept(b), id) <==> now < Arrival(o, r, start)
    ensures forall m :: m in Kept(b) && m.id == id ==> OnSchedule(m, o, r, start, now)
  {
    KeptMembers(b);
    var k :| 0 <= k < |b| && b[k].id == id;
    assert b[k] in b;
    if now < Arrival(o, r, start) {
      assert b[k] in Kept(b);
    } else {
      forall j | 0 <= j < |Kept(b)| ensures Kept(b)[j].id != id { assert Kept(b)[j] in Kept(b); }
    }
  }

  lemma FairDelivered(v: seq<Sender>, i: nat, id: nat, o: Offer, r: real, start: int, now: int, latency: real)
    requires 0.0 < r && i < |v| && Fair(v[i].box, id, o, r, start, now)
    requires now == Arrival(o, r, start)
    ensures Arrives(DeliveredAll(v, now, latency), id, o, start, now + Ceil(latency))
  {
    var k :| 0 <= k < |v[i].box| && v[i].box[k].id == id;
    var m := v[i].box[k];
    assert m in v[i].box;
    PacedDone(m, o, r, start, now);
    DeliveredAllMembers(v, now, latency);
    ArrivesAs(DeliveredAll(v, now, latency), m, id, o, start, now, latency);
  }

  lemma PacedDone(m: Msg, o: Offer, r: real, start: int, now: int)
    requires Paced(m, o, r, start, now) && Done(m)
    ensures m.sent == m.recv == m.size == o.size && m.to == o.to && m.start == start
  {
  }

  lemma ArrivesAs(ds: seq<Msg>, m: Msg, id: nat, o: Offer, start: int, now: int, latency: real)
    requires Deliver(m, now, latency) in ds && m.id == id && m.to == o.to && m.start == start
    requires m.sent == m.recv == m.size == o.size
    ensures Arrives(ds, id, o, start, now + Ceil(latency))
  {
  }

  lemma PacedIsHandled(bw: real, nifs: seq<Sender>, t: Tick, i: nat, id: nat, o: Offer, start: int)
    requires |t.offers| == |nifs| && i < |nifs| && 0.0 < nifs[i].cap && 0.0 < bw
    requires Present(Current(nifs, t)[i].box, id) && FullShare(bw, Served(bw, nifs, t), i, id)
    requires forall m :: m in Current(nifs, t)[i].box && m.id == id ==> Paced(m, o, nifs[i].cap, start, t.now)
    requires t.now <= Arrival(o, nifs[i].cap, start)
    ensures Handled(Commit(bw, nifs, t), i, id, o, nifs[i].cap, start, t.latency)
  {
    var r := Served(bw, nifs, t);
    ServedFair(bw, nifs, t, i, id, o, start);
    FairKept(r[i].box, id, o, nifs[i].cap, start, t.now);
    if t.now == Arrival(o, nifs[i].cap, start) {
      FairDelivered(r, i, id, o, nifs[i].cap, start, t.now, t.latency);
    }
  }

  lemma QueuedIsPaced(nifs: seq<Sender>, t: Tick, i: nat, id: nat)
    requires |t.offers| == |nifs| && i < |nifs| && Queues(t, i, id) && !Present(nifs[i].box, id)
    requires 0.0 < nifs[i].cap && 0.0 <= t.offers[i].value.size
    ensures Present(Current(nifs, t)[i].box, id)
    ensures forall m :: m in Current(nifs, t)[i].box && m.id == id ==>
      Paced(m, t.offers[i].value, nifs[i].cap, t.now, t.now)
    ensures t.now <= Arrival(t.offers[i].value, nifs[i].cap, t.now)
  {
    var b := Offered(nifs[i].box, t.offers[i], t.now);
    var c := Current(nifs, t)[i].box;
    assert c[0].id == id;
    AbsentHasNone(nifs[i].box, id);
    assert forall k :: 1 <= k < |b| ==> b[k] == nifs[i].box[k - 1];
    forall m | m in c && m.id == id ensures Paced(m, t.offers[i].value, nifs[i].cap, t.now, t.now) {
      var k :| 0 <= k < |c| && c[k] == m;
      assert b[k].id == id;
    }
    SentAllIff(t.offers[i].value.size, nifs[i].cap, -1);
  }

  lemma ScheduledIsPaced(net: Net, bw: real, t: Tick, i: nat, id: nat, o: Offer, start: int)
    requires Accounted(net, bw) && InTime(net, t) && i < |net.nifs| && 0.0 < net.nifs[i].cap
    requires !Queues(t, i, id) && Present(net.nifs[i].box, id)
    requires forall m :: m in net.nifs[i].box && m.id == id ==> OnSchedule(m, o, net.nifs[i].cap, start, net.now)
    ensures Present(Current(net.nifs, t)[i].box, id)
    ensures forall m :: m in Current(net.nifs, t)[i].box && m.id == id ==> Paced(m, o, net.nifs[i].cap, start, t.now)
    ensures t.now <= Arrival(o, net.nifs[i].cap, start)
  {
    var was, r := net.nifs[i].box, net.nifs[i].cap;
    var b := Offered(was, t.offers[i], t.now);
    var c := Current(net.nifs, t)[i].box;
    var shift := |b| - |was|;
    var k0 :| 0 <= k0 < |was| && was[k0].id == id;
    assert c[k0 + shift].id == id;
    assert was[k0] in was;
    StaysPaced(was[k0], o, r, start, net.now, net.next, t.now);
    forall m | m in c && m.id == id ensures Paced(m, o, r, start, t.now) {
      var k :| 0 <= k < |c| && c[k] == m;
      assert b[k].id == id;
      assert k >= shift && b[k] == was[k - shift];
      assert b[k] in was;
      StaysPaced(b[k], o, r, start, net.now, net.next, t.now);
    }
  }

  /** Interface i queues the message in call a and in no other. */
  ghost predicate QueuedOnce(ts: seq<Tick>, i: nat, id: nat, a: nat)
  {
    forall k :: 0 <= k < |ts| ==> (Queues(ts[k], i, id) <==> k == a)
  }

  lemma {:induction false} AbsentBefore(bw: real, caps: seq<real>, t0: int, ts: seq<Tick>, i: nat, id: nat)
    requires i < |caps| && forall k :: 0 <= k < |ts| ==> |ts[k].offers| == |caps| && !Queues(ts[k], i, id)
    ensures !Present(After(bw, caps, t0, ts).nifs[i].box, id)
  {
    if |ts| > 0 {
      var n := |ts| - 1;
      AbsentBefore(bw, caps, t0, ts[..n], i, id);
      StaysAbsent(bw, After(bw, caps, t0, ts[..n]).nifs, ts[n], i, id);
    }
  }

  ghost predicate AlwaysFullShare(bw: real, caps: seq<real>, t0: int, ts: seq<Tick>, i: nat, id: nat)
    requires forall k :: 0 <= k < |ts| ==> |ts[k].offers| == |caps|
  {
    forall k :: 0 <= k < |ts| ==> FullShareAt(bw, caps, t0, ts, i, id, k)
  }

  ghost predicate FullShareAt(bw: real, caps: seq<real>, t0: int, ts: seq<Tick>, i: nat, id: nat, k: nat)
    requires k < |ts| && forall j :: 0 <= j < |ts| ==> |ts[j].offers| == |caps|
  {
    FullShare(bw, Served(bw, After(bw, caps, t0, ts[..k]).nifs, ts[k]), i, id)
  }

  /** Until it is due the message is on its way, on schedule; the first call not before that time comes
      exactly at it and delivers; from then on the message is gone. `before` is the last call's time. */
  ghost predicate Followed(net: Net, i: nat, id: nat, o: Offer, r: real, start: int, before: int, t: Tick)
    requires i < |net.nifs| && 0.0 < r
  {
    var due := Arrival(o, r, start);
    && (Present(net.nifs[i].box, id) <==> t.now < due)
    && (forall m :: m in net.nifs[i].box && m.id == id ==> OnSchedule(m, o, r, start, t.now))
    && (before < due <= t.now ==> t.now == due && Arrives(net.delivered, id, o, start, due + Ceil(t.latency)))
  }

  lemma FirstCall(net: Net, bw: real, t: Tick, i: nat, id: nat)
    requires Accounted(net, bw) && InTime(net, t) && i < |net.nifs| && 0.0 < net.nifs[i].cap && 0.0 < bw
    requires Queues(t, i, id) && !Present(net.nifs[i].box, id) && FullShare(bw, Served(bw, net.nifs, t), i, id)
    ensures Followed(Commit(bw, net.nifs, t), i, id, t.offers[i].value, net.nifs[i].cap, t.now, t.now - 1, t)
  {
    QueuedIsPaced(net.nifs, t, i, id);
    PacedIsHandled(bw, net.nifs, t, i, id, t.offers[i].value, t.now);
    HandledFollowed(Commit(bw, net.nifs, t), i, id, t.offers[i].value, net.nifs[i].cap, t.now, t.now - 1, t);
  }

  lemma NextCall(net: Net, bw: real, t: Tick, i: nat, id: nat, o: Offer, start: int)
    requires Accounted(net, bw) && InTime(net, t) && i < |net.nifs| && 0.0 < net.nifs[i].cap && 0.0 < bw
    requires !Queues(t, i, id) && FullShare(bw, Served(bw, net.nifs, t), i, id)
    requires Present(net.nifs[i].box, id) <==> net.now < Arrival(o, net.nifs[i].cap, start)
    requires forall m :: m in net.nifs[i].box && m.id == id ==> OnSchedule(m, o, net.nifs[i].cap, start, net.now)
    ensures Followed(Commit(bw, net.nifs, t), i, id, o, net.nifs[i].cap, start, net.now, t)
  {
    if Present(net.nifs[i].box, id) {
      ScheduledIsPaced(net, bw, t, i, id, o, start);
      PacedIsHandled(bw, net.nifs, t, i, id, o, start);
      HandledFollowed(Commit(bw, net.nifs, t), i, id, o, net.nifs[i].cap, start, net.now, t);
    } else {
      StaysAbsent(bw, net.nifs, t, i, id);
      GoneFollowed(Commit(bw, net.nifs, t), i, id, o, net.nifs[i].cap, start, net.now, t);
    }
  }

  lemma HandledFollowed(net: Net, i: nat, id: nat, o: Offer, r: real, start: int, before: int, t: Tick)
    requires i < |net.nifs| && 0.0 < r && Handled(net, i, id, o, r, start, t.latency) && net.now == t.now
    ensures Followed(net, i, id, o, r, start, before, t)
  {
  }

  lemma GoneFollowed(net: Net, i: nat, id: nat, o: Offer, r: real, start: int, before: int, t: Tick)
    requires i < |net.nifs| && 0.0 < r && !Present(net.nifs[i].box, id) && Arrival(o, r, start) <= before <= t.now
    ensures Followed(net, i, id, o, r, start, before, t)
  {
    AbsentHasNone(net.nifs[i].box, id);
  }

  /** A message of size S queued at time T on an interface of rate r which always has r left for it:
      until T + ceil(S / r) it is still on its way, r bytes further every second; the first call that
      is not before that time comes exactly at it, and delivers the message, complete, with its end
      time the latency, rounded up, later; and then it is gone. However often commit is called. */
  lemma {:induction false} ExactDelivery(bw: real, caps: seq<real>, t0: int, ts: seq<Tick>, a: nat, i: nat, id: nat)
    requires Timely(bw, caps, t0, ts) && a < |ts| && i < |caps| && QueuedOnce(ts, i, id, a)
    requires AlwaysFullShare(bw, caps, t0, ts, i, id)
    ensures FollowedUpTo(bw, caps, t0, ts, a, i, id)
  {
    var n := |ts| - 1;
    if n == a {
      ExactDeliveryStarts(bw, caps, t0, ts, i, id);
    } else {
      TimelyPrefix(bw, caps, t0, ts, n);
      AlwaysFullSharePrefix(bw, caps, t0, ts, i, id);
      ExactDelivery(bw, caps, t0, ts[..n], a, i, id);
      ExactDeliveryGoesOn(bw, caps, t0, ts, a, i, id);
    }
  }

  /** The time of the call before the last, or the time before T if the last is call a. */
  function Previous(ts: seq<Tick>, a: nat): int
    requires a < |ts|
  {
    if |ts| - 1 == a then ts[a].now - 1 else ts[|ts| - 2].now
  }

  ghost predicate FollowedUpTo(bw: real, caps: seq<real>, t0: int, ts: seq<Tick>, a: nat, i: nat, id: nat)
    requires a < |ts| && i < |caps| && 0.0 < caps[i]
    requires forall j :: 0 <= j < |ts| ==> |ts[j].offers| == |caps|
    requires ts[a].offers[i].Some?
  {
    Followed(After(bw, caps, t0, ts), i, id, ts[a].offers[i].value, caps[i], ts[a].now, Previous(ts, a), ts[|ts| - 1])
  }

  /** A call in time on an orderly network, in which the message gets interface i's whole rate r. */
  ghost predicate CanFollow(bw: real, net: Net, t: Tick, i: nat, id: nat, r: real)
  {
    && 0.0 < bw && Accounted(net, bw) && InTime(net, t)
    && i < |net.nifs| && net.nifs[i].cap == r && 0.0 < r
    && FullShare(bw, Served(bw, net.nifs, t), i, id)
  }

  /** The network just before the last call. */
  lemma LastCall(bw: real, caps: seq<real>, t0: int, ts: seq<Tick>, i: nat, id: nat) returns (before: Net)
    requires Timely(bw, caps, t0, ts) && 0 < |ts| && i < |caps| && AlwaysFullShare(bw, caps, t0, ts, i, id)
    ensures before == After(bw, caps, t0, ts[..|ts| - 1])
    ensures CanFollow(bw, before, ts[|ts| - 1], i, id, caps[i])
    ensures After(bw, caps, t0, ts) == Commit(bw, before.nifs, ts[|ts| - 1])
    ensures |ts| > 1 ==> before.now == ts[|ts| - 2].now
  {
    var n := |ts| - 1;
    before := After(bw, caps, t0, ts[..n]);
    TimelyPrefix(bw, caps, t0, ts, n);
    BytesConserved(bw, caps, t0, ts[..n]);
    assert InTimeAt(bw, caps, t0, ts, n) && FullShareAt(bw, caps, t0, ts, i, id, n);
  }

  lemma ExactDeliveryStarts(bw: real, caps: seq<real>, t0: int, ts: seq<Tick>, i: nat, id: nat)
    requires Timely(bw, caps, t0, ts) && 0 < |ts| && i < |caps| && QueuedOnce(ts, i, id, |ts| - 1)
    requires AlwaysFullShare(bw, caps, t0, ts, i, id)
    ensures FollowedUpTo(bw, caps, t0, ts, |ts| - 1, i, id)
  {
    var n := |ts| - 1;
    var before := LastCall(bw, caps, t0, ts, i, id);
    AbsentBefore(bw, caps, t0, ts[..n], i, id);
    FirstCall(before, bw, ts[n], i, id);
  }

  lemma ExactDeliveryGoesOn(bw: real, caps: seq<real>, t0: int, ts: seq<Tick>, a: nat, i: nat, id: nat)
    requires Timely(bw, caps, t0, ts) && a < |ts| - 1 && i < |caps| && QueuedOnce(ts, i, id, a)
    requires AlwaysFullShare(bw, caps, t0, ts, i, id)
    requires FollowedUpTo(bw, caps, t0, ts[..|ts| - 1], a, i, id)
    ensures FollowedUpTo(bw, caps, t0, ts, a, i, id)
  {
    var before := FollowedBefore(bw, caps, t0, ts, a, i, id);
    CallFollowed(bw, caps, t0, ts, i, id, ts[a].offers[i].value, ts[a].now, before);
    FollowedNow(bw, caps, t0, ts, a, i, id);
  }

  lemma CallFollowed(bw: real, caps: seq<real>, t0: int, ts: seq<Tick>, i: nat, id: nat, o: Offer, start: int,
                     before: int)
    requires Timely(bw, caps, t0, ts) && |ts| > 1 && i < |caps| && AlwaysFullShare(bw, caps, t0, ts, i, id)
    requires !Queues(ts[|ts| - 1], i, id)
    requires Followed(After(bw, caps, t0, ts[..|ts| - 1]), i, id, o, caps[i], start, before, ts[|ts| - 2])
    ensures Followed(After(bw, caps, t0, ts), i, id, o, caps[i], start, ts[|ts| - 2].now, ts[|ts| - 1])
  {
    var net := LastCall(bw, caps, t0, ts, i, id);
    FollowedOn(bw, net, ts[|ts| - 2], ts[|ts| - 1], i, id, o, caps[i], start, before);
  }

  lemma FollowedNow(bw: real, caps: seq<real>, t0: int, ts: seq<Tick>, a: nat, i: nat, id: nat)
    requires (forall j :: 0 <= j < |ts| ==> |ts[j].offers| == |caps|) && i < |caps| && 0.0 < caps[i]
    requires a < |ts| - 1 && ts[a].offers[i].Some?
    requires Followed(After(bw, caps, t0, ts), i, id, ts[a].offers[i].value, caps[i], ts[a].now, ts[|ts| - 2].now,
                      ts[|ts| - 1])
    ensures FollowedUpTo(bw, caps, t0, ts, a, i, id)
  {
  }

  lemma FollowedBefore(bw: real, caps: seq<real>, t0: int, ts: seq<Tick>, a: nat, i: nat, id: nat) returns (before: int)
    requires (forall j :: 0 <= j < |ts| ==> |ts[j].offers| == |caps|) && i < |caps| && 0.0 < caps[i]
    requires a < |ts| - 1 && ts[a].offers[i].Some? && FollowedUpTo(bw, caps, t0, ts[..|ts| - 1], a, i, id)
    ensures Followed(After(bw, caps, t0, ts[..|ts| - 1]), i, id, ts[a].offers[i].value, caps[i], ts[a].now, before,
                     ts[|ts| - 2])
  {
    var n := |ts| - 1;
    before := if n - 1 == a then ts[a].now - 1 else ts[n - 2].now;
    assert ts[..n][a] == ts[a] && ts[..n][n - 1] == ts[n - 1];
  }

  lemma FollowedOn(bw: real, net: Net, last: Tick, t: Tick, i: nat, id: nat, o: Offer, r: real, start: int, before: int)
    requires CanFollow(bw, net, t, i, id, r) && !Queues(t, i, id) && net.now == last.now
    requires Followed(net, i, id, o, r, start, before, last)
    ensures Followed(Commit(bw, net.nifs, t), i, id, o, r, start, last.now, t)
  {
    NextCall(net, bw, t, i, id, o, start);
  }

  lemma AbsentHasNone(b: seq<Msg>, id: nat)
    requires !Present(b, id)
    ensures forall m :: m in b ==> m.id != id
  {
  }

  lemma AlwaysFullSharePrefix(bw: real, caps: seq<real>, t0: int, ts: seq<Tick>, i: nat, id: nat)
    requires |ts| > 0 && forall k :: 0 <= k < |ts| ==> |ts[k].offers| == |caps|
    requires AlwaysFullShare(bw, caps, t0, ts, i, id)
    ensures AlwaysFullShare(bw, caps, t0, ts[..|ts| - 1], i, id)
  {
    var p := ts[..|ts| - 1];
    forall k | 0 <= k < |p| ensures FullShareAt(bw, caps, t0, p, i, id, k) {
      assert FullShareAt(bw, caps, t0, ts, i, id, k);
      assert p[..k] == ts[..k];
    }
  }
}
