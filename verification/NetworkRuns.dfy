/** Whole runs of a rejecting network on sequences of messages: bytes are conserved, the bandwidth is never
    exceeded, and no message is ever rejected. When they are the runs on links is in LinkedRuns. */
module NetworkRuns {
  import opened Options
  import opened Sync
  import opened Network
  import opened Pacing

  // ---------------------------------------------------------------------------
  // What holds of a message between and during calls
  // ---------------------------------------------------------------------------

  /** Between calls: what was sent was received, some is left, and at its rate the message will not
      be overtaken before the network is called again. */
  ghost predicate Travelling(m: Msg, cap: real, now: int, next: int)
  {
    && 0.0 <= m.sent == m.recv < m.size
    && m.last == now
    && 0.0 <= m.rate <= cap
    && m.rate <= m.size - m.sent
    && (m.rate > 0.0 ==> next <= now + ((m.size - m.recv) / m.rate).Floor)
  }

  /** Counters up to date, rate still to be given. */
  ghost predicate Ready(m: Msg, now: int)
  {
    0.0 <= m.sent == m.recv <= m.size && m.last == now
  }

  ghost predicate Rated(m: Msg, cap: real, now: int)
  {
    Ready(m, now) && 0.0 <= m.rate <= cap && m.rate <= m.size - m.sent
  }

  /** The accounts of the network between calls. */
  ghost predicate Accounted(net: Net, bw: real)
  {
    && net.used == LoadAll(net.nifs) && 0.0 <= net.used <= bw
    && (forall i, m :: 0 <= i < |net.nifs| && m in net.nifs[i].box ==>
          Travelling(m, net.nifs[i].cap, net.now, net.next))
  }

  ghost predicate AllRated(v: seq<Sender>, now: int)
  {
    forall i, m :: 0 <= i < |v| && m in v[i].box ==> Rated(m, v[i].cap, now)
  }

  lemma AccrueReady(m: Msg, cap: real, before: int, next: int, now: int)
    requires Travelling(m, cap, before, next) && before <= now <= next
    ensures Ready(Accrue(m, now), now)
  {
    if m.rate > 0.0 { BytesAtRate(m.rate, m.size - m.recv, now - before); }
    assert 0.0 <= m.rate * (now - before) as real;
  }

  lemma ServeRated(bw: real, used: real, cap: real, m: Msg, now: int)
    requires Ready(m, now) && 0.0 <= used <= bw && 0.0 < cap
    ensures Rated(Serve(bw, used, cap, m), cap, now)
    ensures used + Serve(bw, used, cap, m).rate <= bw
  {
  }

  /** Rejection and delay need a network without bandwidth, which `init` refuses: with any bandwidth a
      message that gets none is still marked as being sent, at rate zero. */
  lemma RejectsIffNoBandwidth(bw: real, used: real, cap: real, m: Msg)
    requires 0.0 <= used <= bw && 0.0 < cap
    ensures Serve(bw, used, cap, m).state in {NMS_REJECTED, NMS_DELAYED} <==> bw == 0.0
    ensures bw > 0.0 && used == bw && m.sent <= m.size ==>
              Serve(bw, used, cap, m) == m.(rate := 0.0, state := NMS_SENDING)
  {
  }

  /** Once the rate is capped by what is left, no message is predicted to need less than a second. */
  lemma WakeIsWhole(m: Msg, cap: real, now: int)
    requires Rated(m, cap, now) && 0.0 < m.rate
    ensures (m.size - m.recv) / m.rate >= 1.0
    ensures Wake(m, now) == Min(TS_NEVER, now + ((m.size - m.recv) / m.rate).Floor)
    ensures Wake(m, now) == TS_NEVER || now < Wake(m, now)
  {
    var q := (m.size - m.recv) / m.rate;
    assert q * m.rate == m.size - m.recv;
    assert q < 1.0 ==> q * m.rate < 1.0 * m.rate;
  }

  // ---------------------------------------------------------------------------
  // Outboxes
  // ---------------------------------------------------------------------------

  lemma {:induction false} ServeBoxRated(bw: real, used: real, cap: real, b: seq<Msg>, now: int)
    requires forall m :: m in b ==> Ready(m, now)
    requires 0.0 <= used <= bw && 0.0 < cap
    ensures forall m :: m in ServeBox(bw, used, cap, b) ==> Rated(m, cap, now)
    ensures 0.0 <= Load(ServeBox(bw, used, cap, b)) <= bw - used
  {
    if |b| > 0 {
      var n := |b| - 1;
      ServeBoxRated(bw, used, cap, b[..n], now);
      var p := ServeBox(bw, used, cap, b[..n]);
      var m := Serve(bw, used + Load(p), cap, b[n]);
      ServeRated(bw, used + Load(p), cap, b[n], now);
      assert (p + [m])[..n] == p;
    }
  }

  ghost predicate AllReady(v: seq<Sender>, now: int)
  {
    forall i, m :: 0 <= i < |v| && m in v[i].box ==> Ready(m, now)
  }

  /** The bandwidth is never overdrawn, whichever interface is being served. */
  lemma {:induction false} TallyBounded(bw: real, v: seq<Sender>, now: int, i: nat)
    requires AllReady(v, now) && 0.0 <= bw && i <= |v|
    requires forall j :: 0 <= j < |v| ==> 0.0 < v[j].cap
    ensures 0.0 <= LoadAll(ServeAll(bw, v)[..i]) <= bw
  {
    if i > 0 {
      TallyBounded(bw, v, now, i - 1);
      var r := ServeAll(bw, v);
      LoadAllSnoc(r, i - 1);
      ServeAllAt(bw, v, i - 1);
      ServeBoxRated(bw, LoadAll(r[..i - 1]), v[i - 1].cap, v[i - 1].box, now);
    }
  }

  lemma ServeAllRated(bw: real, v: seq<Sender>, now: int)
    requires AllReady(v, now) && 0.0 <= bw
    requires forall j :: 0 <= j < |v| ==> 0.0 < v[j].cap
    ensures AllRated(ServeAll(bw, v), now) && 0.0 <= LoadAll(ServeAll(bw, v)) <= bw
    ensures forall i :: 0 <= i < |v| ==> ServeAll(bw, v)[i].cap == v[i].cap
  {
    var r := ServeAll(bw, v);
    forall i | 0 <= i < |v| ensures r[i].cap == v[i].cap && forall m :: m in r[i].box ==> Rated(m, v[i].cap, now) {
      TallyBounded(bw, v, now, i);
      ServeAllAt(bw, v, i);
      ServeBoxRated(bw, LoadAll(r[..i]), v[i].cap, v[i].box, now);
    }
    TallyBounded(bw, v, now, |v|);
    assert r[..|v|] == r;
  }

  lemma {:induction false} KeptMembers(b: seq<Msg>)
    ensures forall m :: m in Kept(b) <==> m in b && !Done(m)
  {
    if |b| > 0 {
      var n := |b| - 1;
      KeptMembers(b[..n]);
      assert b == b[..n] + [b[n]];
    }
  }

  lemma {:induction false} DeliveredMembers(b: seq<Msg>, now: int, latency: real)
    ensures forall m :: m in b && Done(m) ==> Deliver(m, now, latency) in Delivered(b, now, latency)
    ensures forall d :: d in Delivered(b, now, latency) ==>
              exists m :: m in b && Done(m) && d == Deliver(m, now, latency)
  {
    if |b| > 0 {
      var n := |b| - 1;
      DeliveredMembers(b[..n], now, latency);
      assert b == b[..n] + [b[n]];
    }
  }

  lemma {:induction false} CallBoxFirst(b: seq<Msg>, now: int, latency: real)
    ensures forall m :: m in b ==> CallBox(b, now, latency) <= Call(m, now, latency)
    ensures CallBox(b, now, latency) == TS_NEVER ||
            exists m :: m in b && CallBox(b, now, latency) == Call(m, now, latency)
  {
    if |b| > 0 {
      var n := |b| - 1;
      CallBoxFirst(b[..n], now, latency);
      assert b == b[..n] + [b[n]];
    }
  }

  /** Finished messages use no bandwidth, so taking them off changes no sum. */
  lemma {:induction false} KeptLoad(b: seq<Msg>, cap: real, now: int)
    requires forall m :: m in b ==> Rated(m, cap, now)
    ensures Load(Kept(b)) == Load(b)
  {
    if |b| > 0 {
      var n := |b| - 1;
      KeptLoad(b[..n], cap, now);
      var k := Kept(b[..n]);
      assert b[n] in b;
      if Done(b[n]) { assert b[n].rate == 0.0; } else { assert (k + [b[n]])[..|k|] == k; }
    }
  }

  lemma {:induction false} KeptAllLoad(v: seq<Sender>, now: int)
    requires AllRated(v, now)
    ensures LoadAll(KeptAll(v)) == LoadAll(v)
  {
    if |v| > 0 {
      var n := |v| - 1;
      KeptAllLoad(v[..n], now);
      KeptLoad(v[n].box, v[n].cap, now);
      assert KeptAll(v)[..n] == KeptAll(v[..n]);
    }
  }

  lemma {:induction false} DeliveredAllMembers(v: seq<Sender>, now: int, latency: real)
    ensures forall i, m :: 0 <= i < |v| && m in v[i].box && Done(m) ==>
              Deliver(m, now, latency) in DeliveredAll(v, now, latency)
    ensures forall d :: d in DeliveredAll(v, now, latency) ==> From(v, d, now, latency)
  {
    if |v| > 0 {
      var n := |v| - 1;
      DeliveredAllMembers(v[..n], now, latency);
      DeliveredMembers(v[n].box, now, latency);
      forall d | d in DeliveredAll(v, now, latency) ensures From(v, d, now, latency) {
        if d in DeliveredAll(v[..n], now, latency) {
          var i, m :| 0 <= i < n && m in v[..n][i].box && Done(m) && d == Deliver(m, now, latency);
          assert m in v[i].box;
        } else {
          var m :| m in v[n].box && Done(m) && d == Deliver(m, now, latency);
        }
      }
    }
  }

  ghost predicate From(v: seq<Sender>, d: Msg, now: int, latency: real)
  {
    exists i, m :: 0 <= i < |v| && m in v[i].box && Done(m) && d == Deliver(m, now, latency)
  }

  lemma {:induction false} CallAllFirst(v: seq<Sender>, now: int, latency: real)
    ensures forall i, m :: 0 <= i < |v| && m in v[i].box ==> CallAll(v, now, latency) <= Call(m, now, latency)
    ensures CallAll(v, now, latency) == TS_NEVER ||
            exists i, m :: 0 <= i < |v| && m in v[i].box && CallAll(v, now, latency) == Call(m, now, latency)
  {
    if |v| > 0 {
      var n := |v| - 1;
      CallAllFirst(v[..n], now, latency);
      CallBoxFirst(v[n].box, now, latency);
      var c := CallAll(v[..n], now, latency);
      if c != TS_NEVER {
        var i, m :| 0 <= i < n && m in v[..n][i].box && c == Call(m, now, latency);
        assert m in v[i].box;
      }
    }
  }

  // ---------------------------------------------------------------------------
  // Runs
  // ---------------------------------------------------------------------------

  function Start(caps: seq<real>, t0: int): Net
  {
    Net(seq(|caps|, i requires 0 <= i < |caps| => Sender(caps[i], [])), 0.0, [], t0, TS_NEVER)
  }

  /** The network after a list of calls. */
  function After(bw: real, caps: seq<real>, t0: int, ts: seq<Tick>): (net: Net)
    requires forall k :: 0 <= k < |ts| ==> |ts[k].offers| == |caps|
    ensures |net.nifs| == |caps|
  {
    if |ts| == 0 then Start(caps, t0)
    else Commit(bw, After(bw, caps, t0, ts[..|ts| - 1]).nifs, ts[|ts| - 1])
  }

  /** A call: not before the last, not after the time the last one asked for, sizes not negative. */
  ghost predicate InTime(net: Net, t: Tick)
  {
    && |t.offers| == |net.nifs|
    && net.now <= t.now <= net.next
    && (forall i :: 0 <= i < |t.offers| && t.offers[i].Some? ==> 0.0 <= t.offers[i].value.size)
  }

  ghost predicate Timely(bw: real, caps: seq<real>, t0: int, ts: seq<Tick>)
  {
    && 0.0 < bw && (forall i :: 0 <= i < |caps| ==> 0.0 < caps[i])
    && (forall k :: 0 <= k < |ts| ==> |ts[k].offers| == |caps|)
    && (forall k :: 0 <= k < |ts| ==> InTimeAt(bw, caps, t0, ts, k))
  }

  ghost predicate InTimeAt(bw: real, caps: seq<real>, t0: int, ts: seq<Tick>, k: nat)
    requires k < |ts| && forall j :: 0 <= j < |ts| ==> |ts[j].offers| == |caps|
  {
    InTime(After(bw, caps, t0, ts[..k]), ts[k])
  }

  lemma CurrentReady(net: Net, bw: real, t: Tick)
    requires Accounted(net, bw) && InTime(net, t)
    ensures AllReady(Current(net.nifs, t), t.now)
  {
    forall i, m | 0 <= i < |net.nifs| && m in Current(net.nifs, t)[i].box ensures Ready(m, t.now) {
      var b := Offered(net.nifs[i].box, t.offers[i], t.now);
      var k :| 0 <= k < |b| && m == Accrue(b[k], t.now);
      if b[k] in net.nifs[i].box {
        AccrueReady(b[k], net.nifs[i].cap, net.now, net.next, t.now);
      }
    }
  }

  lemma ServedRated(net: Net, bw: real, t: Tick)
    requires Accounted(net, bw) && InTime(net, t)
    requires forall i :: 0 <= i < |net.nifs| ==> 0.0 < net.nifs[i].cap
    ensures var r := Served(bw, net.nifs, t);
            && AllRated(r, t.now)
            && (forall i :: 0 <= i < |r| ==> r[i].cap == net.nifs[i].cap)
            && 0.0 <= LoadAll(r) <= bw
  {
    CurrentReady(net, bw, t);
    ServeAllRated(bw, Current(net.nifs, t), t.now);
  }

  lemma KeptTravels(r: seq<Sender>, t: Tick, i: nat, m: Msg)
    requires i < |r| && m in Kept(r[i].box) && AllRated(r, t.now)
    ensures Travelling(m, r[i].cap, t.now, CallAll(r, t.now, t.latency))
  {
    KeptMembers(r[i].box);
    assert m in r[i].box && !Done(m);
    CallAllFirst(r, t.now, t.latency);
    assert CallAll(r, t.now, t.latency) <= Call(m, t.now, t.latency) == Wake(m, t.now);
    if m.rate > 0.0 { WakeIsWhole(m, r[i].cap, t.now); }
  }

  /** One timely call keeps the accounts. */
  lemma CommitAccounts(net: Net, bw: real, t: Tick)
    requires Accounted(net, bw) && InTime(net, t)
    requires forall i :: 0 <= i < |net.nifs| ==> 0.0 < net.nifs[i].cap
    ensures Accounted(Commit(bw, net.nifs, t), bw)
    ensures forall d :: d in Commit(bw, net.nifs, t).delivered ==> d.sent == d.recv == d.size
    ensures forall i :: 0 <= i < |net.nifs| ==> Commit(bw, net.nifs, t).nifs[i].cap == net.nifs[i].cap
  {
    var r := Served(bw, net.nifs, t);
    ServedRated(net, bw, t);
    KeptAllLoad(r, t.now);
    var after := Commit(bw, net.nifs, t);
    forall i, m | 0 <= i < |r| && m in Kept(r[i].box) ensures Travelling(m, r[i].cap, t.now, after.next) {
      KeptTravels(r, t, i, m);
    }
    DeliveredAllMembers(r, t.now, t.latency);
  }

  /** Conservation over whole runs: as long as it is never called late, the network keeps its
      accounts, and everything it delivers was received in full and not a byte more. */
  lemma {:induction false} BytesConserved(bw: real, caps: seq<real>, t0: int, ts: seq<Tick>)
    requires Timely(bw, caps, t0, ts)
    ensures Accounted(After(bw, caps, t0, ts), bw)
    ensures forall d :: d in After(bw, caps, t0, ts).delivered ==> d.sent == d.recv == d.size
    ensures forall i :: 0 <= i < |caps| ==> After(bw, caps, t0, ts).nifs[i].cap == caps[i]
  {
    if |ts| == 0 {
      StartLoad(caps, t0);
    } else {
      var n := |ts| - 1;
      TimelyPrefix(bw, caps, t0, ts, n);
      BytesConserved(bw, caps, t0, ts[..n]);
      assert InTimeAt(bw, caps, t0, ts, n);
      CommitAccounts(After(bw, caps, t0, ts[..n]), bw, ts[n]);
    }
  }

  lemma TimelyPrefix(bw: real, caps: seq<real>, t0: int, ts: seq<Tick>, n: nat)
    requires Timely(bw, caps, t0, ts) && n <= |ts|
    ensures Timely(bw, caps, t0, ts[..n])
  {
    forall k | 0 <= k < n ensures InTimeAt(bw, caps, t0, ts[..n], k) {
      assert InTimeAt(bw, caps, t0, ts, k);
      assert ts[..n][..k] == ts[..k];
    }
  }

  lemma {:induction false} StartLoad(caps: seq<real>, t0: int)
    ensures LoadAll(Start(caps, t0).nifs) == 0.0
  {
    if |caps| > 0 {
      StartLoad(caps[..|caps| - 1], t0);
      assert Start(caps, t0).nifs[..|caps| - 1] == Start(caps[..|caps| - 1], t0).nifs;
    }
  }

  // ---------------------------------------------------------------------------
  // When commit fails the model
  // ---------------------------------------------------------------------------

  /** Commit asks for a time that is not in the future exactly when it delivers something and the
      latency, rounded up, is not positive. */
  lemma AnswersLateIff(bw: real, nifs: seq<Sender>, t: Tick)
    requires |t.offers| == |nifs| && t.now < TS_NEVER
    ensures Commit(bw, nifs, t).next <= t.now <==> Commit(bw, nifs, t).delivered != [] && Ceil(t.latency) <= 0
  {
    var r := Served(bw, nifs, t);
    DeliveredAllMembers(r, t.now, t.latency);
    CallAllFirst(r, t.now, t.latency);
    var ds := DeliveredAll(r, t.now, t.latency);
    if ds != [] {
      assert ds[0] in ds;
      var i, m :| 0 <= i < |r| && m in r[i].box && Done(m) && ds[0] == Deliver(m, t.now, t.latency);
      assert CallAll(r, t.now, t.latency) <= Call(m, t.now, t.latency);
    }
    if CallAll(r, t.now, t.latency) <= t.now {
      var i, m :| 0 <= i < |r| && m in r[i].box && CallAll(r, t.now, t.latency) == Call(m, t.now, t.latency);
      assert Done(m);
      assert Deliver(m, t.now, t.latency) in ds;
    }
  }

  lemma ServedMsg(bw: real, nifs: seq<Sender>, t: Tick, i: nat, k: nat)
    requires |t.offers| == |nifs| && i < |nifs| && k < |Current(nifs, t)[i].box|
    ensures var r, c := Served(bw, nifs, t), Current(nifs, t);
            && r[i].cap == nifs[i].cap && |r[i].box| == |c[i].box|
            && r[i].box[k] == Serve(bw, LoadAll(r[..i]) + Load(r[i].box[..k]), nifs[i].cap, c[i].box[k])
  {
    var c := Current(nifs, t);
    ServeAllMsg(bw, c, i, k);
  }

  lemma ServeAllMsg(bw: real, c: seq<Sender>, i: nat, k: nat)
    requires i < |c| && k < |c[i].box|
    ensures var r := ServeAll(bw, c);
            && r[i].cap == c[i].cap && |r[i].box| == |c[i].box|
            && r[i].box[k] == Serve(bw, LoadAll(r[..i]) + Load(r[i].box[..k]), c[i].cap, c[i].box[k])
  {
    ServeAllAt(bw, c, i);
    ServeBoxAt(bw, LoadAll(ServeAll(bw, c)[..i]), c[i].cap, c[i].box, k);
  }

  lemma ServedSize(bw: real, nifs: seq<Sender>, t: Tick, i: nat)
    requires |t.offers| == |nifs| && i < |nifs|
    ensures Served(bw, nifs, t)[i].cap == nifs[i].cap
    ensures |Served(bw, nifs, t)[i].box| == |Current(nifs, t)[i].box|
  {
    ServeAllAt(bw, Current(nifs, t), i);
  }

  // ---------------------------------------------------------------------------
  // Rejection
  // ---------------------------------------------------------------------------

  lemma Sends(bw: real, used: real, cap: real, m: Msg)
    requires bw != 0.0
    ensures Serve(bw, used, cap, m).state == NMS_SENDING
  {
  }

  lemma NothingRejectedAt(bw: real, nifs: seq<Sender>, t: Tick, i: nat, m: Msg)
    requires |t.offers| == |nifs| && i < |nifs| && bw != 0.0 && m in Kept(Served(bw, nifs, t)[i].box)
    ensures m.state == NMS_SENDING
  {
    var r, c := Served(bw, nifs, t), Current(nifs, t);
    KeptMembers(r[i].box);
    var k :| 0 <= k < |r[i].box| && r[i].box[k] == m;
    ServedSize(bw, nifs, t, i);
    ServedMsg(bw, nifs, t, i, k);
    Sends(bw, LoadAll(r[..i]) + Load(r[i].box[..k]), nifs[i].cap, c[i].box[k]);
  }

  /** With any bandwidth at all, every message a run leaves in an outbox is marked as being sent, and every
      message it delivers as delivered: none is ever rejected or delayed, however full the network is. */
  lemma NothingRejected(bw: real, caps: seq<real>, t0: int, ts: seq<Tick>)
    requires bw != 0.0 && ts != [] && forall k :: 0 <= k < |ts| ==> |ts[k].offers| == |caps|
    ensures var net := After(bw, caps, t0, ts);
            && (forall i, m :: 0 <= i < |caps| && m in net.nifs[i].box ==> m.state == NMS_SENDING)
            && (forall d :: d in net.delivered ==> d.state == NMS_DELIVERED)
  {
    var n := |ts| - 1;
    var before := After(bw, caps, t0, ts[..n]).nifs;
    forall i, m | 0 <= i < |caps| && m in After(bw, caps, t0, ts).nifs[i].box ensures m.state == NMS_SENDING {
      NothingRejectedAt(bw, before, ts[n], i, m);
    }
    DeliveredAllMembers(Served(bw, before, ts[n]), ts[n].now, ts[n].latency);
  }
}
