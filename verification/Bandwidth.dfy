/** What the sharing gives away: no bandwidth lies idle while a message could use it, and what is short is short
    for the messages served last. Said of rates, sizes and the bandwidth in use alone. */
module Bandwidth {
  import opened Options
  import opened Network
  import opened NetworkRuns
  import opened Links
  import opened OrderlyLinks
  import opened LinkedRuns
  import opened LinkedNetwork

  /** The rate of a message is that of its interface, or all it has left to send. */
  ghost predicate Satisfied(m: Msg, cap: real)
  {
    m.rate == cap || m.rate == m.size - m.sent
  }

  /** Nothing is left for the messages after the k-th of the i-th interface. */
  ghost predicate NothingAfter(v: seq<Sender>, i: nat, k: nat)
    requires i < |v|
  {
    && (forall l :: k < l < |v[i].box| ==> v[i].box[l].rate == 0.0)
    && (forall j, m :: i < j < |v| && m in v[j].box ==> m.rate == 0.0)
  }

  /** A message has as much as it can use, or the bandwidth is used up and those after it get nothing. */
  ghost predicate NotIdle(v: seq<Sender>, used: real, bw: real)
  {
    forall i, k :: 0 <= i < |v| && 0 <= k < |v[i].box| ==>
      || Satisfied(v[i].box[k], v[i].cap)
      || (used == bw && NothingAfter(v, i, k))
  }

  // ---------------------------------------------------------------------------
  // Sums of rates that are not negative
  // ---------------------------------------------------------------------------

  /** What the messages up to and including the k-th of the i-th interface use. */
  ghost function UpTo(v: seq<Sender>, i: nat, k: nat): real
    requires i < |v| && k < |v[i].box|
  {
    LoadAll(v[..i]) + Load(v[i].box[..k + 1])
  }

  ghost predicate RatesAtLeastZero(v: seq<Sender>)
  {
    forall i, m :: 0 <= i < |v| && m in v[i].box ==> 0.0 <= m.rate
  }

  lemma {:induction false} LoadFrom(b: seq<Msg>, k: nat)
    requires k <= |b| && forall m :: m in b ==> 0.0 <= m.rate
    ensures Load(b[..k]) <= Load(b)
    ensures forall l :: k <= l < |b| ==> Load(b[..k]) + b[l].rate <= Load(b)
  {
    if k < |b| {
      var n := |b| - 1;
      LoadFrom(b[..n], k);
      assert b[..n][..k] == b[..k];
      assert b[n] in b;
    } else {
      assert b[..k] == b;
    }
  }

  lemma {:induction false} LoadAllFrom(v: seq<Sender>, i: nat)
    requires i <= |v| && RatesAtLeastZero(v)
    ensures LoadAll(v[..i]) <= LoadAll(v)
    ensures forall j, m :: i <= j < |v| && m in v[j].box ==> LoadAll(v[..i]) + m.rate <= LoadAll(v)
  {
    if i < |v| {
      var n := |v| - 1;
      LoadAllFrom(v[..n], i);
      assert v[..n][..i] == v[..i];
      LoadFrom(v[n].box, 0);
      forall m | m in v[n].box ensures m.rate <= Load(v[n].box) {
        var l :| 0 <= l < |v[n].box| && v[n].box[l] == m;
      }
    } else {
      assert v[..i] == v;
    }
  }

  /** Once the messages so far use the whole bandwidth, it is all in use and the others use nothing. */
  lemma UsedUp(v: seq<Sender>, bw: real, i: nat, k: nat)
    requires i < |v| && k < |v[i].box| && RatesAtLeastZero(v) && LoadAll(v) <= bw == UpTo(v, i, k)
    ensures LoadAll(v) == bw && NothingAfter(v, i, k)
  {
    LoadFrom(v[i].box, k + 1);
    LoadAllSnoc(v, i);
    LoadAllFrom(v, i + 1);
    forall l | k < l < |v[i].box| ensures v[i].box[l].rate == 0.0 {
      assert v[i].box[l] in v[i].box;
    }
    forall j, m | i < j < |v| && m in v[j].box ensures m.rate == 0.0 {}
  }

  // ---------------------------------------------------------------------------
  // One call
  // ---------------------------------------------------------------------------

  ghost predicate ServedFully(v: seq<Sender>, bw: real)
  {
    forall i, k :: 0 <= i < |v| && 0 <= k < |v[i].box| ==> Satisfied(v[i].box[k], v[i].cap) || UpTo(v, i, k) == bw
  }

  lemma ServeTakes(bw: real, used: real, cap: real, m: Msg)
    requires 0.0 < bw
    ensures Satisfied(Serve(bw, used, cap, m), cap) || used + Serve(bw, used, cap, m).rate == bw
  {
  }

  lemma SharesAll(bw: real, c: seq<Sender>)
    requires 0.0 < bw
    ensures ServedFully(ServeAll(bw, c), bw)
  {
    var r := ServeAll(bw, c);
    forall i, k | 0 <= i < |r| && 0 <= k < |r[i].box|
      ensures Satisfied(r[i].box[k], r[i].cap) || UpTo(r, i, k) == bw
    {
      ServeAllAt(bw, c, i);
      ServeAllMsg(bw, c, i, k);
      LoadSnoc(r[i].box, k);
      ServeTakes(bw, LoadAll(r[..i]) + Load(r[i].box[..k]), r[i].cap, c[i].box[k]);
    }
  }

  /** Where a message that is kept stood before the finished ones were taken off. */
  lemma {:induction false} KeptFrom(b: seq<Msg>, k: nat) returns (l: nat)
    requires k < |Kept(b)|
    ensures l < |b| && Kept(b)[k] == b[l] && Kept(b[..l + 1]) == Kept(b)[..k + 1]
  {
    var n := |b| - 1;
    var p := Kept(b[..n]);
    if k < |p| {
      l := KeptFrom(b[..n], k);
      assert b[..n][..l + 1] == b[..l + 1];
      assert Kept(b)[..k + 1] == p[..k + 1];
    } else {
      l := n;
      assert b[..n + 1] == b && Kept(b)[..k + 1] == Kept(b);
    }
  }

  lemma KeptUpTo(r: seq<Sender>, now: int, i: nat, k: nat) returns (l: nat)
    requires AllRated(r, now) && i < |r| && k < |Kept(r[i].box)|
    ensures l < |r[i].box| && r[i].box[l] == Kept(r[i].box)[k]
    ensures UpTo(KeptAll(r), i, k) == UpTo(r, i, l)
  {
    l := KeptFrom(r[i].box, k);
    KeptLoad(r[i].box[..l + 1], r[i].cap, now);
    KeptAllLoad(r[..i], now);
    assert KeptAll(r)[..i] == KeptAll(r[..i]);
  }

  /** No call of the network leaves bandwidth idle. */
  lemma CommitLeavesNoneIdle(net: Net, bw: real, t: Tick)
    requires 0.0 < bw && Accounted(net, bw) && InTime(net, t)
    requires forall i :: 0 <= i < |net.nifs| ==> 0.0 < net.nifs[i].cap
    ensures var after := Commit(bw, net.nifs, t); NotIdle(after.nifs, after.used, bw)
  {
    var r, after := Served(bw, net.nifs, t), Commit(bw, net.nifs, t);
    ServedRated(net, bw, t);
    SharesAll(bw, Current(net.nifs, t));
    CommitAccounts(net, bw, t);
    forall i, k | 0 <= i < |after.nifs| && 0 <= k < |after.nifs[i].box|
      ensures || Satisfied(after.nifs[i].box[k], after.nifs[i].cap)
              || (after.used == bw && NothingAfter(after.nifs, i, k))
    {
      var l := KeptUpTo(r, t.now, i, k);
      if UpTo(r, i, l) == bw { UsedUp(after.nifs, bw, i, k); }
    }
  }

  // ---------------------------------------------------------------------------
  // Whole runs
  // ---------------------------------------------------------------------------

  lemma NoneIdle(bw: real, caps: seq<real>, t0: int, ts: seq<Tick>)
    requires Timely(bw, caps, t0, ts)
    ensures NotIdle(After(bw, caps, t0, ts).nifs, After(bw, caps, t0, ts).used, bw)
  {
    if ts != [] {
      var n := |ts| - 1;
      TimelyPrefix(bw, caps, t0, ts, n);
      BytesConserved(bw, caps, t0, ts[..n]);
      assert InTimeAt(bw, caps, t0, ts, n);
      CommitLeavesNoneIdle(After(bw, caps, t0, ts[..n]), bw, ts[n]);
    }
  }

  /** On the links: along timely runs in which finished messages are always in front, every message of a linked
      outbox has its interface's rate or all it has left to send, unless the bandwidth in use is all of the
      bandwidth; and then the messages served after it have none. */
  lemma LinkedNoneIdle<A>(bw: real, caps: seq<real>, t0: int, hs: seq<Step<A>>, n: nat) returns (s: LinkedNet<A>)
    requires Proper(caps, hs) && AlwaysInFront(bw, caps, t0, hs) && Needed(bw, caps, t0, hs) <= n
    requires Timely(bw, caps, t0, Calls(hs))
    ensures LinkedAfter(bw, caps, hs, n) == Some(s)
    ensures NotIdle(SendersOf(s, caps, n), s.used, bw)
  {
    s := LinkedSpells(bw, caps, t0, hs, n);
    BytesConserved(bw, caps, t0, Calls(hs));
    SendersSpelled(s, n, bw, caps, t0, hs);
    NoneIdle(bw, caps, t0, Calls(hs));
  }
}
