/** The order in which two messages of one interface are read, along a run on linked cells. */
module SentOrder {
  import opened Options
  import opened Sync
  import opened Network
  import opened NetworkRuns
  import opened OrderlyLinks
  import opened LinkedCommit
  import opened LinkedRuns
  import opened LinkedNetwork
  import opened Delivery
  import opened MessageOrder

  /** Step a is the only one that queues the message, at interface i. */
  ghost predicate QueuedBy<A>(hs: seq<Step<A>>, id: nat, i: nat, a: nat)
  {
    forall k :: 0 <= k < |hs| ==> QueuedAt(hs[k], k, id, i, a)
  }

  ghost predicate QueuedAt<A>(e: Step<A>, k: nat, id: nat, i: nat, a: nat)
  {
    e.Called? ==> forall q :: 0 <= q < |e.t.offers| ==> (Queues(e.t, q, id) <==> k == a && q == i)
  }

  lemma QueuedBefore<A>(hs: seq<Step<A>>, k: nat, id: nat, i: nat, a: nat)
    requires QueuedBy(hs, id, i, a) && k <= |hs|
    ensures QueuedBy(hs[..k], id, i, a)
  {
  }

  /** Wherever both messages are, the first is no farther from the head. Of one and the same message: it is
      there once at most. */
  ghost predicate Ahead(b: seq<Msg>, first: nat, second: nat)
  {
    forall l, k :: 0 <= l < |b| && 0 <= k < |b| && b[l].id == first && b[k].id == second ==> l <= k
  }

  // ---------------------------------------------------------------------------
  // One call
  // ---------------------------------------------------------------------------

  ghost predicate SameIds(b: seq<Msg>, c: seq<Msg>)
  {
    |b| == |c| && forall k :: 0 <= k < |b| ==> b[k].id == c[k].id
  }

  lemma ServedIds(bw: real, nifs: seq<Sender>, t: Tick, i: nat)
    requires |t.offers| == |nifs| && i < |nifs|
    ensures SameIds(Served(bw, nifs, t)[i].box, Offered(nifs[i].box, t.offers[i], t.now))
  {
    var c, r := Current(nifs, t), Served(bw, nifs, t);
    ServedSize(bw, nifs, t, i);
    forall k | 0 <= k < |r[i].box| ensures r[i].box[k].id == Offered(nifs[i].box, t.offers[i], t.now)[k].id {
      ServedMsg(bw, nifs, t, i, k);
    }
  }

  lemma SameHave(b: seq<Msg>, c: seq<Msg>, id: nat)
    requires SameIds(b, c)
    ensures Present(b, id) <==> Present(c, id)
  {
    if Present(b, id) {
      var k :| 0 <= k < |b| && b[k].id == id;
      assert c[k].id == id;
    }
  }

  lemma InFrontHas(m: Msg, b: seq<Msg>, id: nat)
    ensures Present([m] + b, id) <==> m.id == id || Present(b, id)
  {
    var c := [m] + b;
    assert c[0] == m && forall k :: 0 <= k < |b| ==> c[k + 1] == b[k];
    if Present(c, id) {
      var k :| 0 <= k < |c| && c[k].id == id;
      if k > 0 { assert b[k - 1].id == id; }
    }
  }

  lemma ServedHas(bw: real, nifs: seq<Sender>, t: Tick, i: nat, id: nat)
    requires |t.offers| == |nifs| && i < |nifs|
    ensures Present(Served(bw, nifs, t)[i].box, id) <==> Present(nifs[i].box, id) || Queues(t, i, id)
  {
    ServedIds(bw, nifs, t, i);
    SameHave(Served(bw, nifs, t)[i].box, Offered(nifs[i].box, t.offers[i], t.now), id);
    if t.offers[i].Some? { InFrontHas(Queued(t.offers[i].value, t.now), nifs[i].box, id); }
  }

  /** A message that is put in front is ahead of the others. */
  lemma ServedAhead(bw: real, nifs: seq<Sender>, t: Tick, i: nat, first: nat, second: nat)
    requires |t.offers| == |nifs| && i < |nifs| && Ahead(nifs[i].box, first, second)
    requires Queues(t, i, second) ==> !Present(nifs[i].box, first)
    ensures Ahead(Served(bw, nifs, t)[i].box, first, second)
  {
    ServedIds(bw, nifs, t, i);
    var b, c := nifs[i].box, Offered(nifs[i].box, t.offers[i], t.now);
    var r := Served(bw, nifs, t)[i].box;
    forall l, k | 0 <= l < |r| && 0 <= k < |r| && r[l].id == first && r[k].id == second ensures l <= k {
      assert c[l].id == first && c[k].id == second;
      if t.offers[i].Some? && l > 0 { assert c[l] == b[l - 1] && (k > 0 ==> c[k] == b[k - 1]); }
    }
  }

  lemma {:induction false} KeptAhead(b: seq<Msg>, first: nat, second: nat)
    requires Ahead(b, first, second)
    ensures Ahead(Kept(b), first, second)
  {
    if b != [] {
      var n := |b| - 1;
      KeptAhead(b[..n], first, second);
      KeptHas(b[..n], second);
    }
  }

  lemma KeptHas(b: seq<Msg>, id: nat)
    ensures Present(Kept(b), id) <==> exists k :: 0 <= k < |b| && b[k].id == id && !Done(b[k])
  {
    KeptMembers(b);
    if Present(Kept(b), id) {
      var q :| 0 <= q < |Kept(b)| && Kept(b)[q].id == id;
      assert Kept(b)[q] in Kept(b);
    }
    if k :| 0 <= k < |b| && b[k].id == id && !Done(b[k]) {
      assert b[k] in Kept(b);
    }
  }

  lemma {:induction false} DeliveredAhead(b: seq<Msg>, now: int, latency: real, first: nat, second: nat)
    requires Ahead(b, first, second)
    ensures Ahead(Delivered(b, now, latency), first, second)
  {
    if b != [] {
      var n := |b| - 1;
      DeliveredAhead(b[..n], now, latency, first, second);
      DeliveredHas(b[..n], now, latency, second);
    }
  }

  lemma DeliveredHas(b: seq<Msg>, now: int, latency: real, id: nat)
    ensures Present(Delivered(b, now, latency), id) <==> exists k :: 0 <= k < |b| && b[k].id == id && Done(b[k])
  {
    DeliveredMembers(b, now, latency);
    var ds := Delivered(b, now, latency);
    if Present(ds, id) {
      var q :| 0 <= q < |ds| && ds[q].id == id;
      assert ds[q] in ds;
    }
    if k :| 0 <= k < |b| && b[k].id == id && Done(b[k]) {
      assert Deliver(b[k], now, latency) in ds;
    }
  }

  /** If only interface i has the messages, what all deliver has them in the order that interface delivers them. */
  lemma {:induction false} DeliveredAllAhead(v: seq<Sender>, now: int, latency: real, i: nat, first: nat, second: nat)
    requires forall q :: 0 <= q < |v| && q != i ==> !Present(v[q].box, first) && !Present(v[q].box, second)
    requires i < |v| ==> Ahead(v[i].box, first, second)
    ensures Ahead(DeliveredAll(v, now, latency), first, second)
    ensures |v| <= i ==>
              !Present(DeliveredAll(v, now, latency), first) && !Present(DeliveredAll(v, now, latency), second)
  {
    if v != [] {
      var n := |v| - 1;
      DeliveredAllAhead(v[..n], now, latency, i, first, second);
      DeliveredHas(v[n].box, now, latency, first);
      DeliveredHas(v[n].box, now, latency, second);
      if n == i { DeliveredAhead(v[n].box, now, latency, first, second); }
      AheadApart(DeliveredAll(v[..n], now, latency), Delivered(v[n].box, now, latency), first, second);
    }
  }

  lemma AheadApart(a: seq<Msg>, b: seq<Msg>, first: nat, second: nat)
    requires Ahead(a, first, second) && Ahead(b, first, second)
    requires (!Present(a, first) && !Present(a, second)) || (!Present(b, first) && !Present(b, second))
    ensures Ahead(a + b, first, second)
    ensures forall id :: Present(a + b, id) ==> Present(a, id) || Present(b, id)
  {
    forall id | Present(a + b, id) ensures Present(a, id) || Present(b, id) {
      var k :| 0 <= k < |a + b| && (a + b)[k].id == id;
      if k >= |a| { assert b[k - |a|].id == id; } else { assert a[k].id == id; }
    }
  }

  // ---------------------------------------------------------------------------
  // Runs
  // ---------------------------------------------------------------------------

  ghost function BoxAfter<A>(bw: real, caps: seq<real>, t0: int, hs: seq<Step<A>>, i: nat): seq<Msg>
    requires Sized(caps, hs) && i < |caps|
  {
    NetAfter(bw, caps, t0, hs).nifs[i].box
  }

  /** What the outboxes are when the last step, a call, receives messages. */
  ghost function ServedLast<A>(bw: real, caps: seq<real>, t0: int, hs: seq<Step<A>>): (r: seq<Sender>)
    requires Sized(caps, hs) && hs != [] && hs[|hs| - 1].Called?
    ensures |r| == |caps|
  {
    Served(bw, NetAfter(bw, caps, t0, hs[..|hs| - 1]).nifs, hs[|hs| - 1].t)
  }

  /** A message is in the outbox of its interface only, and only once it was queued. */
  lemma {:induction false} PresentWhere<A>(bw: real, caps: seq<real>, t0: int, hs: seq<Step<A>>, id: nat, i: nat,
                                           a: nat, q: nat)
    requires Sized(caps, hs) && QueuedBy(hs, id, i, a) && q < |caps| && Present(BoxAfter(bw, caps, t0, hs, q), id)
    ensures q == i && a < |hs|
  {
    if hs == [] {
      assert false;
    } else {
      var n := |hs| - 1;
      QueuedBefore(hs, n, id, i, a);
      NetStep(bw, caps, t0, hs);
      if hs[n].Called? {
        assert QueuedAt(hs[n], n, id, i, a);
        ServedPresence(bw, caps, t0, hs, id, q);
      }
      if Present(BoxAfter(bw, caps, t0, hs[..n], q), id) { PresentWhere(bw, caps, t0, hs[..n], id, i, a, q); }
    }
  }

  lemma ServedPresence<A>(bw: real, caps: seq<real>, t0: int, hs: seq<Step<A>>, id: nat, q: nat)
    requires Sized(caps, hs) && hs != [] && hs[|hs| - 1].Called? && q < |caps|
    ensures Present(ServedLast(bw, caps, t0, hs)[q].box, id) <==>
              Present(BoxAfter(bw, caps, t0, hs[..|hs| - 1], q), id) || Queues(hs[|hs| - 1].t, q, id)
    ensures BoxAfter(bw, caps, t0, hs, q) == Kept(ServedLast(bw, caps, t0, hs)[q].box)
    ensures Present(BoxAfter(bw, caps, t0, hs, q), id) ==> Present(ServedLast(bw, caps, t0, hs)[q].box, id)
  {
    ServedHas(bw, NetAfter(bw, caps, t0, hs[..|hs| - 1]).nifs, hs[|hs| - 1].t, q, id);
    NetStep(bw, caps, t0, hs);
    KeptHas(ServedLast(bw, caps, t0, hs)[q].box, id);
  }

  /** After k steps the message is in the outbox. */
  ghost predicate There<A>(bw: real, caps: seq<real>, t0: int, hs: seq<Step<A>>, id: nat, i: nat, k: nat)
    requires Sized(caps, hs) && i < |caps| && k <= |hs|
  {
    Present(BoxAfter(bw, caps, t0, hs[..k], i), id)
  }

  lemma ThereBefore<A>(bw: real, caps: seq<real>, t0: int, hs: seq<Step<A>>, id: nat, i: nat, a: nat, k: nat)
    requires Sized(caps, hs) && QueuedBy(hs, id, i, a) && i < |caps| && a < k < |hs|
    requires There(bw, caps, t0, hs, id, i, k + 1)
    ensures There(bw, caps, t0, hs, id, i, k)
  {
    assert QueuedAt(hs[k], k, id, i, a);
    PresentBefore(bw, caps, t0, hs[..k + 1], hs[..k], id, i);
  }

  lemma PresentBefore<A>(bw: real, caps: seq<real>, t0: int, hs: seq<Step<A>>, before: seq<Step<A>>, id: nat, i: nat)
    requires Sized(caps, hs) && i < |caps| && hs != [] && before == hs[..|hs| - 1]
    requires Present(BoxAfter(bw, caps, t0, hs, i), id) && (hs[|hs| - 1].Called? ==> !Queues(hs[|hs| - 1].t, i, id))
    ensures Present(BoxAfter(bw, caps, t0, before, i), id)
  {
    NetStep(bw, caps, t0, hs);
    if hs[|hs| - 1].Called? { ServedPresence(bw, caps, t0, hs, id, i); }
  }

  /** Something that goes on only if it was so before, from a on, and ends at p. */
  lemma {:induction false} EndsOnce(there: seq<bool>, a: nat, k: nat, m: nat)
    requires forall q :: a < q < |there| - 1 && there[q + 1] ==> there[q]
    requires a < k <= m < |there| && there[m]
    ensures there[k]
  {
    if k < m { EndsOnce(there, a, k, m - 1); }
  }

  lemma EndsAt(there: seq<bool>, a: nat, p: nat, k: nat)
    requires forall q :: a < q < |there| - 1 && there[q + 1] ==> there[q]
    requires a < k < |there| && a <= p < |there| - 1 && (a < p ==> there[p]) && !there[p + 1]
    ensures there[k] <==> k <= p
  {
    if p < k {
      if there[k] { EndsOnce(there, a, p + 1, k); }
    } else {
      EndsOnce(there, a, k, p);
    }
  }

  /** After how many steps the message is in the outbox. */
  ghost function Stay<A>(bw: real, caps: seq<real>, t0: int, hs: seq<Step<A>>, id: nat, i: nat): (r: seq<bool>)
    requires Sized(caps, hs) && i < |caps|
    ensures |r| == |hs| + 1
  {
    seq(|hs| + 1, k requires 0 <= k <= |hs| && Sized(caps, hs) => There(bw, caps, t0, hs, id, i, k))
  }

  lemma StayGoesOn<A>(bw: real, caps: seq<real>, t0: int, hs: seq<Step<A>>, id: nat, i: nat, a: nat)
    requires Sized(caps, hs) && QueuedBy(hs, id, i, a) && i < |caps|
    ensures forall k :: a < k < |hs| && Stay(bw, caps, t0, hs, id, i)[k + 1] ==> Stay(bw, caps, t0, hs, id, i)[k]
  {
    forall k | a < k < |hs| && Stay(bw, caps, t0, hs, id, i)[k + 1] ensures Stay(bw, caps, t0, hs, id, i)[k] {
      ThereBefore(bw, caps, t0, hs, id, i, a, k);
    }
  }

  /** Of two messages of an interface the one queued later is nearer to the head of the outbox. */
  lemma {:induction false} NewerAhead<A>(bw: real, caps: seq<real>, t0: int, hs: seq<Step<A>>, i: nat, newer: nat,
                                         b: nat, older: nat, a: nat)
    requires Sized(caps, hs) && i < |caps| && a <= b && QueuedBy(hs, newer, i, b) && QueuedBy(hs, older, i, a)
    ensures Ahead(BoxAfter(bw, caps, t0, hs, i), newer, older)
    ensures hs != [] && hs[|hs| - 1].Called? ==> Ahead(ServedLast(bw, caps, t0, hs)[i].box, newer, older)
  {
    if hs != [] {
      var n := |hs| - 1;
      QueuedBefore(hs, n, newer, i, b);
      QueuedBefore(hs, n, older, i, a);
      NewerAhead(bw, caps, t0, hs[..n], i, newer, b, older, a);
      NetStep(bw, caps, t0, hs);
      if hs[n].Called? {
        assert QueuedAt(hs[n], n, older, i, a);
        var before := NetAfter(bw, caps, t0, hs[..n]).nifs;
        if Present(before[i].box, newer) { PresentWhere(bw, caps, t0, hs[..n], newer, i, b, i); }
        ServedAhead(bw, before, hs[n].t, i, newer, older);
        KeptAhead(ServedLast(bw, caps, t0, hs)[i].box, newer, older);
      }
    }
  }

  /** The last step is a call that delivers the message. */
  ghost predicate DeliveredLast<A>(bw: real, caps: seq<real>, t0: int, hs: seq<Step<A>>, id: nat)
    requires Sized(caps, hs)
  {
    hs != [] && hs[|hs| - 1].Called? && Present(NetAfter(bw, caps, t0, hs).delivered, id)
  }

  lemma DeliveredFrom<A>(bw: real, caps: seq<real>, t0: int, hs: seq<Step<A>>, id: nat, i: nat, a: nat) returns (k: nat)
    requires Sized(caps, hs) && QueuedBy(hs, id, i, a) && DeliveredLast(bw, caps, t0, hs, id)
    ensures i < |caps| && a < |hs| && Present(ServedLast(bw, caps, t0, hs)[i].box, id)
    ensures var b := ServedLast(bw, caps, t0, hs)[i].box; k < |b| && b[k].id == id && Done(b[k])
  {
    var q, t := 0, hs[|hs| - 1].t;
    NetStep(bw, caps, t0, hs);
    q, k := DeliveredBox(ServedLast(bw, caps, t0, hs), t.now, t.latency, id);
    ServedOnly(bw, caps, t0, hs, id, i, a, q);
  }

  lemma DeliveredBox(v: seq<Sender>, now: int, latency: real, id: nat) returns (q: nat, k: nat)
    requires Present(DeliveredAll(v, now, latency), id)
    ensures q < |v| && k < |v[q].box| && v[q].box[k].id == id && Done(v[q].box[k])
  {
    var ds := DeliveredAll(v, now, latency);
    DeliveredAllMembers(v, now, latency);
    var e :| 0 <= e < |ds| && ds[e].id == id;
    assert From(v, ds[e], now, latency);
    var m;
    q, m :| 0 <= q < |v| && m in v[q].box && Done(m) && ds[e] == Deliver(m, now, latency);
    k :| 0 <= k < |v[q].box| && v[q].box[k] == m;
  }

  lemma ServedOnly<A>(bw: real, caps: seq<real>, t0: int, hs: seq<Step<A>>, id: nat, i: nat, a: nat, q: nat)
    requires Sized(caps, hs) && hs != [] && hs[|hs| - 1].Called? && QueuedBy(hs, id, i, a) && q < |caps|
    requires Present(ServedLast(bw, caps, t0, hs)[q].box, id)
    ensures q == i && a < |hs|
  {
    var n := |hs| - 1;
    QueuedBefore(hs, n, id, i, a);
    ServedPresence(bw, caps, t0, hs, id, q);
    assert QueuedAt(hs[n], n, id, i, a);
    if Present(BoxAfter(bw, caps, t0, hs[..n], q), id) { PresentWhere(bw, caps, t0, hs[..n], id, i, a, q); }
  }

  lemma DeliveredGone<A>(bw: real, caps: seq<real>, t0: int, hs: seq<Step<A>>, id: nat, i: nat, a: nat)
    requires Sized(caps, hs) && QueuedBy(hs, id, i, a) && DeliveredLast(bw, caps, t0, hs, id) && i < |caps|
    ensures a < |hs| && !Present(BoxAfter(bw, caps, t0, hs, i), id)
  {
    var k := DeliveredFrom(bw, caps, t0, hs, id, i, a);
    NewerAhead(bw, caps, t0, hs, i, id, a, id, a);
    NoneKept(ServedLast(bw, caps, t0, hs)[i].box, id, k);
    NetStep(bw, caps, t0, hs);
  }

  lemma NoneKept(b: seq<Msg>, id: nat, k: nat)
    requires Ahead(b, id, id) && k < |b| && b[k].id == id && Done(b[k])
    ensures !Present(Kept(b), id)
  {
    KeptHas(b, id);
  }

  /** Step p is a call that delivers the message. */
  ghost predicate DeliveredBy<A>(bw: real, caps: seq<real>, t0: int, hs: seq<Step<A>>, id: nat, p: nat)
    requires Sized(caps, hs) && p < |hs|
  {
    DeliveredLast(bw, caps, t0, hs[..p + 1], id)
  }

  /** A message that step p delivers is there until then, once queued, and not after. */
  lemma UntilDelivered<A>(bw: real, caps: seq<real>, t0: int, hs: seq<Step<A>>, id: nat, i: nat, a: nat, p: nat)
    requires Sized(caps, hs) && QueuedBy(hs, id, i, a) && i < |caps| && p < |hs|
    requires DeliveredBy(bw, caps, t0, hs, id, p)
    ensures a <= p && (a < p ==> There(bw, caps, t0, hs, id, i, p)) && !There(bw, caps, t0, hs, id, i, p + 1)
  {
    QueuedBefore(hs, p + 1, id, i, a);
    BeforeDelivery(bw, caps, t0, hs[..p + 1], hs[..p], id, i, a);
  }

  lemma BeforeDelivery<A>(bw: real, caps: seq<real>, t0: int, hs: seq<Step<A>>, before: seq<Step<A>>, id: nat, i: nat,
                          a: nat)
    requires Sized(caps, hs) && QueuedBy(hs, id, i, a) && i < |caps| && DeliveredLast(bw, caps, t0, hs, id)
    requires before == hs[..|hs| - 1]
    ensures a < |hs| && !Present(BoxAfter(bw, caps, t0, hs, i), id)
    ensures a < |hs| - 1 ==> Present(BoxAfter(bw, caps, t0, before, i), id)
  {
    assert QueuedAt(hs[|hs| - 1], |hs| - 1, id, i, a);
    var _ := DeliveredFrom(bw, caps, t0, hs, id, i, a);
    DeliveredGone(bw, caps, t0, hs, id, i, a);
    ServedPresence(bw, caps, t0, hs, id, i);
  }

  /** A message that step p delivers is in its outbox after k steps, k being later than its queueing, if and only
      if p is not before step k. */
  lemma GoneIff<A>(bw: real, caps: seq<real>, t0: int, hs: seq<Step<A>>, id: nat, i: nat, a: nat, p: nat, k: nat)
    requires Sized(caps, hs) && QueuedBy(hs, id, i, a) && i < |caps| && p < |hs| && a < k <= |hs|
    requires DeliveredBy(bw, caps, t0, hs, id, p)
    ensures There(bw, caps, t0, hs, id, i, k) <==> k <= p
  {
    UntilDelivered(bw, caps, t0, hs, id, i, a, p);
    StayGoesOn(bw, caps, t0, hs, id, i, a);
    EndsAt(Stay(bw, caps, t0, hs, id, i), a, p, k);
  }

  // ---------------------------------------------------------------------------
  // Two messages
  // ---------------------------------------------------------------------------

  lemma {:induction false} FrontDone(b: seq<Msg>, l: nat, k: nat)
    requires FinishedInFront(b) && l <= k < |b| && Done(b[k])
    ensures Done(b[l])
  {
    if l < k { FrontDone(b, l, k - 1); }
  }

  /** If the older message is delivered, the newer one does not stay. */
  lemma NewerNotKept(b: seq<Msg>, newer: nat, older: nat, k: nat)
    requires FinishedInFront(b) && Ahead(b, newer, older) && k < |b| && b[k].id == older && Done(b[k])
    ensures !Present(Kept(b), newer)
  {
    KeptHas(b, newer);
    if Present(Kept(b), newer) {
      var l :| 0 <= l < |b| && b[l].id == newer && !Done(b[l]);
      FrontDone(b, l, k);
    }
  }

  lemma NewerGone<A>(bw: real, caps: seq<real>, t0: int, hs: seq<Step<A>>, i: nat, newer: nat, b: nat, older: nat,
                     a: nat)
    requires Sized(caps, hs) && i < |caps| && a <= b && QueuedBy(hs, newer, i, b) && QueuedBy(hs, older, i, a)
    requires DeliveredLast(bw, caps, t0, hs, older) && InFront(ServedLast(bw, caps, t0, hs))
    ensures !Present(BoxAfter(bw, caps, t0, hs, i), newer)
  {
    var k := DeliveredFrom(bw, caps, t0, hs, older, i, a);
    NewerAhead(bw, caps, t0, hs, i, newer, b, older, a);
    NewerNotKept(ServedLast(bw, caps, t0, hs)[i].box, newer, older, k);
    NetStep(bw, caps, t0, hs);
  }

  /** If the older message is still there when the newer one is queued, the newer one is not delivered later. */
  lemma NewerNoLater<A>(bw: real, caps: seq<real>, t0: int, hs: seq<Step<A>>, i: nat, newer: nat, b: nat, older: nat,
                        a: nat, p: nat, q: nat)
    requires Sized(caps, hs) && i < |caps| && a <= b <= p && QueuedBy(hs, newer, i, b) && QueuedBy(hs, older, i, a)
    requires AlwaysInFront(bw, caps, t0, hs) && p < |hs| && q < |hs|
    requires DeliveredBy(bw, caps, t0, hs, older, p) && DeliveredBy(bw, caps, t0, hs, newer, q)
    ensures q <= p
  {
    if p < q {
      NewerGoneAt(bw, caps, t0, hs, i, newer, b, older, a, p);
      GoneIff(bw, caps, t0, hs, newer, i, b, q, p + 1);
    }
  }

  lemma NewerGoneAt<A>(bw: real, caps: seq<real>, t0: int, hs: seq<Step<A>>, i: nat, newer: nat, b: nat, older: nat,
                       a: nat, p: nat)
    requires Sized(caps, hs) && i < |caps| && a <= b && QueuedBy(hs, newer, i, b) && QueuedBy(hs, older, i, a)
    requires AlwaysInFront(bw, caps, t0, hs) && p < |hs| && DeliveredBy(bw, caps, t0, hs, older, p)
    ensures !There(bw, caps, t0, hs, newer, i, p + 1)
  {
    FrontAt(bw, caps, t0, hs, p);
    QueuedBefore(hs, p + 1, newer, i, b);
    QueuedBefore(hs, p + 1, older, i, a);
    NewerGone(bw, caps, t0, hs[..p + 1], i, newer, b, older, a);
  }

  lemma FrontAt<A>(bw: real, caps: seq<real>, t0: int, hs: seq<Step<A>>, p: nat)
    requires Sized(caps, hs) && AlwaysInFront(bw, caps, t0, hs) && p < |hs| && hs[p].Called?
    ensures InFront(ServedLast(bw, caps, t0, hs[..p + 1]))
  {
    assert InFrontAt(bw, caps, t0, hs, p) && hs[..p + 1][..p] == hs[..p];
  }

  /** Of two messages that the same call delivers, it delivers the newer one first. */
  lemma NewerFirst<A>(bw: real, caps: seq<real>, t0: int, hs: seq<Step<A>>, i: nat, newer: nat, b: nat, older: nat,
                      a: nat)
    requires Sized(caps, hs) && i < |caps| && a <= b && QueuedBy(hs, newer, i, b) && QueuedBy(hs, older, i, a)
    requires hs != [] && hs[|hs| - 1].Called?
    ensures Ahead(NetAfter(bw, caps, t0, hs).delivered, newer, older)
  {
    var v, t := ServedLast(bw, caps, t0, hs), hs[|hs| - 1].t;
    NewerAhead(bw, caps, t0, hs, i, newer, b, older, a);
    NetStep(bw, caps, t0, hs);
    forall q | 0 <= q < |v| && q != i ensures !Present(v[q].box, newer) && !Present(v[q].box, older) {
      if Present(v[q].box, newer) { ServedOnly(bw, caps, t0, hs, newer, i, b, q); }
      if Present(v[q].box, older) { ServedOnly(bw, caps, t0, hs, older, i, a, q); }
    }
    DeliveredAllAhead(v, t.now, t.latency, i, newer, older);
  }

  // ---------------------------------------------------------------------------
  // What is read
  // ---------------------------------------------------------------------------

  lemma {:induction false} EventsAt<A>(bw: real, caps: seq<real>, t0: int, hs: seq<Step<A>>, j: nat, p: nat)
    requires Sized(caps, hs) && p < |hs|
    ensures Events(bw, caps, t0, hs, j)[p] == EventOf(bw, caps, t0, hs[..p + 1], j)
    decreases |hs|
  {
    var n := |hs| - 1;
    if p < n {
      EventsAt(bw, caps, t0, hs[..n], j, p);
      assert hs[..n][..p + 1] == hs[..p + 1];
    } else {
      assert hs[..p + 1] == hs;
    }
  }

  /** What step p delivers. */
  lemma DeliveriesAt<A>(bw: real, caps: seq<real>, t0: int, hs: seq<Step<A>>, j: nat, p: nat) returns (ds: seq<Msg>)
    requires Sized(caps, hs) && p < |hs|
    ensures ds == Deliveries(Events(bw, caps, t0, hs, j)[p])
    ensures ds == if hs[p].Called? then NetAfter(bw, caps, t0, hs[..p + 1]).delivered else []
  {
    EventsAt(bw, caps, t0, hs, j, p);
    ds := Deliveries(EventOf(bw, caps, t0, hs[..p + 1], j));
  }

  lemma OriginHas(es: seq<Event>, n: nat, id: nat) returns (p: nat)
    requires n < Count(es) && Origin(es, n).1.id == id
    ensures p < |es| && p == Origin(es, n).0 && Present(Deliveries(es[p]), id)
  {
    OriginIn(es, n);
    p := Origin(es, n).0;
    assert Deliveries(es[p])[n - Count(es[..p])].id == id;
  }

  /** Numbers of two messages that the same event delivered. */
  lemma NumbersTogether(es: seq<Event>, m: nat, n: nat, p: nat, newer: nat, older: nat)
    requires m < Count(es) && n < Count(es) && Origin(es, m).0 == p == Origin(es, n).0 && p < |es|
    requires Origin(es, m).1.id == newer && Origin(es, n).1.id == older && newer != older
    requires Ahead(Deliveries(es[p]), newer, older)
    ensures m < n
  {
    OriginIn(es, m);
    OriginIn(es, n);
    var ds, base := Deliveries(es[p]), Count(es[..p]);
    assert ds[m - base].id == newer && ds[n - base].id == older;
  }

  /** A receipt is for a message, delivered by event p. */
  ghost predicate ReceiptOf(es: seq<Event>, j: nat, r: Receipt, id: nat, p: nat)
  {
    ReadRightly(es, j, r) && r.item.msg.id == id && p < |es| && Origin(es, r.item.number).0 == p
    && Present(Deliveries(es[p]), id)
  }

  lemma ReceiptFrom(es: seq<Event>, j: nat, x: nat, id: nat) returns (p: nat)
    requires x < |Posted(es, j).log| && Posted(es, j).log[x].item.msg.id == id
    ensures ReceiptOf(es, j, Posted(es, j).log[x], id, p)
  {
    PostedInOrder(es, j);
    var r := Posted(es, j).log[x];
    assert r in Posted(es, j).log;
    p := OriginHas(es, r.item.number, id);
  }

  /** The events p and q that delivered the messages: if the newer one is ahead whenever they are the same, the
      message delivered first, and due no later, is read first. */
  lemma ReadAsDelivered(es: seq<Event>, j: nat, x: nat, older: nat, p: nat, y: nat, newer: nat, q: nat)
    requires x < |Posted(es, j).log| && y < |Posted(es, j).log| && newer != older
    requires ReceiptOf(es, j, Posted(es, j).log[x], older, p) && ReceiptOf(es, j, Posted(es, j).log[y], newer, q)
    requires p == q ==> Ahead(Deliveries(es[p]), newer, older)
    requires var r, s := Posted(es, j).log[x].item.msg, Posted(es, j).log[y].item.msg;
             if p < q then r.end <= s.end else s.end <= r.end
    ensures x < y <==> p < q
  {
    var r, s := Posted(es, j).log[x], Posted(es, j).log[y];
    if p < q {
      EarlierFirst(es, r.item.number, s.item.number);
      ReadFirst(es, j, x, y);
    } else {
      if p == q { NumbersTogether(es, s.item.number, r.item.number, p, newer, older); }
      else { EarlierFirst(es, s.item.number, r.item.number); }
      ReadFirst(es, j, y, x);
    }
  }

  /** Delivered no later, due no later, and with a smaller number: read first. */
  lemma ReadFirst(es: seq<Event>, j: nat, x: nat, y: nat)
    requires x < |Posted(es, j).log| && y < |Posted(es, j).log|
    requires var r, q := Posted(es, j).log[x], Posted(es, j).log[y];
             && ReadRightly(es, j, r) && ReadRightly(es, j, q) && r.item.number < q.item.number
             && Origin(es, r.item.number).0 <= Origin(es, q.item.number).0 && r.item.msg.end <= q.item.msg.end
    ensures x < y
  {
    CallsAscend(es, j, Posted(es, j).log[x], Posted(es, j).log[y]);
    ReadOrder(es, j, x, y);
  }

  /** Event p of an inbox is a call that delivers the message. */
  lemma ByCall<A>(bw: real, caps: seq<real>, t0: int, hs: seq<Step<A>>, j: nat, id: nat, p: nat)
    requires Sized(caps, hs) && p < |hs| && Present(Deliveries(Events(bw, caps, t0, hs, j)[p]), id)
    ensures DeliveredBy(bw, caps, t0, hs, id, p)
  {
    var _ := DeliveriesAt(bw, caps, t0, hs, j, p);
  }

  lemma TogetherAhead<A>(bw: real, caps: seq<real>, t0: int, hs: seq<Step<A>>, j: nat, i: nat, newer: nat, b: nat,
                         older: nat, a: nat, p: nat)
    requires Sized(caps, hs) && i < |caps| && a <= b && QueuedBy(hs, newer, i, b) && QueuedBy(hs, older, i, a)
    requires p < |hs| && DeliveredBy(bw, caps, t0, hs, older, p)
    ensures Ahead(Deliveries(Events(bw, caps, t0, hs, j)[p]), newer, older)
  {
    var ds := DeliveriesAt(bw, caps, t0, hs, j, p);
    QueuedBefore(hs, p + 1, newer, i, b);
    QueuedBefore(hs, p + 1, older, i, a);
    NewerFirst(bw, caps, t0, hs[..p + 1], i, newer, b, older, a);
  }

  /** The older message is delivered by an earlier step if and only if it is gone when the newer one is queued. */
  lemma EarlierIffGone<A>(bw: real, caps: seq<real>, t0: int, hs: seq<Step<A>>, i: nat, newer: nat, b: nat, older: nat,
                          a: nat, p: nat, q: nat)
    requires Sized(caps, hs) && i < |caps| && a < b <= |hs| && QueuedBy(hs, newer, i, b) && QueuedBy(hs, older, i, a)
    requires AlwaysInFront(bw, caps, t0, hs) && p < |hs| && q < |hs|
    requires DeliveredBy(bw, caps, t0, hs, older, p) && DeliveredBy(bw, caps, t0, hs, newer, q)
    ensures p < q <==> !There(bw, caps, t0, hs, older, i, b)
  {
    GoneIff(bw, caps, t0, hs, older, i, a, p, b);
    UntilDelivered(bw, caps, t0, hs, newer, i, b, q);
    if b <= p { NewerNoLater(bw, caps, t0, hs, i, newer, b, older, a, p, q); }
  }

  /** On sequences: with the older message gone before step b or not, receipts x and y of the two. */
  lemma OrderIff<A>(bw: real, caps: seq<real>, t0: int, hs: seq<Step<A>>, es: seq<Event>, i: nat, j: nat, older: nat,
                    a: nat, x: nat, newer: nat, b: nat, y: nat)
    requires Sized(caps, hs) && AlwaysInFront(bw, caps, t0, hs) && i < |caps| && a < b <= |hs| && older != newer
    requires QueuedBy(hs, newer, i, b) && QueuedBy(hs, older, i, a) && es == Events(bw, caps, t0, hs, j)
    requires x < |Posted(es, j).log| && y < |Posted(es, j).log|
    requires Posted(es, j).log[x].item.msg.id == older && Posted(es, j).log[y].item.msg.id == newer
    requires var r, s := Posted(es, j).log[x].item.msg, Posted(es, j).log[y].item.msg;
             if There(bw, caps, t0, hs, older, i, b) then s.end <= r.end else r.end <= s.end
    ensures x < y <==> !There(bw, caps, t0, hs, older, i, b)
  {
    var p := ReceiptFrom(es, j, x, older);
    var q := ReceiptFrom(es, j, y, newer);
    ByCall(bw, caps, t0, hs, j, older, p);
    ByCall(bw, caps, t0, hs, j, newer, q);
    EarlierIffGone(bw, caps, t0, hs, i, newer, b, older, a, p, q);
    TogetherAhead(bw, caps, t0, hs, j, i, newer, b, older, a, p);
    ReadAsDelivered(es, j, x, older, p, y, newer, q);
  }

  /** Message number x that interface j has read. */
  ghost predicate ReadAs<A>(s: LinkedNet<A>, j: nat, x: nat, id: nat)
  {
    j < |s.logs| && x < |s.logs[j]| && s.logs[j][x].id == id
  }

  ghost predicate InOutbox<A>(s: LinkedNet<A>, i: nat, id: nat, n: nat) { Present(Spelled(OutboxOf(s, i, n)), id) }

  /** Of two messages that interface i queues, the older at step a and the newer at step b, the older is read first
      if and only if its outbox does not hold it any more when the newer is queued. The times must not cross: the
      message delivered later is not due before the other. */
  lemma SentOrderKeptIff<A>(bw: real, caps: seq<real>, t0: int, hs: seq<Step<A>>, n: nat, i: nat, j: nat, older: nat,
                            a: nat, x: nat, newer: nat, b: nat, y: nat, early: LinkedNet<A>, s: LinkedNet<A>)
    requires Proper(caps, hs) && AlwaysInFront(bw, caps, t0, hs) && Needed(bw, caps, t0, hs) <= n
    requires i < |caps| && j < |caps| && a < b <= |hs| && older != newer
    requires QueuedBy(hs, older, i, a) && QueuedBy(hs, newer, i, b)
    requires LinkedAfter(bw, caps, hs[..b], n) == Some(early) && LinkedAfter(bw, caps, hs, n) == Some(s)
    requires ReadAs(s, j, x, older) && ReadAs(s, j, y, newer)
    requires if InOutbox(early, i, older, n) then s.logs[j][y].end <= s.logs[j][x].end
             else s.logs[j][x].end <= s.logs[j][y].end
    ensures x < y <==> !InOutbox(early, i, older, n)
  {
    PrefixFits(bw, caps, t0, hs, b);
    InFrontPrefix(bw, caps, t0, hs, b);
    var _ := LinkedSpells(bw, caps, t0, hs[..b], n);
    var _ := LinkedSpells(bw, caps, t0, hs, n);
    assert OutboxOf(early, i, n) == Some(BoxAfter(bw, caps, t0, hs[..b], i));
    assert s.logs[j] == LogMessages(PostOf(bw, caps, t0, hs, j).log);
    OrderIff(bw, caps, t0, hs, Events(bw, caps, t0, hs, j), i, j, older, a, x, newer, b, y);
  }

  /** The outbox holds the newer of two messages in front of the older. */
  lemma LinkedNewerAhead<A>(bw: real, caps: seq<real>, t0: int, hs: seq<Step<A>>, n: nat, i: nat, newer: nat, b: nat,
                            older: nat, a: nat, s: LinkedNet<A>)
    requires Proper(caps, hs) && AlwaysInFront(bw, caps, t0, hs) && Needed(bw, caps, t0, hs) <= n
    requires i < |caps| && a <= b && QueuedBy(hs, newer, i, b) && QueuedBy(hs, older, i, a)
    requires LinkedAfter(bw, caps, hs, n) == Some(s)
    ensures Ahead(Spelled(OutboxOf(s, i, n)), newer, older)
  {
    var _ := LinkedSpells(bw, caps, t0, hs, n);
    NewerAhead(bw, caps, t0, hs, i, newer, b, older, a);
  }

  // ---------------------------------------------------------------------------
  // When finished messages are in front, in terms of messages
  // ---------------------------------------------------------------------------

  ghost predicate QueuesAt<A>(hs: seq<Step<A>>, k: nat, q: nat, id: nat)
  {
    k < |hs| && hs[k].Called? && Queues(hs[k].t, q, id)
  }

  /** No message is queued twice. */
  ghost predicate QueuedOnceOnly<A>(hs: seq<Step<A>>)
  {
    forall k, q, m, r, id :: QueuesAt(hs, k, q, id) && QueuesAt(hs, m, r, id) ==> k == m && q == r
  }

  lemma OnceQueuedBy<A>(hs: seq<Step<A>>, id: nat, i: nat, a: nat)
    requires QueuedOnceOnly(hs) && a < |hs| && hs[a].Called? && Queues(hs[a].t, i, id)
    ensures QueuedBy(hs, id, i, a)
  {
    assert QueuesAt(hs, a, i, id);
    forall k | 0 <= k < |hs| ensures QueuedAt(hs[k], k, id, i, a) {
      forall q | 0 <= q && hs[k].Called? && Queues(hs[k].t, q, id) ensures k == a && q == i {
        assert QueuesAt(hs, k, q, id);
      }
    }
  }

  lemma {:induction false} QueuedSomewhere<A>(bw: real, caps: seq<real>, t0: int, hs: seq<Step<A>>, i: nat, id: nat)
    returns (a: nat)
    requires Sized(caps, hs) && i < |caps| && Present(BoxAfter(bw, caps, t0, hs, i), id)
    ensures a < |hs| && hs[a].Called? && Queues(hs[a].t, i, id)
  {
    if hs == [] {
      assert false;
    } else {
      var n := |hs| - 1;
      NetStep(bw, caps, t0, hs);
      if hs[n].Called? { ServedPresence(bw, caps, t0, hs, id, i); }
      if hs[n].Called? && Queues(hs[n].t, i, id) { a := n; }
      else { a := QueuedSomewhere(bw, caps, t0, hs[..n], i, id); }
    }
  }

  lemma ServedFrom<A>(bw: real, caps: seq<real>, t0: int, hs: seq<Step<A>>, i: nat, id: nat) returns (a: nat)
    requires Sized(caps, hs) && hs != [] && hs[|hs| - 1].Called? && i < |caps|
    requires Present(ServedLast(bw, caps, t0, hs)[i].box, id)
    ensures a < |hs| && hs[a].Called? && Queues(hs[a].t, i, id)
  {
    var before := hs[..|hs| - 1];
    if Queues(hs[|hs| - 1].t, i, id) {
      a := |hs| - 1;
    } else {
      assert Present(BoxAfter(bw, caps, t0, before, i), id) by { ServedPresence(bw, caps, t0, hs, id, i); }
      a := QueuedSomewhere(bw, caps, t0, before, i, id);
      assert before[a] == hs[a];
    }
  }

  /** The last step delivers a message, and leaves a newer one of the same interface in its outbox. */
  ghost predicate Overtakes<A>(bw: real, caps: seq<real>, t0: int, hs: seq<Step<A>>)
    requires Sized(caps, hs)
  {
    exists i, older, a, newer, b :: Overtaken(bw, caps, t0, hs, i, older, a, newer, b)
  }

  ghost predicate Overtaken<A>(bw: real, caps: seq<real>, t0: int, hs: seq<Step<A>>, i: nat, older: nat, a: nat,
                               newer: nat, b: nat)
    requires Sized(caps, hs)
  {
    && i < |caps| && a < b && QueuedBy(hs, older, i, a) && QueuedBy(hs, newer, i, b)
    && DeliveredLast(bw, caps, t0, hs, older) && Present(BoxAfter(bw, caps, t0, hs, i), newer)
  }

  /** A message behind another of the same outbox was queued before it. */
  lemma BehindIsOlder<A>(bw: real, caps: seq<real>, t0: int, hs: seq<Step<A>>, i: nat, q: nat)
    returns (a: nat, b: nat)
    requires Sized(caps, hs) && QueuedOnceOnly(hs) && hs != [] && hs[|hs| - 1].Called? && i < |caps|
    requires 0 < q < |ServedLast(bw, caps, t0, hs)[i].box|
    ensures var box := ServedLast(bw, caps, t0, hs)[i].box;
            a < b && QueuedBy(hs, box[q].id, i, a) && QueuedBy(hs, box[q - 1].id, i, b)
  {
    var box := ServedLast(bw, caps, t0, hs)[i].box;
    a := ServedFrom(bw, caps, t0, hs, i, box[q].id);
    b := ServedFrom(bw, caps, t0, hs, i, box[q - 1].id);
    OnceQueuedBy(hs, box[q].id, i, a);
    OnceQueuedBy(hs, box[q - 1].id, i, b);
    if b <= a { NewerAhead(bw, caps, t0, hs, i, box[q].id, a, box[q - 1].id, b); }
  }

  lemma DeliveredLastFrom<A>(bw: real, caps: seq<real>, t0: int, hs: seq<Step<A>>, i: nat, q: nat)
    requires Sized(caps, hs) && hs != [] && hs[|hs| - 1].Called? && i < |caps|
    requires q < |ServedLast(bw, caps, t0, hs)[i].box| && Done(ServedLast(bw, caps, t0, hs)[i].box[q])
    ensures DeliveredLast(bw, caps, t0, hs, ServedLast(bw, caps, t0, hs)[i].box[q].id)
  {
    var v, t := ServedLast(bw, caps, t0, hs), hs[|hs| - 1].t;
    NetStep(bw, caps, t0, hs);
    DeliveredAllMembers(v, t.now, t.latency);
    var ds := DeliveredAll(v, t.now, t.latency);
    assert Deliver(v[i].box[q], t.now, t.latency) in ds;
    var e :| 0 <= e < |ds| && ds[e] == Deliver(v[i].box[q], t.now, t.latency);
  }

  lemma OvertakesFrom<A>(bw: real, caps: seq<real>, t0: int, hs: seq<Step<A>>, i: nat, q: nat)
    requires Sized(caps, hs) && QueuedOnceOnly(hs) && hs != [] && hs[|hs| - 1].Called? && i < |caps|
    requires 0 < q < |ServedLast(bw, caps, t0, hs)[i].box|
    requires var box := ServedLast(bw, caps, t0, hs)[i].box; Done(box[q]) && !Done(box[q - 1])
    ensures Overtakes(bw, caps, t0, hs)
  {
    var box := ServedLast(bw, caps, t0, hs)[i].box;
    var a, b := BehindIsOlder(bw, caps, t0, hs, i, q);
    DeliveredLastFrom(bw, caps, t0, hs, i, q);
    KeptHas(box, box[q - 1].id);
    NetStep(bw, caps, t0, hs);
    assert Overtaken(bw, caps, t0, hs, i, box[q].id, a, box[q - 1].id, b);
  }

  /** The last call finds finished messages in front if and only if it does not deliver a message while a newer one
      of its interface stays. */
  lemma FrontIff<A>(bw: real, caps: seq<real>, t0: int, hs: seq<Step<A>>)
    requires Sized(caps, hs) && QueuedOnceOnly(hs) && hs != [] && hs[|hs| - 1].Called?
    ensures InFront(ServedLast(bw, caps, t0, hs)) <==> !Overtakes(bw, caps, t0, hs)
  {
    if InFront(ServedLast(bw, caps, t0, hs)) {
      NoneOvertakes(bw, caps, t0, hs);
    } else {
      var i, q := NotInFront(ServedLast(bw, caps, t0, hs));
      OvertakesFrom(bw, caps, t0, hs, i, q);
    }
  }

  lemma NotInFront(v: seq<Sender>) returns (i: nat, q: nat)
    requires !InFront(v)
    ensures i < |v| && 0 < q < |v[i].box| && Done(v[i].box[q]) && !Done(v[i].box[q - 1])
  {
    i :| 0 <= i < |v| && !FinishedInFront(v[i].box);
    q :| 0 < q < |v[i].box| && Done(v[i].box[q]) && !Done(v[i].box[q - 1]);
  }

  lemma NoneOvertakes<A>(bw: real, caps: seq<real>, t0: int, hs: seq<Step<A>>)
    requires Sized(caps, hs) && QueuedOnceOnly(hs) && hs != [] && hs[|hs| - 1].Called?
    requires InFront(ServedLast(bw, caps, t0, hs))
    ensures !Overtakes(bw, caps, t0, hs)
  {
    if i, older, a, newer, b :| Overtaken(bw, caps, t0, hs, i, older, a, newer, b) {
      NewerGone(bw, caps, t0, hs, i, newer, b, older, a);
    }
  }

  /** Finished messages are always in front if and only if no call delivers a message while a newer one of its
      interface stays undelivered: a caller who queues a message while an older one is under way must see to it
      that the newer one is finished as soon. */
  lemma AlwaysInFrontIff<A>(bw: real, caps: seq<real>, t0: int, hs: seq<Step<A>>)
    requires Sized(caps, hs) && QueuedOnceOnly(hs)
    ensures AlwaysInFront(bw, caps, t0, hs) <==>
              forall k :: 0 <= k < |hs| && hs[k].Called? ==> !Overtakes(bw, caps, t0, hs[..k + 1])
  {
    forall k | 0 <= k < |hs| && hs[k].Called?
      ensures InFrontAt(bw, caps, t0, hs, k) <==> !Overtakes(bw, caps, t0, hs[..k + 1])
    {
      FrontIffAt(bw, caps, t0, hs, hs[..k + 1], k);
    }
  }

  lemma FrontIffAt<A>(bw: real, caps: seq<real>, t0: int, hs: seq<Step<A>>, p: seq<Step<A>>, k: nat)
    requires Sized(caps, hs) && QueuedOnceOnly(hs) && k < |hs| && hs[k].Called? && p == hs[..k + 1]
    ensures InFrontAt(bw, caps, t0, hs, k) <==> !Overtakes(bw, caps, t0, p)
  {
    assert p[..k] == hs[..k];
    forall j, q, m, r, id | QueuesAt(p, j, q, id) && QueuesAt(p, m, r, id) ensures j == m && q == r {
      assert QueuesAt(hs, j, q, id) && QueuesAt(hs, m, r, id);
    }
    FrontIff(bw, caps, t0, p);
  }
}
