/** What whole runs of a network on linked cells keep, when finished messages are always in front. */
module LinkedNetwork {
  import opened Options
  import opened Sync
  import opened Network
  import opened NetworkRuns
  import opened Links
  import opened OrderlyLinks
  import opened LinkedCommit
  import opened LinkedReading
  import opened LinkedRuns
  import opened Delivery
  import opened MessageOrder

  // ---------------------------------------------------------------------------
  // What the links spell
  // ---------------------------------------------------------------------------

  /** The messages of the cells from `cur` on. */
  ghost function Along<A>(h: Heap<A>, cur: Option<A>, n: nat): Option<seq<Msg>>
    decreases n
  {
    if cur.None? then Some([])
    else if n == 0 || cur.value !in h.cells then None
    else
      var rest := Along(h, h.cells[cur.value].next, n - 1);
      if rest.None? then None else Some([h.cells[cur.value].msg] + rest.value)
  }

  lemma {:induction false} ListSpells<A>(h: Heap<A>, s: seq<A>, ms: seq<Msg>, k: nat, n: nat)
    requires Listed(h.cells, At(s, 0), s, ms) && k <= |s| <= k + n
    ensures Along(h, At(s, k), n) == Some(ms[k..])
    decreases n
  {
    if k < |s| {
      assert NodeAt(h.cells, s, ms, k);
      ListSpells(h, s, ms, k + 1, n - 1);
      assert Along(h, At(s, k), n) == Some([ms[k]] + ms[k + 1..]);
      assert ms[k..] == [ms[k]] + ms[k + 1..];
    } else {
      assert ms[k..] == [] && At(s, k) == None;
    }
  }

  ghost function OutboxOf<A>(s: LinkedNet<A>, i: nat, n: nat): Option<seq<Msg>>
  {
    Along(s.heap, Head(s.heap.outbox, i), n)
  }

  ghost function InboxOf<A>(s: LinkedNet<A>, j: nat, n: nat): Option<seq<Msg>>
  {
    Along(s.heap, Head(s.heap.inbox, j), n)
  }

  /** Outboxes, inboxes and what was read, as the links spell them, are those of the run on sequences. */
  ghost predicate Spells<A>(s: LinkedNet<A>, n: nat, bw: real, caps: seq<real>, t0: int, hs: seq<Step<A>>)
    requires Sized(caps, hs)
  {
    var net := NetAfter(bw, caps, t0, hs);
    && s.used == net.used && s.next == net.next && |s.logs| == |caps| && LogsAre(s, bw, caps, t0, hs)
    && (forall i :: 0 <= i < |caps| ==> OutboxOf(s, i, n) == Some(net.nifs[i].box))
    && (forall j :: 0 <= j < |caps| ==> InboxOf(s, j, n) == Some(Boxes(bw, caps, t0, hs)[j]))
  }

  lemma LinkedSpells<A>(bw: real, caps: seq<real>, t0: int, hs: seq<Step<A>>, n: nat) returns (s: LinkedNet<A>)
    requires Proper(caps, hs) && AlwaysInFront(bw, caps, t0, hs) && Needed(bw, caps, t0, hs) <= n
    ensures LinkedAfter(bw, caps, hs, n) == Some(s) && Spells(s, n, bw, caps, t0, hs)
  {
    var l;
    s, l := LinkedRefines(bw, caps, t0, hs, n);
    var net, boxes := NetAfter(bw, caps, t0, hs), Boxes(bw, caps, t0, hs);
    ListsShort(bw, caps, t0, hs);
    forall i | 0 <= i < |caps|
      ensures OutboxOf(s, i, n) == Some(net.nifs[i].box) && InboxOf(s, i, n) == Some(boxes[i])
    {
      SpellsAt(s, l, net.nifs, boxes, i, n);
    }
  }

  lemma SpellsAt<A>(s: LinkedNet<A>, l: Lists<A>, nifs: seq<Sender>, boxes: seq<seq<Msg>>, i: nat, n: nat)
    requires Represents(s.heap, l, nifs, boxes) && i < |nifs| && |nifs[i].box| <= n && |boxes[i]| <= n
    ensures OutboxOf(s, i, n) == Some(nifs[i].box) && InboxOf(s, i, n) == Some(boxes[i])
  {
    assert OutboxIs(s.heap, l, i, nifs[i].box) && InboxIs(s.heap, l, i, boxes[i]);
    ListSpells(s.heap, l.outs[i], nifs[i].box, 0, n);
    ListSpells(s.heap, l.ins[i], boxes[i], 0, n);
  }

  lemma ListsShort<A>(bw: real, caps: seq<real>, t0: int, hs: seq<Step<A>>)
    requires Sized(caps, hs)
    ensures ShortLists(Boxes(bw, caps, t0, hs), Needed(bw, caps, t0, hs))
    ensures Short(NetAfter(bw, caps, t0, hs).nifs, Needed(bw, caps, t0, hs))
  {
    forall j | 0 <= j < |caps| ensures |Boxes(bw, caps, t0, hs)[j]| <= Needed(bw, caps, t0, hs) {
      PostBound(Events(bw, caps, t0, hs, j), j);
      SameCount(bw, caps, t0, hs, j, 0);
    }
    CallsBound(hs);
    CallsSized(caps, hs);
    OutboxBound(bw, caps, t0, Calls(hs));
  }

  // ---------------------------------------------------------------------------
  // What was delivered waits in an inbox or was read
  // ---------------------------------------------------------------------------

  lemma {:induction false} PushedMembers(box: seq<Msg>, ds: seq<Msg>, j: nat)
    ensures forall m :: m in Pushed(box, ds, j) ==> m in box || m in ds
    ensures forall m :: m in box ==> m in Pushed(box, ds, j)
    ensures forall d :: d in ds && d.to == j ==> d in Pushed(box, ds, j)
  {
    if ds != [] {
      var n := |ds| - 1;
      PushedMembers(box, ds[..n], j);
      assert ds == ds[..n] + [ds[n]];
    }
  }

  lemma {:induction false} UndueMembers(ms: seq<Msg>, t1: int)
    ensures forall m :: m in Undue(ms, t1) || m in DueLastFirst(ms, t1) ==> m in ms
  {
    if ms != [] {
      UndueMembers(ms[1..], t1);
      assert ms == [ms[0]] + ms[1..];
    }
  }

  ghost predicate All(ms: seq<Msg>, p: Msg -> bool) { forall m :: m in ms ==> p(m) }

  /** Every call delivers only messages with a property. */
  ghost predicate Delivers<A>(bw: real, caps: seq<real>, t0: int, hs: seq<Step<A>>, p: Msg -> bool)
    requires Sized(caps, hs)
  {
    hs != [] ==>
      && Delivers(bw, caps, t0, hs[..|hs| - 1], p)
      && (hs[|hs| - 1].Called? ==> All(NetAfter(bw, caps, t0, hs).delivered, p))
  }

  ghost predicate ArrivedAs<A>(bw: real, caps: seq<real>, t0: int, hs: seq<Step<A>>, j: nat, p: Msg -> bool)
    requires Sized(caps, hs)
  {
    var post := PostOf(bw, caps, t0, hs, j);
    All(Messages(post.stack), p) && All(LogMessages(post.log), p)
  }

  lemma AllPushed(box: seq<Msg>, ds: seq<Msg>, j: nat, p: Msg -> bool)
    requires All(box, p) && All(ds, p)
    ensures All(Pushed(box, ds, j), p)
  {
    PushedMembers(box, ds, j);
  }

  lemma AllFiltered(box: seq<Msg>, log: seq<Msg>, t1: int, p: Msg -> bool)
    requires All(box, p) && All(log, p)
    ensures All(Undue(box, t1), p) && All(log + DueLastFirst(box, t1), p)
  {
    UndueMembers(box, t1);
  }

  lemma ArrivedStep<A>(bw: real, caps: seq<real>, t0: int, hs: seq<Step<A>>, j: nat, p: Msg -> bool)
    requires Sized(caps, hs) && hs != [] && ArrivedAs(bw, caps, t0, hs[..|hs| - 1], j, p)
    requires hs[|hs| - 1].Called? ==> All(NetAfter(bw, caps, t0, hs).delivered, p)
    ensures ArrivedAs(bw, caps, t0, hs, j, p)
  {
    var post := PostOf(bw, caps, t0, hs[..|hs| - 1], j);
    PostStep(bw, caps, t0, hs, j);
    match hs[|hs| - 1]
    case Called(_, _) => AllPushed(Messages(post.stack), NetAfter(bw, caps, t0, hs).delivered, j, p);
    case Reading(_, t1) => AllFiltered(Messages(post.stack), LogMessages(post.log), t1, p);
  }

  lemma {:induction false} AllArrived<A>(bw: real, caps: seq<real>, t0: int, hs: seq<Step<A>>, j: nat, p: Msg -> bool)
    requires Sized(caps, hs) && Delivers(bw, caps, t0, hs, p)
    ensures ArrivedAs(bw, caps, t0, hs, j, p)
  {
    if hs != [] {
      AllArrived(bw, caps, t0, hs[..|hs| - 1], j, p);
      ArrivedStep(bw, caps, t0, hs, j, p);
    }
  }

  // ---------------------------------------------------------------------------
  // Bytes
  // ---------------------------------------------------------------------------

  function Spelled(o: Option<seq<Msg>>): seq<Msg> { if o.Some? then o.value else [] }

  /** The outboxes that the links spell. */
  ghost function SendersOf<A>(s: LinkedNet<A>, caps: seq<real>, n: nat): seq<Sender>
  {
    seq(|caps|, i requires 0 <= i < |caps| => Sender(caps[i], Spelled(OutboxOf(s, i, n))))
  }

  /** Every message that waits in an inbox or was read has a property. */
  ghost predicate Arrived<A>(s: LinkedNet<A>, n: nat, p: Msg -> bool)
  {
    && (forall j :: 0 <= j < |s.heap.inbox| ==> All(Spelled(InboxOf(s, j, n)), p))
    && (forall j :: 0 <= j < |s.logs| ==> All(s.logs[j], p))
  }

  lemma SendersSpelled<A>(s: LinkedNet<A>, n: nat, bw: real, caps: seq<real>, t0: int, hs: seq<Step<A>>)
    requires Sized(caps, hs) && Spells(s, n, bw, caps, t0, hs) && Rates(NetAfter(bw, caps, t0, hs).nifs, caps)
    ensures SendersOf(s, caps, n) == NetAfter(bw, caps, t0, hs).nifs
  {
  }

  lemma ReceivedAll<A>(s: LinkedNet<A>, n: nat, bw: real, caps: seq<real>, t0: int, hs: seq<Step<A>>, p: Msg -> bool)
    requires Sized(caps, hs) && Spells(s, n, bw, caps, t0, hs) && |s.heap.inbox| == |caps|
    requires Delivers(bw, caps, t0, hs, p)
    ensures Arrived(s, n, p)
  {
    forall j | 0 <= j < |caps| ensures All(Spelled(InboxOf(s, j, n)), p) && All(s.logs[j], p) {
      AllArrived(bw, caps, t0, hs, j, p);
      assert InboxOf(s, j, n) == Some(Boxes(bw, caps, t0, hs)[j]);
      assert s.logs[j] == LogMessages(PostOf(bw, caps, t0, hs, j).log);
    }
  }

  ghost predicate Whole(m: Msg) { m.sent == m.recv == m.size }

  lemma TimelyEarlier<A>(bw: real, caps: seq<real>, t0: int, hs: seq<Step<A>>)
    requires hs != [] && Timely(bw, caps, t0, Calls(hs))
    ensures Timely(bw, caps, t0, Calls(hs[..|hs| - 1]))
  {
    var ts := Calls(hs[..|hs| - 1]);
    TimelyPrefix(bw, caps, t0, Calls(hs), |ts|);
    assert Calls(hs)[..|ts|] == ts;
  }

  lemma {:induction false} DeliversWhole<A>(bw: real, caps: seq<real>, t0: int, hs: seq<Step<A>>)
    requires Sized(caps, hs) && Timely(bw, caps, t0, Calls(hs))
    ensures Delivers(bw, caps, t0, hs, Whole)
  {
    if hs != [] {
      TimelyEarlier(bw, caps, t0, hs);
      DeliversWhole(bw, caps, t0, hs[..|hs| - 1]);
      BytesConserved(bw, caps, t0, Calls(hs));
    }
  }

  /** Conservation on the links: along timely runs in which finished messages are always in front, the linked
      outboxes keep the accounts, and every message in an inbox, or read, was received in full and not a byte
      more. */
  lemma LinkedBytesConserved<A>(bw: real, caps: seq<real>, t0: int, hs: seq<Step<A>>, n: nat) returns (s: LinkedNet<A>)
    requires Proper(caps, hs) && AlwaysInFront(bw, caps, t0, hs) && Needed(bw, caps, t0, hs) <= n
    requires Timely(bw, caps, t0, Calls(hs))
    ensures LinkedAfter(bw, caps, hs, n) == Some(s)
    ensures Accounted(Net(SendersOf(s, caps, n), s.used, [], NetAfter(bw, caps, t0, hs).now, s.next), bw)
    ensures Arrived(s, n, Whole)
  {
    s := LinkedSpells(bw, caps, t0, hs, n);
    InboxesCounted(bw, caps, t0, hs, n, s);
    BytesConserved(bw, caps, t0, Calls(hs));
    SendersSpelled(s, n, bw, caps, t0, hs);
    DeliversWhole(bw, caps, t0, hs);
    ReceivedAll(s, n, bw, caps, t0, hs, Whole);
  }

  lemma InboxesCounted<A>(bw: real, caps: seq<real>, t0: int, hs: seq<Step<A>>, n: nat, s: LinkedNet<A>)
    requires Proper(caps, hs) && AlwaysInFront(bw, caps, t0, hs) && Needed(bw, caps, t0, hs) <= n
    requires LinkedAfter(bw, caps, hs, n) == Some(s)
    ensures |s.heap.inbox| == |caps|
  {
    var r, l := LinkedRefines(bw, caps, t0, hs, n);
  }

  ghost predicate Sending(m: Msg) { m.state == NMS_SENDING }

  ghost predicate Marked(m: Msg) { m.state == NMS_DELIVERED }

  lemma {:induction false} DeliversMarked<A>(bw: real, caps: seq<real>, t0: int, hs: seq<Step<A>>)
    requires Sized(caps, hs) && bw != 0.0
    ensures Delivers(bw, caps, t0, hs, Marked)
  {
    if hs != [] {
      DeliversMarked(bw, caps, t0, hs[..|hs| - 1]);
      CallsSized(caps, hs);
      if hs[|hs| - 1].Called? { NothingRejected(bw, caps, t0, Calls(hs)); }
    }
  }

  /** With any bandwidth, every message in a linked outbox is marked as being sent, and every message in an inbox
      or read as delivered. */
  lemma LinkedNothingRejected<A>(bw: real, caps: seq<real>, t0: int, hs: seq<Step<A>>, n: nat) returns (s: LinkedNet<A>)
    requires Proper(caps, hs) && AlwaysInFront(bw, caps, t0, hs) && Needed(bw, caps, t0, hs) <= n && bw != 0.0
    ensures LinkedAfter(bw, caps, hs, n) == Some(s)
    ensures forall i :: 0 <= i < |caps| ==> All(Spelled(OutboxOf(s, i, n)), Sending)
    ensures Arrived(s, n, Marked)
  {
    s := LinkedSpells(bw, caps, t0, hs, n);
    InboxesCounted(bw, caps, t0, hs, n, s);
    forall i | 0 <= i < |caps| ensures All(Spelled(OutboxOf(s, i, n)), Sending) {
      CallsSized(caps, hs);
      if Calls(hs) != [] { NothingRejected(bw, caps, t0, Calls(hs)); }
      assert OutboxOf(s, i, n) == Some(NetAfter(bw, caps, t0, hs).nifs[i].box);
    }
    DeliversMarked(bw, caps, t0, hs);
    ReceivedAll(s, n, bw, caps, t0, hs, Marked);
  }

  // ---------------------------------------------------------------------------
  // When a message arrives
  // ---------------------------------------------------------------------------

  /** The linked outboxes and, for what was delivered, the linked inbox of interface j. */
  ghost function NetOf<A>(s: LinkedNet<A>, n: nat, caps: seq<real>, j: nat, now: int): (r: Net)
    ensures |r.nifs| == |caps|
  {
    Net(SendersOf(s, caps, n), s.used, Spelled(InboxOf(s, j, n)), now, s.next)
  }

  /** Exact delivery on the links: after any call of a timely run in which finished messages are always in front,
      a message that always got its interface's rate is in its outbox, on schedule, until it is due; the first
      call not before that time comes at it, and puts the message, complete, into the inbox it is for. */
  lemma LinkedExactDelivery<A>(bw: real, caps: seq<real>, t0: int, hs: seq<Step<A>>, n: nat, a: nat, i: nat, id: nat)
    returns (s: LinkedNet<A>, o: Offer)
    requires Proper(caps, hs) && AlwaysInFront(bw, caps, t0, hs) && Needed(bw, caps, t0, hs) <= n
    requires hs != [] && hs[|hs| - 1].Called? && Timely(bw, caps, t0, Calls(hs))
    requires a < |Calls(hs)| && i < |caps| && QueuedOnce(Calls(hs), i, id, a)
    requires AlwaysFullShare(bw, caps, t0, Calls(hs), i, id)
    ensures LinkedAfter(bw, caps, hs, n) == Some(s) && Calls(hs)[a].offers[i] == Some(o)
    ensures Followed(NetOf(s, n, caps, o.to, hs[|hs| - 1].t.now), i, id, o, caps[i], Calls(hs)[a].now,
                     Previous(Calls(hs), a), hs[|hs| - 1].t)
  {
    s := LinkedSpells(bw, caps, t0, hs, n);
    var ts := Calls(hs);
    CallsSized(caps, hs);
    ExactDelivery(bw, caps, t0, ts, a, i, id);
    o := ts[a].offers[i].value;
    assert ts[|ts| - 1] == hs[|hs| - 1].t;
    var net := NetAfter(bw, caps, t0, hs);
    assert Followed(net, i, id, o, caps[i], ts[a].now, Previous(ts, a), ts[|ts| - 1]);
    BytesConserved(bw, caps, t0, ts);
    SendersSpelled(s, n, bw, caps, t0, hs);
    PostStep(bw, caps, t0, hs, o.to);
    PushedMembers(Messages(PostOf(bw, caps, t0, hs[..|hs| - 1], o.to).stack), net.delivered, o.to);
    FollowedIn(net, NetOf(s, n, caps, o.to, hs[|hs| - 1].t.now), i, id, o, caps[i], ts[a].now, Previous(ts, a),
               ts[|ts| - 1]);
  }

  lemma FollowedIn(net: Net, other: Net, i: nat, id: nat, o: Offer, r: real, start: int, before: int, t: Tick)
    requires i < |net.nifs| && 0.0 < r && Followed(net, i, id, o, r, start, before, t)
    requires other.nifs == net.nifs && forall d :: d in net.delivered && d.to == o.to ==> d in other.delivered
    ensures Followed(other, i, id, o, r, start, before, t)
  {
    var due := Arrival(o, r, start);
    if before < due <= t.now { ArrivesToo(net.delivered, other.delivered, id, o, start, due + Ceil(t.latency)); }
  }

  lemma ArrivesToo(ds: seq<Msg>, box: seq<Msg>, id: nat, o: Offer, start: int, end: int)
    requires Arrives(ds, id, o, start, end) && forall d :: d in ds && d.to == o.to ==> d in box
    ensures Arrives(box, id, o, start, end)
  {
  }
}
