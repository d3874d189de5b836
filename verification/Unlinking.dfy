/** What taking finished messages out of a linked outbox leaves, whichever are finished. A message is queued
    without a link back, so that one behind another cannot be unlinked. */
module Unlinking {
  import opened Options
  import opened Sync
  import opened Network
  import opened Links
  import opened OrderlyLinks

  ghost predicate Distinct<A>(s: seq<A>)
  {
    forall p, q :: 0 <= p < q < |s| ==> s[p] != s[q]
  }

  /** The index of the first of k messages that is not finished, or k. */
  function FirstOpen(b: seq<Msg>, k: nat): nat
    requires k <= |b|
  {
    if k == 0 then 0
    else
      var r := FirstOpen(b, k - 1);
      if r == k - 1 && Done(b[k - 1]) then k else r
  }

  lemma {:induction false} FirstOpenIs(b: seq<Msg>, k: nat)
    requires k <= |b|
    ensures var r := FirstOpen(b, k);
            r <= k && (r < k ==> !Done(b[r])) && forall q :: 0 <= q < r ==> Done(b[q])
  {
    if k > 0 { FirstOpenIs(b, k - 1); }
  }

  /** A cell of the outbox when the first k messages have been looked at. */
  ghost predicate LeftAt<A>(g: Heap<A>, s: seq<A>, b: seq<Msg>, k: nat, q: nat, now: int, latency: real)
    requires q < |s| == |b|
  {
    && s[q] in g.cells
    && if k <= q then g.cells[s[q]] == Cell(b[q], At(s, q + 1), None)
       else if Done(b[q]) then g.cells[s[q]].msg == Deliver(b[q], now, latency)
       else g.cells[s[q]].next == At(s, q + 1) && g.cells[s[q]].msg == b[q]
  }

  ghost predicate Left<A>(g: Heap<A>, s: seq<A>, b: seq<Msg>, i: nat, k: nat, now: int, latency: real)
    requires k <= |s| == |b|
  {
    && i < |g.outbox| && g.outbox[i] == At(s, FirstOpen(b, k))
    && (forall q :: 0 <= q < |b| ==> b[q].to < |g.inbox|)
    && (forall q :: 0 <= q < |s| ==> LeftAt(g, s, b, k, q, now, latency))
    && OnNoTop(g, s, k)
  }

  /** None of the cells from k on is the top of an inbox. */
  ghost predicate OnNoTop<A>(g: Heap<A>, s: seq<A>, k: nat)
  {
    forall j, q :: 0 <= j < |g.inbox| && k <= q < |s| ==> g.inbox[j] != Some(s[q])
  }

  lemma LeftFirst<A>(h: Heap<A>, l: Lists<A>, nifs: seq<Sender>, boxes: seq<seq<Msg>>, i: nat, now: int, latency: real)
    requires Represents(h, l, nifs, boxes) && i < |nifs|
    ensures |l.outs[i]| == |nifs[i].box| && Distinct(l.outs[i])
    ensures Left(h, l.outs[i], nifs[i].box, i, 0, now, latency)
  {
    var s, b := l.outs[i], nifs[i].box;
    assert OutboxIs(h, l, i, b);
    forall q | 0 <= q < |s| ensures LeftAt(h, s, b, 0, q, now, latency) { assert NodeAt(h.cells, s, b, q); }
    forall j, q | 0 <= j < |h.inbox| && 0 <= q < |s| ensures h.inbox[j] != Some(s[q]) {
      assert InboxIs(h, l, j, boxes[j]);
    }
  }

  lemma TakeAnywhere<A>(g: Heap<A>, s: seq<A>, b: seq<Msg>, i: nat, k: nat, now: int, latency: real)
    requires k < |s| == |b| && Distinct(s) && Left(g, s, b, i, k, now, latency)
    requires s[k] in g.cells && b[k].to < |g.inbox|
    ensures var f := Take(g, i, s[k], now, latency);
            && f.outbox == (if g.outbox[i] == Some(s[k]) then g.outbox[i := At(s, k + 1)] else g.outbox)
            && f.inbox == g.inbox[b[k].to := Some(s[k])]
            && OthersSame(g.cells, f.cells, s[k], g.inbox[b[k].to])
            && f.cells[s[k]] == Cell(Deliver(b[k], now, latency), g.inbox[b[k].to], None)
  {
    assert LeftAt(g, s, b, k, k, now, latency);
    if k + 1 < |s| { assert LeftAt(g, s, b, k, k + 1, now, latency) && s[k + 1] != s[k]; }
  }

  lemma LeftNext<A>(g: Heap<A>, f: Heap<A>, s: seq<A>, b: seq<Msg>, i: nat, k: nat, now: int, latency: real)
    requires k < |s| == |b| && Distinct(s) && Left(g, s, b, i, k, now, latency)
    requires |f.inbox| == |g.inbox| && |f.outbox| == |g.outbox| && b[k].to < |g.inbox|
    requires if Done(b[k]) then
               && f.outbox == (if g.outbox[i] == Some(s[k]) then g.outbox[i := At(s, k + 1)] else g.outbox)
               && f.inbox == g.inbox[b[k].to := Some(s[k])]
               && OthersSame(g.cells, f.cells, s[k], g.inbox[b[k].to])
               && s[k] in f.cells && f.cells[s[k]].msg == Deliver(b[k], now, latency)
             else f == g
    ensures Left(f, s, b, i, k + 1, now, latency)
  {
    var n := k + 1;
    FirstOpenIs(b, k);
    assert OnNoTop(f, s, n) by { assert forall q :: k < q < |s| ==> s[q] != s[k]; }
    forall q | 0 <= q < |s| ensures LeftAt(f, s, b, n, q, now, latency) {
      assert LeftAt(g, s, b, k, q, now, latency);
      assert q != k ==> s[q] != s[k];
    }
  }

  /** Whatever is finished, the walk ends, and leaves this. */
  lemma {:induction false} AnyWalk<A>(g: Heap<A>, s: seq<A>, b: seq<Msg>, i: nat, k: nat, now: int, latency: real,
                                      rv: Time, n: nat, walk: Option<(Heap<A>, Time)>) returns (f: Heap<A>, t: Time)
    requires k <= |s| == |b| <= k + n && Distinct(s) && Left(g, s, b, i, k, now, latency)
    requires walk == ReceiveFrom(g, i, At(s, k), now, latency, rv, n)
    ensures walk == Some((f, t)) && Left(f, s, b, i, |s|, now, latency)
    decreases n
  {
    if k == |s| {
      AnyEnd(g, s, i, now, latency, rv, n);
      f, t := g, rv;
    } else {
      var e, next := AnyStep(g, s, b, i, k, now, latency, rv, n);
      f, t := AnyWalk(e, s, b, i, k + 1, now, latency, next, n - 1, walk);
    }
  }

  /** What looking at message k touches: its cell, the links back of others, and the heads of outbox i and of the
      inbox it is for. */
  ghost predicate StepLeaves<A>(g: Heap<A>, e: Heap<A>, s: seq<A>, b: seq<Msg>, i: nat, k: nat)
    requires k < |s| == |b|
  {
    && |e.outbox| == |g.outbox| && (forall p :: 0 <= p < |g.outbox| && p != i ==> e.outbox[p] == g.outbox[p])
    && (e == g || (b[k].to < |g.inbox| && e.inbox == g.inbox[b[k].to := Some(s[k])]
                   && OthersSame(g.cells, e.cells, s[k], g.inbox[b[k].to])))
  }

  ghost predicate Apart<A>(s: seq<A>, r: seq<A>)
  {
    forall p, q :: 0 <= p < |s| && 0 <= q < |r| ==> s[p] != r[q]
  }

  lemma AsideStep<A>(g: Heap<A>, e: Heap<A>, s: seq<A>, b: seq<Msg>, i: nat, k: nat, now: int, latency: real,
                     r: seq<A>, c: seq<Msg>, p: nat, m: nat)
    requires k < |s| == |b| && p != i && Apart(s, r) && m <= |r| == |c|
    requires StepLeaves(g, e, s, b, i, k) && Left(g, r, c, p, m, now, latency)
    ensures Left(e, r, c, p, m, now, latency)
  {
    assert OnNoTop(g, r, m);
    forall q | 0 <= q < |r| ensures LeftAt(e, r, c, m, q, now, latency) {
      assert LeftAt(g, r, c, m, q, now, latency);
      assert s[k] != r[q];
    }
    forall j, q | 0 <= j < |e.inbox| && m <= q < |r| ensures e.inbox[j] != Some(r[q]) {
      assert s[k] != r[q];
      if e != g && j != b[k].to { assert e.inbox[j] == g.inbox[j]; }
    }
  }

  /** Walking along one outbox leaves another as it was. */
  lemma {:induction false} AsideWalk<A>(g: Heap<A>, s: seq<A>, b: seq<Msg>, i: nat, k: nat, now: int, latency: real,
                                        rv: Time, n: nat, walk: Option<(Heap<A>, Time)>, f: Heap<A>, t: Time,
                                        r: seq<A>, c: seq<Msg>, p: nat, m: nat)
    requires k <= |s| == |b| <= k + n && Distinct(s) && Left(g, s, b, i, k, now, latency)
    requires walk == ReceiveFrom(g, i, At(s, k), now, latency, rv, n) && walk == Some((f, t))
    requires p != i && Apart(s, r) && m <= |r| == |c| && Left(g, r, c, p, m, now, latency)
    ensures Left(f, r, c, p, m, now, latency)
    decreases n
  {
    if k == |s| {
      AnyEnd(g, s, i, now, latency, rv, n);
    } else {
      var e, next := AnyStep(g, s, b, i, k, now, latency, rv, n);
      AsideStep(g, e, s, b, i, k, now, latency, r, c, p, m);
      AsideWalk(e, s, b, i, k + 1, now, latency, next, n - 1, walk, f, t, r, c, p, m);
    }
  }

  lemma AnyEnd<A>(g: Heap<A>, s: seq<A>, i: nat, now: int, latency: real, rv: Time, n: nat)
    ensures ReceiveFrom(g, i, At(s, |s|), now, latency, rv, n) == Some((g, rv))
  {
  }

  lemma AnyStep<A>(g: Heap<A>, s: seq<A>, b: seq<Msg>, i: nat, k: nat, now: int, latency: real, rv: Time, n: nat)
    returns (e: Heap<A>, next: Time)
    requires k < |s| == |b| && 0 < n && Distinct(s) && Left(g, s, b, i, k, now, latency)
    ensures Left(e, s, b, i, k + 1, now, latency)
    ensures ReceiveFrom(g, i, At(s, k), now, latency, rv, n)
            == ReceiveFrom(e, i, At(s, k + 1), now, latency, next, n - 1)
    ensures StepLeaves(g, e, s, b, i, k)
  {
    next := Min(rv, Call(b[k], now, latency));
    assert LeftAt(g, s, b, k, k, now, latency);
    if Done(b[k]) {
      TakeAnywhere(g, s, b, i, k, now, latency);
      e := Take(g, i, s[k], now, latency);
    } else {
      e := g;
    }
    LeftNext(g, e, s, b, i, k, now, latency);
    if k + 1 < |s| { assert LeftAt(e, s, b, k + 1, k + 1, now, latency); }
  }

  lemma {:induction false} KeptUnfinished(b: seq<Msg>)
    ensures forall q :: 0 <= q < |Kept(b)| ==> !Done(Kept(b)[q])
  {
    if b != [] { KeptUnfinished(b[..|b| - 1]); }
  }

  /** The outbox still leads to the cell at index q, if no finished message comes before it after the first
      unfinished one. */
  lemma {:induction false} StillLeads<A>(f: Heap<A>, s: seq<A>, b: seq<Msg>, i: nat, now: int, latency: real,
                                         c: seq<A>, ms: seq<Msg>, e: nat, q: nat)
    requires |s| == |b| && Left(f, s, b, i, |s|, now, latency) && Listed(f.cells, f.outbox[i], c, ms)
    requires e == FirstOpen(b, |s|) && e <= q < |s| && forall p :: e <= p < q ==> !Done(b[p])
    ensures q - e < |c| && c[q - e] == s[q]
  {
    if e < q {
      StillLeads(f, s, b, i, now, latency, c, ms, e, q - 1);
      assert LeftAt(f, s, b, |s|, q - 1, now, latency) && NodeAt(f.cells, c, ms, q - 1 - e);
    }
  }

  /** The first finished message behind an unfinished one. */
  lemma FirstBehind(b: seq<Msg>) returns (q: nat)
    requires !FinishedInFront(b)
    ensures q < |b| && Done(b[q]) && FirstOpen(b, |b|) < q && forall p :: FirstOpen(b, |b|) <= p < q ==> !Done(b[p])
  {
    var e := FirstOpen(b, |b|);
    FirstOpenIs(b, |b|);
    var p :| 0 < p < |b| && Done(b[p]) && !Done(b[p - 1]);
    q := e;
    while q < p && !Done(b[q])
      invariant e <= q <= p && forall r :: e <= r < q ==> !Done(b[r])
    {
      q := q + 1;
    }
  }

  /** Some lists show that the outboxes hold these messages. */
  ghost predicate Holds<A(!new)>(g: Heap<A>, nifs: seq<Sender>)
  {
    exists v, more :: Represents(g, v, nifs, more)
  }

  /** A cell that has been delivered and is still in its outbox is not one of the unfinished messages. */
  lemma Strands<A>(g: Heap<A>, s: seq<A>, b: seq<Msg>, i: nat, now: int, latency: real, v: Lists<A>, nifs: seq<Sender>,
                   more: seq<seq<Msg>>)
    requires |s| == |b| && Left(g, s, b, i, |s|, now, latency) && i < |nifs| && nifs[i].box == b
    requires Represents(g, v, KeptAll(nifs), more)
    ensures FinishedInFront(b)
  {
    if !FinishedInFront(b) {
      var w := KeptAll(nifs);
      var q := FirstBehind(b);
      assert w[i].box == Kept(b) && OutboxIs(g, v, i, w[i].box);
      var e := FirstOpen(b, |s|);
      StillLeads(g, s, b, i, now, latency, v.outs[i], Kept(b), e, q);
      assert NodeAt(g.cells, v.outs[i], Kept(b), q - e) && LeftAt(g, s, b, |s|, q, now, latency);
      assert Done(Kept(b)[q - e]);
      KeptUnfinished(b);
    }
  }
}
