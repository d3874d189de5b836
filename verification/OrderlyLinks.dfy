/** Links as they are meant to be: every outbox and every inbox is a list, no cell is in two places, and no
    cell of an outbox has a link back. What the walks of a call do to such lists. */
module OrderlyLinks {
  import opened Options
  import opened Sync
  import opened Network
  import opened Links

  // ---------------------------------------------------------------------------
  // Lists
  // ---------------------------------------------------------------------------

  /** Where a cell is: in an outbox or an inbox, so many cells from the end. */
  datatype Place = Out(i: nat, d: nat) | In(j: nat, d: nat)

  datatype Lists<A> = Lists(outs: seq<seq<A>>, ins: seq<seq<A>>, place: map<A, Place>)

  function At<A>(s: seq<A>, k: nat): Option<A> { if k < |s| then Some(s[k]) else None }

  ghost predicate NodeAt<A>(cells: map<A, Cell<A>>, s: seq<A>, ms: seq<Msg>, k: nat)
    requires k < |s| == |ms|
  {
    s[k] in cells && cells[s[k]].next == At(s, k + 1) && cells[s[k]].msg == ms[k]
  }

  /** The cells from `head` on are s, and carry the messages ms. */
  ghost predicate Listed<A>(cells: map<A, Cell<A>>, head: Option<A>, s: seq<A>, ms: seq<Msg>)
  {
    |s| == |ms| && head == At(s, 0) && forall k :: 0 <= k < |s| ==> NodeAt(cells, s, ms, k)
  }

  ghost predicate NoBack<A>(cells: map<A, Cell<A>>, s: seq<A>)
  {
    forall k :: 0 <= k < |s| ==> s[k] in cells && cells[s[k]].prev == None
  }

  ghost predicate PlacedOut<A>(place: map<A, Place>, s: seq<A>, i: nat)
  {
    forall k :: 0 <= k < |s| ==> s[k] in place && place[s[k]] == Out(i, |s| - 1 - k)
  }

  ghost predicate PlacedIn<A>(place: map<A, Place>, s: seq<A>, j: nat)
  {
    forall k :: 0 <= k < |s| ==> s[k] in place && place[s[k]] == In(j, |s| - 1 - k)
  }

  ghost predicate OutboxIs<A>(h: Heap<A>, l: Lists<A>, i: nat, box: seq<Msg>)
    requires i < |h.outbox| == |l.outs|
  {
    Listed(h.cells, h.outbox[i], l.outs[i], box) && NoBack(h.cells, l.outs[i]) && PlacedOut(l.place, l.outs[i], i)
  }

  ghost predicate InboxIs<A>(h: Heap<A>, l: Lists<A>, j: nat, box: seq<Msg>)
    requires j < |h.inbox| == |l.ins|
  {
    Listed(h.cells, h.inbox[j], l.ins[j], box) && PlacedIn(l.place, l.ins[j], j)
  }

  /** The lists hold these messages: the outboxes those of nifs, the inboxes those of boxes. */
  ghost predicate Represents<A>(h: Heap<A>, l: Lists<A>, nifs: seq<Sender>, boxes: seq<seq<Msg>>)
  {
    && |h.outbox| == |l.outs| == |nifs| == |h.inbox| == |l.ins| == |boxes|
    && Addressed(nifs)
    && (forall a :: a in l.place ==> a in h.cells)
    && (forall i :: 0 <= i < |nifs| ==> OutboxIs(h, l, i, nifs[i].box))
    && (forall j :: 0 <= j < |boxes| ==> InboxIs(h, l, j, boxes[j]))
  }

  /** Cells other than a and b are the same; b keeps its message and its next link. */
  ghost predicate OthersSame<A>(c: map<A, Cell<A>>, d: map<A, Cell<A>>, a: A, b: Option<A>)
  {
    && c.Keys <= d.Keys
    && (forall x :: x in c && x != a && b != Some(x) ==> d[x] == c[x])
    && (b.Some? && b.value in c && b.value != a ==> d[b.value] == c[b.value].(prev := d[b.value].prev))
  }

  lemma ListKept<A>(c: map<A, Cell<A>>, d: map<A, Cell<A>>, head: Option<A>, s: seq<A>, ms: seq<Msg>, a: A,
                    b: Option<A>)
    requires Listed(c, head, s, ms) && OthersSame(c, d, a, b)
    requires forall k :: 0 <= k < |s| ==> s[k] != a
    ensures Listed(d, head, s, ms)
  {
    forall k | 0 <= k < |s| ensures NodeAt(d, s, ms, k) { assert NodeAt(c, s, ms, k); }
  }

  /** Another outbox or inbox of a changed heap. */
  lemma OutKept<A>(h: Heap<A>, g: Heap<A>, l: Lists<A>, m: Lists<A>, i: nat, box: seq<Msg>, a: A, b: Option<A>)
    requires i < |h.outbox| == |g.outbox| == |l.outs| == |m.outs| && OutboxIs(h, l, i, box)
    requires OthersSame(h.cells, g.cells, a, b) && g.outbox[i] == h.outbox[i] && m.outs[i] == l.outs[i]
    requires a in l.place ==> l.place[a].In? || l.place[a].i != i
    requires b.Some? ==> b.value == a || b.value !in l.place || l.place[b.value].In? || l.place[b.value].i != i
    requires forall x :: x in l.place && x != a ==> x in m.place && m.place[x] == l.place[x]
    ensures OutboxIs(g, m, i, box)
  {
    ListKept(h.cells, g.cells, h.outbox[i], l.outs[i], box, a, b);
  }

  lemma InKept<A>(h: Heap<A>, g: Heap<A>, l: Lists<A>, m: Lists<A>, j: nat, box: seq<Msg>, a: A, b: Option<A>)
    requires j < |h.inbox| == |g.inbox| == |l.ins| == |m.ins| && InboxIs(h, l, j, box)
    requires OthersSame(h.cells, g.cells, a, b) && g.inbox[j] == h.inbox[j] && m.ins[j] == l.ins[j]
    requires a in l.place ==> l.place[a].Out? || l.place[a].j != j
    requires forall x :: x in l.place && x != a ==> x in m.place && m.place[x] == l.place[x]
    ensures InboxIs(g, m, j, box)
  {
    ListKept(h.cells, g.cells, h.inbox[j], l.ins[j], box, a, b);
  }

  // ---------------------------------------------------------------------------
  // Queueing
  // ---------------------------------------------------------------------------

  function Enqueued<A>(l: Lists<A>, i: nat, a: A): Lists<A>
    requires i < |l.outs|
  {
    l.(outs := l.outs[i := [a] + l.outs[i]], place := l.place[a := Out(i, |l.outs[i]|)])
  }

  function Boxed(nifs: seq<Sender>, i: nat, box: seq<Msg>): (r: seq<Sender>)
    requires i < |nifs|
    ensures |r| == |nifs|
  {
    nifs[i := nifs[i].(box := box)]
  }

  lemma ListedInFront<A>(c: map<A, Cell<A>>, d: map<A, Cell<A>>, head: Option<A>, s: seq<A>, ms: seq<Msg>, a: A, m: Msg)
    requires Listed(c, head, s, ms) && a !in c && d == c[a := Cell(m, head, None)]
    ensures Listed(d, Some(a), [a] + s, [m] + ms)
  {
    forall k | 0 <= k < |s| + 1 ensures NodeAt(d, [a] + s, [m] + ms, k) {
      if k > 0 { assert NodeAt(c, s, ms, k - 1); }
    }
  }

  lemma QueueKeeps<A>(h: Heap<A>, l: Lists<A>, nifs: seq<Sender>, boxes: seq<seq<Msg>>, i: nat, a: A, m: Msg)
    requires Represents(h, l, nifs, boxes) && i < |nifs| && a !in h.cells && m.to < |nifs|
    ensures Represents(Queue(h, i, a, m), Enqueued(l, i, a), Boxed(nifs, i, [m] + nifs[i].box), boxes)
  {
    var g, e := Queue(h, i, a, m), Enqueued(l, i, a);
    assert g == Heap(h.cells[a := Cell(m, h.outbox[i], None)], h.outbox[i := Some(a)], h.inbox);
    assert OutboxIs(h, l, i, nifs[i].box);
    ListedInFront(h.cells, g.cells, h.outbox[i], l.outs[i], nifs[i].box, a, m);
    forall p | 0 <= p < |nifs| && p != i ensures OutboxIs(g, e, p, nifs[p].box) {
      OutKept(h, g, l, e, p, nifs[p].box, a, None);
    }
    forall j | 0 <= j < |boxes| ensures InboxIs(g, e, j, boxes[j]) { InKept(h, g, l, e, j, boxes[j], a, None); }
  }

  // ---------------------------------------------------------------------------
  // Changing a message in place
  // ---------------------------------------------------------------------------

  lemma SetMsgKeeps<A>(h: Heap<A>, l: Lists<A>, nifs: seq<Sender>, boxes: seq<seq<Msg>>, i: nat, k: nat, m: Msg)
    requires Represents(h, l, nifs, boxes) && i < |nifs| && k < |nifs[i].box| && m.to == nifs[i].box[k].to
    ensures |l.outs[i]| == |nifs[i].box| && l.outs[i][k] in h.cells && h.cells[l.outs[i][k]].msg == nifs[i].box[k]
    ensures Represents(SetMsg(h, l.outs[i][k], m), l, Boxed(nifs, i, nifs[i].box[k := m]), boxes)
  {
    assert OutboxIs(h, l, i, nifs[i].box) && NodeAt(h.cells, l.outs[i], nifs[i].box, k);
    var a, s, ms := l.outs[i][k], l.outs[i], nifs[i].box[k := m];
    var g := SetMsg(h, a, m);
    forall q | 0 <= q < |s| ensures NodeAt(g.cells, s, ms, q) {
      assert NodeAt(h.cells, s, nifs[i].box, q);
      assert q != k ==> l.place[s[q]] != l.place[s[k]];
    }
    forall p | 0 <= p < |nifs| && p != i ensures OutboxIs(g, l, p, nifs[p].box) {
      OutKept(h, g, l, l, p, nifs[p].box, a, None);
    }
    forall j | 0 <= j < |boxes| ensures InboxIs(g, l, j, boxes[j]) { InKept(h, g, l, l, j, boxes[j], a, None); }
  }

  // ---------------------------------------------------------------------------
  // Walks that change messages in place
  // ---------------------------------------------------------------------------

  /** The cell of a message, and what changing the message in place leaves. */
  lemma StepInPlace<A>(h: Heap<A>, l: Lists<A>, nifs: seq<Sender>, boxes: seq<seq<Msg>>, i: nat, b: seq<Msg>, k: nat,
                       m: Msg)
    requires i < |nifs| && Represents(h, l, Boxed(nifs, i, b), boxes) && k < |b| && m.to == b[k].to
    ensures |l.outs[i]| == |b| && l.outs[i][k] in h.cells && h.cells[l.outs[i][k]].msg == b[k]
    ensures h.cells[l.outs[i][k]].next == At(l.outs[i], k + 1)
    ensures Represents(SetMsg(h, l.outs[i][k], m), l, Boxed(nifs, i, b[k := m]), boxes)
  {
    var v := Boxed(nifs, i, b);
    SetMsgKeeps(h, l, v, boxes, i, k, m);
    assert Boxed(v, i, b[k := m]) == Boxed(nifs, i, b[k := m]);
    assert OutboxIs(h, l, i, b) && NodeAt(h.cells, l.outs[i], b, k);
  }

  /** The first k messages are those of r, the others those of b. */
  function Changed(b: seq<Msg>, r: seq<Msg>, k: nat): (c: seq<Msg>)
    requires k <= |b| == |r|
    ensures |c| == |b|
  {
    r[..k] + b[k..]
  }

  ghost predicate AccruedAt(b: seq<Msg>, r: seq<Msg>, now: int, k: nat)
    requires k < |b| == |r|
  {
    r[k] == Accrue(b[k], now)
  }

  lemma UpdateStep<A>(h: Heap<A>, l: Lists<A>, nifs: seq<Sender>, boxes: seq<seq<Msg>>, i: nat, b: seq<Msg>,
                      r: seq<Msg>, k: nat, now: int, n: nat) returns (g: Heap<A>)
    requires i < |nifs| && k < |b| == |r| && 0 < n && Represents(h, l, Boxed(nifs, i, Changed(b, r, k)), boxes)
    requires r[k] == Accrue(b[k], now)
    ensures |l.outs[i]| == |b| && Represents(g, l, Boxed(nifs, i, Changed(b, r, k + 1)), boxes)
    ensures UpdateFrom(h, At(l.outs[i], k), now, n) == UpdateFrom(g, At(l.outs[i], k + 1), now, n - 1)
  {
    StepInPlace(h, l, nifs, boxes, i, Changed(b, r, k), k, r[k]);
    assert Changed(b, r, k)[k := r[k]] == Changed(b, r, k + 1);
    g := SetMsg(h, l.outs[i][k], r[k]);
  }

  lemma UpdateEnd<A>(h: Heap<A>, l: Lists<A>, i: nat, now: int, n: nat)
    requires i < |l.outs|
    ensures UpdateFrom(h, At(l.outs[i], |l.outs[i]|), now, n) == Some(h)
  {
  }

  lemma {:induction false} UpdateWalk<A>(h: Heap<A>, l: Lists<A>, nifs: seq<Sender>, boxes: seq<seq<Msg>>, i: nat,
                                         b: seq<Msg>, r: seq<Msg>, k: nat, now: int, n: nat,
                                         walk: Option<Heap<A>>) returns (g: Heap<A>)
    requires i < |nifs| && k <= |b| == |r| <= k + n && Represents(h, l, Boxed(nifs, i, Changed(b, r, k)), boxes)
    requires |l.outs[i]| == |b|
    requires forall q :: 0 <= q < |b| ==> AccruedAt(b, r, now, q)
    requires walk == UpdateFrom(h, At(l.outs[i], k), now, n)
    ensures walk == Some(g) && Represents(g, l, Boxed(nifs, i, r), boxes)
    decreases n
  {
    if k == |b| {
      assert Changed(b, r, k) == r;
      UpdateEnd(h, l, i, now, n);
      g := h;
    } else {
      assert AccruedAt(b, r, now, k);
      var f := UpdateStep(h, l, nifs, boxes, i, b, r, k, now, n);
      g := UpdateWalk(f, l, nifs, boxes, i, b, r, k + 1, now, n - 1, walk);
    }
  }

  lemma RateStep<A>(h: Heap<A>, l: Lists<A>, nifs: seq<Sender>, boxes: seq<seq<Msg>>, i: nat, b: seq<Msg>, r: seq<Msg>,
                    k: nat, bw: real, used: real, cap: real, n: nat) returns (g: Heap<A>)
    requires i < |nifs| && k < |b| == |r| && 0 < n && Represents(h, l, Boxed(nifs, i, Changed(b, r, k)), boxes)
    requires ServedAt(bw, used, cap, b, r, k)
    ensures |l.outs[i]| == |b| && Represents(g, l, Boxed(nifs, i, Changed(b, r, k + 1)), boxes)
    ensures RateFrom(h, At(l.outs[i], k), bw, used + Load(r[..k]), cap, n)
            == RateFrom(g, At(l.outs[i], k + 1), bw, used + Load(r[..k + 1]), cap, n - 1)
  {
    StepInPlace(h, l, nifs, boxes, i, Changed(b, r, k), k, r[k]);
    LoadSnoc(r, k);
    assert Changed(b, r, k)[k := r[k]] == Changed(b, r, k + 1);
    g := SetMsg(h, l.outs[i][k], r[k]);
  }

  lemma {:induction false} RateWalk<A>(h: Heap<A>, l: Lists<A>, nifs: seq<Sender>, boxes: seq<seq<Msg>>, i: nat,
                                       b: seq<Msg>, r: seq<Msg>, k: nat, bw: real, used: real, cap: real, n: nat)
    returns (g: Heap<A>)
    requires i < |nifs| && k <= |b| == |r| <= k + n && Represents(h, l, Boxed(nifs, i, Changed(b, r, k)), boxes)
    requires |l.outs[i]| == |b|
    requires forall q :: 0 <= q < |b| ==> ServedAt(bw, used, cap, b, r, q)
    ensures RateFrom(h, At(l.outs[i], k), bw, used + Load(r[..k]), cap, n) == Some((g, used + Load(r)))
    ensures Represents(g, l, Boxed(nifs, i, r), boxes)
    decreases n
  {
    if k == |b| {
      assert Changed(b, r, k) == r && r[..k] == r && At(l.outs[i], k) == None;
      g := h;
    } else {
      var f := RateStep(h, l, nifs, boxes, i, b, r, k, bw, used, cap, n);
      g := RateWalk(f, l, nifs, boxes, i, b, r, k + 1, bw, used, cap, n - 1);
    }
  }

  // ---------------------------------------------------------------------------
  // Taking the head out of an outbox
  // ---------------------------------------------------------------------------

  function Moved<A>(l: Lists<A>, i: nat, j: nat): Lists<A>
    requires i < |l.outs| && j < |l.ins| && l.outs[i] != []
  {
    var a := l.outs[i][0];
    Lists(l.outs[i := l.outs[i][1..]], l.ins[j := [a] + l.ins[j]], l.place[a := In(j, |l.ins[j]|)])
  }

  lemma HeadFacts<A>(h: Heap<A>, l: Lists<A>, nifs: seq<Sender>, boxes: seq<seq<Msg>>, i: nat, j: nat)
    requires Represents(h, l, nifs, boxes) && i < |nifs| && nifs[i].box != [] && j < |boxes|
    ensures |l.outs[i]| == |nifs[i].box| && h.outbox[i] == Some(l.outs[i][0]) && l.outs[i][0] in h.cells
    ensures h.cells[l.outs[i][0]] == Cell(nifs[i].box[0], At(l.outs[i], 1), None)
    ensures |l.ins[j]| == |boxes[j]| && h.inbox[j] == At(l.ins[j], 0)
    ensures l.outs[i][0] in l.place && l.place[l.outs[i][0]] == Out(i, |l.outs[i]| - 1)
    ensures |l.outs[i]| > 1 ==>
              l.outs[i][1] in h.cells && h.cells[l.outs[i][1]].prev == None && l.outs[i][1] != l.outs[i][0]
    ensures l.ins[j] != [] ==>
              && l.ins[j][0] in h.cells && l.ins[j][0] in l.place
              && l.place[l.ins[j][0]] == In(j, |l.ins[j]| - 1) && l.ins[j][0] != l.outs[i][0]
  {
    assert OutboxIs(h, l, i, nifs[i].box) && NodeAt(h.cells, l.outs[i], nifs[i].box, 0) && InboxIs(h, l, j, boxes[j]);
    if l.ins[j] != [] { assert NodeAt(h.cells, l.ins[j], boxes[j], 0); }
  }

  /** What taking the head of an orderly outbox does to the cells. */
  lemma TakeHead<A>(h: Heap<A>, l: Lists<A>, nifs: seq<Sender>, boxes: seq<seq<Msg>>, i: nat, now: int, latency: real)
    requires Represents(h, l, nifs, boxes) && i < |nifs| && nifs[i].box != []
    ensures |l.outs[i]| == |nifs[i].box| && l.outs[i][0] in h.cells && nifs[i].box[0].to < |boxes|
    ensures var a, j := l.outs[i][0], nifs[i].box[0].to;
            var g := Take(h, i, a, now, latency);
            && g.outbox == h.outbox[i := At(l.outs[i], 1)] && g.inbox == h.inbox[j := Some(a)]
            && OthersSame(h.cells, g.cells, a, h.inbox[j])
            && g.cells[a] == Cell(Deliver(nifs[i].box[0], now, latency), h.inbox[j], None)
  {
    assert OutboxIs(h, l, i, nifs[i].box) && NodeAt(h.cells, l.outs[i], nifs[i].box, 0);
    HeadFacts(h, l, nifs, boxes, i, nifs[i].box[0].to);
  }

  lemma TakeHeadKeeps<A>(h: Heap<A>, l: Lists<A>, nifs: seq<Sender>, boxes: seq<seq<Msg>>, i: nat, j: nat, now: int,
                         latency: real)
    requires Represents(h, l, nifs, boxes) && i < |nifs| && nifs[i].box != [] && j == nifs[i].box[0].to
    ensures j < |boxes| && |l.outs[i]| == |nifs[i].box| && l.outs[i][0] in h.cells
    ensures Represents(Take(h, i, l.outs[i][0], now, latency), Moved(l, i, j), Boxed(nifs, i, nifs[i].box[1..]),
                       boxes[j := [Deliver(nifs[i].box[0], now, latency)] + boxes[j]])
  {
    TakeHead(h, l, nifs, boxes, i, now, latency);
    HeadFacts(h, l, nifs, boxes, i, j);
    var a, top, m := l.outs[i][0], h.inbox[j], Deliver(nifs[i].box[0], now, latency);
    var g, v := Take(h, i, a, now, latency), Moved(l, i, j);
    Rebuilt(h, g, l, v, nifs, boxes, i, j, a, top, m);
  }

  lemma Rebuilt<A>(h: Heap<A>, g: Heap<A>, l: Lists<A>, v: Lists<A>, nifs: seq<Sender>, boxes: seq<seq<Msg>>,
                   i: nat, j: nat, a: A, top: Option<A>, m: Msg)
    requires Represents(h, l, nifs, boxes) && i < |nifs| && j < |boxes| && OthersSame(h.cells, g.cells, a, top)
    requires l.outs[i] != [] && a == l.outs[i][0] && v == Moved(l, i, j) && h.cells.Keys == g.cells.Keys && a in h.cells
    requires g.outbox == h.outbox[i := At(l.outs[i], 1)] && g.inbox == h.inbox[j := Some(a)] && top == h.inbox[j]
    requires g.cells[a].msg == m && g.cells[a].next == top
    requires a in l.place && l.place[a].Out? && l.place[a].i == i
    requires top.Some? ==> top.value in l.place && l.place[top.value].In?
    ensures Represents(g, v, Boxed(nifs, i, nifs[i].box[1..]), boxes[j := [m] + boxes[j]])
  {
    assert OutboxIs(h, l, i, nifs[i].box) && InboxIs(h, l, j, boxes[j]);
    TailIs(h, g, l, v, i, nifs[i].box, a, top);
    TopIs(h, g, l, v, j, boxes[j], a, m);
    OthersKept(h, g, l, v, nifs, boxes, i, j, a, top);
  }

  /** The other outboxes and inboxes. */
  lemma OthersKept<A>(h: Heap<A>, g: Heap<A>, l: Lists<A>, v: Lists<A>, nifs: seq<Sender>, boxes: seq<seq<Msg>>,
                      i: nat, j: nat, a: A, top: Option<A>)
    requires Represents(h, l, nifs, boxes) && i < |nifs| && j < |boxes| && OthersSame(h.cells, g.cells, a, top)
    requires |g.outbox| == |v.outs| == |nifs| && |g.inbox| == |v.ins| == |boxes|
    requires forall p :: 0 <= p < |nifs| && p != i ==> g.outbox[p] == h.outbox[p] && v.outs[p] == l.outs[p]
    requires forall q :: 0 <= q < |boxes| && q != j ==> g.inbox[q] == h.inbox[q] && v.ins[q] == l.ins[q]
    requires a in l.place && l.place[a].Out? && l.place[a].i == i
    requires top.Some? ==> top.value in l.place && l.place[top.value].In?
    requires forall x :: x in l.place && x != a ==> x in v.place && v.place[x] == l.place[x]
    ensures forall p :: 0 <= p < |nifs| && p != i ==> OutboxIs(g, v, p, nifs[p].box)
    ensures forall q :: 0 <= q < |boxes| && q != j ==> InboxIs(g, v, q, boxes[q])
  {
    forall p | 0 <= p < |nifs| && p != i ensures OutboxIs(g, v, p, nifs[p].box) {
      OutKept(h, g, l, v, p, nifs[p].box, a, top);
    }
    forall q | 0 <= q < |boxes| && q != j ensures InboxIs(g, v, q, boxes[q]) {
      InKept(h, g, l, v, q, boxes[q], a, top);
    }
  }

  /** The outbox without its head. */
  lemma TailIs<A>(h: Heap<A>, g: Heap<A>, l: Lists<A>, v: Lists<A>, i: nat, box: seq<Msg>, a: A, top: Option<A>)
    requires i < |h.outbox| == |g.outbox| == |l.outs| == |v.outs| && OutboxIs(h, l, i, box) && box != []
    requires a == l.outs[i][0] && v.outs[i] == l.outs[i][1..] && g.outbox[i] == At(l.outs[i], 1)
    requires OthersSame(h.cells, g.cells, a, top)
    requires top.Some? ==> top.value in l.place && l.place[top.value].In?
    requires forall x :: x in l.place && x != a ==> x in v.place && v.place[x] == l.place[x]
    ensures OutboxIs(g, v, i, box[1..])
  {
    var s := l.outs[i];
    forall k | 0 <= k < |s| - 1
      ensures NodeAt(g.cells, s[1..], box[1..], k) && g.cells[s[1..][k]] == h.cells[s[k + 1]]
    {
      assert NodeAt(h.cells, s, box, k + 1);
      assert l.place[s[k + 1]] != l.place[s[0]];
    }
  }

  /** The inbox with a new message on top. */
  lemma TopIs<A>(h: Heap<A>, g: Heap<A>, l: Lists<A>, v: Lists<A>, j: nat, box: seq<Msg>, a: A, m: Msg)
    requires j < |h.inbox| == |g.inbox| == |l.ins| == |v.ins| && InboxIs(h, l, j, box)
    requires a in l.place && l.place[a].Out? && v.ins[j] == [a] + l.ins[j] && g.inbox[j] == Some(a)
    requires OthersSame(h.cells, g.cells, a, h.inbox[j]) && a in g.cells
    requires g.cells[a].msg == m && g.cells[a].next == h.inbox[j]
    requires forall x :: x in l.place && x != a ==> x in v.place && v.place[x] == l.place[x]
    requires a in v.place && v.place[a] == In(j, |l.ins[j]|)
    ensures InboxIs(g, v, j, [m] + box)
  {
    var s := l.ins[j];
    forall k | 0 <= k < |s| + 1 ensures NodeAt(g.cells, [a] + s, [m] + box, k) {
      if k > 0 { assert NodeAt(h.cells, s, box, k - 1); }
    }
  }

  // ---------------------------------------------------------------------------
  // Taking what is finished out of an outbox
  // ---------------------------------------------------------------------------

  /** No finished message is behind one that is not. */
  ghost predicate FinishedInFront(b: seq<Msg>)
  {
    forall k :: 0 < k < |b| && Done(b[k]) ==> Done(b[k - 1])
  }

  lemma {:induction false} KeptFront(m: Msg, b: seq<Msg>)
    ensures Kept([m] + b) == (if Done(m) then [] else [m]) + Kept(b)
  {
    var c := [m] + b;
    if b == [] {
      assert c[..0] == [] && Kept(c[..0]) == [];
    } else {
      KeptFront(m, b[..|b| - 1]);
      assert c[..|c| - 1] == [m] + b[..|b| - 1];
    }
  }

  lemma {:induction false} DeliveredFront(m: Msg, b: seq<Msg>, now: int, latency: real)
    ensures Delivered([m] + b, now, latency)
            == (if Done(m) then [Deliver(m, now, latency)] else []) + Delivered(b, now, latency)
  {
    var c := [m] + b;
    if b == [] {
      assert c[..0] == [] && Delivered(c[..0], now, latency) == [];
    } else {
      DeliveredFront(m, b[..|b| - 1], now, latency);
      assert c[..|c| - 1] == [m] + b[..|b| - 1];
    }
  }

  lemma {:induction false} CallFront(m: Msg, b: seq<Msg>, now: int, latency: real, t: Time)
    requires t == Call(m, now, latency) && t <= TS_NEVER
    ensures CallBox([m] + b, now, latency) == Min(t, CallBox(b, now, latency))
  {
    var c := [m] + b;
    if b == [] {
      CallLast(c, now, latency, t);
    } else {
      var n := |b| - 1;
      CallFront(m, b[..n], now, latency, t);
      assert c[..|c| - 1] == [m] + b[..n];
      CallLast(c, now, latency, Call(b[n], now, latency));
      CallLast(b, now, latency, Call(b[n], now, latency));
    }
  }

  lemma CallLast(b: seq<Msg>, now: int, latency: real, t: Time)
    requires b != [] && t == Call(b[|b| - 1], now, latency)
    ensures CallBox(b, now, latency) == Min(CallBox(b[..|b| - 1], now, latency), t)
  {
  }

  lemma CallBounded(m: Msg, now: int, latency: real)
    ensures Call(m, now, latency) <= TS_NEVER
  {
  }

  lemma {:induction false} PushedFront(box: seq<Msg>, m: Msg, ds: seq<Msg>, j: nat)
    ensures Pushed(box, [m] + ds, j) == Pushed(if m.to == j then [m] + box else box, ds, j)
  {
    var c := [m] + ds;
    if ds == [] {
      assert c[..0] == [];
    } else {
      PushedFront(box, m, ds[..|ds| - 1], j);
      assert c[..|c| - 1] == [m] + ds[..|ds| - 1];
    }
  }

  /** Inboxes after messages were pushed onto those they are for. */
  function Landed(boxes: seq<seq<Msg>>, ds: seq<Msg>): (r: seq<seq<Msg>>)
    ensures |r| == |boxes|
  {
    seq(|boxes|, j requires 0 <= j < |boxes| => Pushed(boxes[j], ds, j))
  }

  lemma LandedFront(boxes: seq<seq<Msg>>, m: Msg, ds: seq<Msg>)
    requires m.to < |boxes|
    ensures Landed(boxes, [m] + ds) == Landed(boxes[m.to := [m] + boxes[m.to]], ds)
  {
    forall j | 0 <= j < |boxes|
      ensures Landed(boxes, [m] + ds)[j] == Landed(boxes[m.to := [m] + boxes[m.to]], ds)[j]
    {
      PushedFront(boxes[j], m, ds, j);
    }
  }

  lemma LandedNone(boxes: seq<seq<Msg>>)
    ensures Landed(boxes, []) == boxes
  {
  }

  /** Walking past messages that are not finished changes nothing. */
  lemma {:induction false} IdleWalk<A>(h: Heap<A>, l: Lists<A>, nifs: seq<Sender>, boxes: seq<seq<Msg>>, i: nat, k: nat,
                                       now: int, latency: real, rv: Time, n: nat, walk: Option<(Heap<A>, Time)>)
    requires Represents(h, l, nifs, boxes) && i < |nifs| && |l.outs[i]| == |nifs[i].box|
    requires k <= |nifs[i].box| <= k + n
    requires forall q :: k <= q < |nifs[i].box| ==> !Done(nifs[i].box[q])
    requires walk == ReceiveFrom(h, i, At(l.outs[i], k), now, latency, rv, n)
    ensures walk == Some((h, Min(rv, CallBox(nifs[i].box[k..], now, latency))))
    decreases n
  {
    var b := nifs[i].box;
    if k == |b| {
      assert b[k..] == [] && At(l.outs[i], k) == None;
    } else {
      var next := IdleStep(h, l, nifs, boxes, i, k, now, latency, rv, n);
      IdleWalk(h, l, nifs, boxes, i, k + 1, now, latency, next, n - 1, walk);
    }
  }

  lemma IdleStep<A>(h: Heap<A>, l: Lists<A>, nifs: seq<Sender>, boxes: seq<seq<Msg>>, i: nat, k: nat, now: int,
                    latency: real, rv: Time, n: nat) returns (next: Time)
    requires Represents(h, l, nifs, boxes) && i < |nifs| && |l.outs[i]| == |nifs[i].box|
    requires k < |nifs[i].box| && 0 < n && !Done(nifs[i].box[k])
    ensures ReceiveFrom(h, i, At(l.outs[i], k), now, latency, rv, n)
            == ReceiveFrom(h, i, At(l.outs[i], k + 1), now, latency, next, n - 1)
    ensures Min(next, CallBox(nifs[i].box[k + 1..], now, latency)) == Min(rv, CallBox(nifs[i].box[k..], now, latency))
  {
    var b := nifs[i].box;
    assert OutboxIs(h, l, i, b) && NodeAt(h.cells, l.outs[i], b, k);
    var t := Call(b[k], now, latency);
    next := Min(rv, t);
    CallBounded(b[k], now, latency);
    assert b[k..] == [b[k]] + b[k + 1..];
    CallFront(b[k], b[k + 1..], now, latency, t);
  }

  lemma FrontTail(b: seq<Msg>)
    requires FinishedInFront(b) && b != []
    ensures FinishedInFront(b[1..])
  {
    forall k | 0 < k < |b| - 1 && Done(b[1..][k]) ensures Done(b[1..][k - 1]) { assert Done(b[k + 1]); }
  }

  lemma {:induction false} NoneFinished(b: seq<Msg>, k: nat)
    requires FinishedInFront(b) && k < |b| && !Done(b[0])
    ensures !Done(b[k])
  {
    if k > 0 { NoneFinished(b, k - 1); }
  }

  lemma {:induction false} AllKept(b: seq<Msg>, now: int, latency: real)
    requires forall k :: 0 <= k < |b| ==> !Done(b[k])
    ensures Kept(b) == b && Delivered(b, now, latency) == []
  {
    if b != [] { AllKept(b[..|b| - 1], now, latency); }
  }

  /** What receiving makes of outbox i: lists, messages and time, as the functions on sequences say. */
  ghost predicate Received<A>(g: Heap<A>, rv: Time, v: Lists<A>, nifs: seq<Sender>, boxes: seq<seq<Msg>>, i: nat,
                              b: seq<Msg>, now: int, latency: real, rv0: Time)
    requires i < |nifs|
  {
    && Represents(g, v, Boxed(nifs, i, Kept(b)), Landed(boxes, Delivered(b, now, latency)))
    && rv == Min(rv0, CallBox(b, now, latency))
  }

  lemma ReceiveHead<A>(h: Heap<A>, l: Lists<A>, nifs: seq<Sender>, boxes: seq<seq<Msg>>, i: nat, b: seq<Msg>, now: int,
                       latency: real, rv0: Time, t: Time, n: nat) returns (g: Heap<A>, v: Lists<A>)
    requires i < |nifs| && Represents(h, l, Boxed(nifs, i, b), boxes) && b != [] && Done(b[0]) && 0 < n
    requires t == Call(b[0], now, latency) && b[0].to < |boxes|
    ensures var d := Deliver(b[0], now, latency);
            Represents(g, v, Boxed(nifs, i, b[1..]), boxes[d.to := [d] + boxes[d.to]])
    ensures ReceiveFrom(h, i, h.outbox[i], now, latency, rv0, n)
            == ReceiveFrom(g, i, g.outbox[i], now, latency, Min(rv0, t), n - 1)
  {
    var w := Boxed(nifs, i, b);
    TakeHeadKeeps(h, l, w, boxes, i, b[0].to, now, latency);
    TakeHead(h, l, w, boxes, i, now, latency);
    HeadFacts(h, l, w, boxes, i, b[0].to);
    assert Boxed(w, i, b[1..]) == Boxed(nifs, i, b[1..]);
    g, v := Take(h, i, l.outs[i][0], now, latency), Moved(l, i, b[0].to);
  }

  lemma ReceiveNone<A>(h: Heap<A>, l: Lists<A>, nifs: seq<Sender>, boxes: seq<seq<Msg>>, i: nat, b: seq<Msg>, now: int,
                       latency: real, rv0: Time, n: nat) returns (rv: Time)
    requires i < |nifs| && Represents(h, l, Boxed(nifs, i, b), boxes) && |b| <= n && rv0 <= TS_NEVER
    requires FinishedInFront(b) && (b == [] || !Done(b[0]))
    ensures ReceiveFrom(h, i, h.outbox[i], now, latency, rv0, n) == Some((h, rv))
    ensures Received(h, rv, l, nifs, boxes, i, b, now, latency, rv0)
  {
    var w := Boxed(nifs, i, b);
    assert w[i].box == b && OutboxIs(h, l, i, w[i].box);
    forall q | 0 <= q < |b| ensures !Done(b[q]) { NoneFinished(b, q); }
    IdleWalk(h, l, w, boxes, i, 0, now, latency, rv0, n, ReceiveFrom(h, i, h.outbox[i], now, latency, rv0, n));
    AllKept(b, now, latency);
    LandedNone(boxes);
    assert b[0..] == b;
    rv := Min(rv0, CallBox(b, now, latency));
  }

  /** If finished messages are in front, taking them out leaves the others as they were. */
  lemma {:induction false} ReceiveWalk<A>(h: Heap<A>, l: Lists<A>, nifs: seq<Sender>, boxes: seq<seq<Msg>>, i: nat,
                                          b: seq<Msg>, now: int, latency: real, rv0: Time, n: nat)
    returns (g: Heap<A>, v: Lists<A>, rv: Time)
    requires i < |nifs| && Represents(h, l, Boxed(nifs, i, b), boxes) && |b| <= n && rv0 <= TS_NEVER
    requires FinishedInFront(b)
    ensures ReceiveFrom(h, i, h.outbox[i], now, latency, rv0, n) == Some((g, rv))
    ensures Received(g, rv, v, nifs, boxes, i, b, now, latency, rv0)
    decreases n
  {
    if b != [] && Done(b[0]) {
      var t := Call(b[0], now, latency);
      assert Boxed(nifs, i, b)[i].box[0].to < |boxes|;
      CallBounded(b[0], now, latency);
      FrontTail(b);
      var d := Deliver(b[0], now, latency);
      var f, u := ReceiveHead(h, l, nifs, boxes, i, b, now, latency, rv0, t, n);
      var more := boxes[d.to := [d] + boxes[d.to]];
      g, v, rv := ReceiveWalk(f, u, nifs, more, i, b[1..], now, latency, Min(rv0, t), n - 1);
      ReceivedOne(g, rv, v, nifs, boxes, i, b, now, latency, rv0, t);
    } else {
      g, v := h, l;
      rv := ReceiveNone(h, l, nifs, boxes, i, b, now, latency, rv0, n);
    }
  }

  lemma ReceivedOne<A>(g: Heap<A>, rv: Time, v: Lists<A>, nifs: seq<Sender>, boxes: seq<seq<Msg>>, i: nat, b: seq<Msg>,
                       now: int, latency: real, rv0: Time, t: Time)
    requires i < |nifs| && b != [] && Done(b[0]) && b[0].to < |boxes| && t == Call(b[0], now, latency) && t <= TS_NEVER
    requires var d := Deliver(b[0], now, latency);
             Received(g, rv, v, nifs, boxes[d.to := [d] + boxes[d.to]], i, b[1..], now, latency, Min(rv0, t))
    ensures Received(g, rv, v, nifs, boxes, i, b, now, latency, rv0)
  {
    assert b == [b[0]] + b[1..];
    KeptFront(b[0], b[1..]);
    DeliveredFront(b[0], b[1..], now, latency);
    CallFront(b[0], b[1..], now, latency, t);
    var d, ds := Deliver(b[0], now, latency), Delivered(b[1..], now, latency);
    LandedFront(boxes, d, ds);
    assert Kept(b) == Kept(b[1..]) && Delivered(b, now, latency) == [d] + ds;
    assert rv == Min(rv0, CallBox(b, now, latency));
  }
}
