/** Filtering an orderly inbox, link by link, leaves a list of the messages that are not due yet. */
module LinkedReading {
  import opened Options
  import opened Network
  import opened Links
  import opened OrderlyLinks
  import opened Unlinking

  /** The messages that are not due, in the order of the list, and those that are, the last one first. */
  function Undue(ms: seq<Msg>, t1: int): seq<Msg>
  {
    if ms == [] then [] else (if ms[0].end <= t1 then [] else [ms[0]]) + Undue(ms[1..], t1)
  }

  function DueLastFirst(ms: seq<Msg>, t1: int): seq<Msg>
  {
    if ms == [] then [] else DueLastFirst(ms[1..], t1) + if ms[0].end <= t1 then [ms[0]] else []
  }

  /** The cells of the messages that are not due. */
  function Staying<A>(s: seq<A>, ms: seq<Msg>, t1: int): seq<A>
    requires |s| == |ms|
  {
    if s == [] then [] else (if ms[0].end <= t1 then [] else [s[0]]) + Staying(s[1..], ms[1..], t1)
  }

  lemma {:induction false} StayingIn<A>(s: seq<A>, ms: seq<Msg>, t1: int)
    requires |s| == |ms| && Distinct(s)
    ensures forall k :: 0 <= k < |Staying(s, ms, t1)| ==> Staying(s, ms, t1)[k] in s
    ensures Distinct(Staying(s, ms, t1))
  {
    if s != [] {
      var r := Staying(s[1..], ms[1..], t1);
      StayingIn(s[1..], ms[1..], t1);
      assert s == [s[0]] + s[1..] && s[0] !in s[1..];
      assert forall k :: 0 <= k < |r| ==> r[k] in s[1..];
    }
  }

  /** Only links of the cells s have changed. */
  ghost predicate OnlyNext<A>(h: Heap<A>, g: Heap<A>, s: seq<A>)
  {
    && g.outbox == h.outbox && g.inbox == h.inbox && g.cells.Keys == h.cells.Keys
    && forall x :: x in h.cells ==> g.cells[x].msg == h.cells[x].msg && (x !in s ==> g.cells[x] == h.cells[x])
  }

  lemma TailListed<A>(h: Heap<A>, s: seq<A>, ms: seq<Msg>)
    requires s != [] && Listed(h.cells, At(s, 0), s, ms) && Distinct(s)
    ensures s[0] in h.cells && h.cells[s[0]].msg == ms[0] && h.cells[s[0]].next == At(s[1..], 0)
    ensures Listed(h.cells, At(s[1..], 0), s[1..], ms[1..]) && Distinct(s[1..]) && s[0] !in s[1..]
  {
    assert NodeAt(h.cells, s, ms, 0);
    forall k | 0 <= k < |s| - 1 ensures NodeAt(h.cells, s[1..], ms[1..], k) { assert NodeAt(h.cells, s, ms, k + 1); }
  }

  lemma AgainInFront<A>(cells: map<A, Cell<A>>, a: A, m: Msg, w: seq<A>, ms: seq<Msg>)
    requires a in cells && cells[a].msg == m && cells[a].next == At(w, 0) && Listed(cells, At(w, 0), w, ms)
    ensures Listed(cells, Some(a), [a] + w, [m] + ms)
  {
    forall k | 0 <= k < |w| + 1 ensures NodeAt(cells, [a] + w, [m] + ms, k) {
      if k > 0 { assert NodeAt(cells, w, ms, k - 1); }
    }
  }

  /** What filtering a list leaves. */
  ghost predicate Filtered<A>(h: Heap<A>, walk: Option<(Heap<A>, Option<A>, seq<Msg>)>, s: seq<A>, ms: seq<Msg>,
                              t1: int)
    requires |s| == |ms|
  {
    && walk.Some? && walk.value.2 == DueLastFirst(ms, t1) && OnlyNext(h, walk.value.0, s)
    && Listed(walk.value.0.cells, walk.value.1, Staying(s, ms, t1), Undue(ms, t1))
  }

  lemma {:induction false} FilterWalk<A>(h: Heap<A>, s: seq<A>, ms: seq<Msg>, t1: int, n: nat)
    requires Listed(h.cells, At(s, 0), s, ms) && Distinct(s) && |s| <= n
    ensures Filtered(h, FilterFrom(h, At(s, 0), t1, n), s, ms, t1)
    decreases n
  {
    if s != [] {
      TailListed(h, s, ms);
      FilterWalk(h, s[1..], ms[1..], t1, n - 1);
      FilterStep(h, s, ms, t1, n, FilterFrom(h, At(s[1..], 0), t1, n - 1));
    }
  }

  /** One cell, when the list behind it has been filtered. */
  lemma StepTaken<A>(h: Heap<A>, s: seq<A>, t1: int, n: nat, rest: Option<(Heap<A>, Option<A>, seq<Msg>)>, f: Heap<A>)
    requires s != [] && 0 < n && s[0] in h.cells && h.cells[s[0]].next == At(s[1..], 0)
    requires rest == FilterFrom(h, At(s[1..], 0), t1, n - 1) && rest.Some? && s[0] in rest.value.0.cells
    requires f == if rest.value.1 != h.cells[s[0]].next then SetNext(rest.value.0, Some(s[0]), rest.value.1)
                  else rest.value.0
    ensures FilterFrom(h, At(s, 0), t1, n) ==
              var c := f.cells[s[0]];
              if c.msg.end <= t1 then Some((f, c.next, rest.value.2 + [c.msg])) else Some((f, Some(s[0]), rest.value.2))
  {
  }

  lemma FilterStep<A>(h: Heap<A>, s: seq<A>, ms: seq<Msg>, t1: int, n: nat,
                      rest: Option<(Heap<A>, Option<A>, seq<Msg>)>)
    requires s != [] && Listed(h.cells, At(s, 0), s, ms) && Distinct(s) && 0 < n
    requires rest == FilterFrom(h, At(s[1..], 0), t1, n - 1) && Filtered(h, rest, s[1..], ms[1..], t1)
    ensures Filtered(h, FilterFrom(h, At(s, 0), t1, n), s, ms, t1)
  {
    TailListed(h, s, ms);
    StayingIn(s[1..], ms[1..], t1);
    var a, w, u := s[0], Staying(s[1..], ms[1..], t1), Undue(ms[1..], t1);
    var g, head := rest.value.0, rest.value.1;
    var f := if head != h.cells[a].next then SetNext(g, Some(a), head) else g;
    assert f.cells == g.cells[a := g.cells[a].(next := head)];
    ListKept(g.cells, f.cells, head, w, u, a, None);
    var due := ms[0].end <= t1;
    assert Staying(s, ms, t1) == (if due then w else [a] + w) && Undue(ms, t1) == (if due then u else [ms[0]] + u);
    assert f.outbox == h.outbox && f.inbox == h.inbox && OnlyNext(h, f, s);
    if !due { AgainInFront(f.cells, a, ms[0], w, u); }
    StepTaken(h, s, t1, n, rest, f);
    assert DueLastFirst(ms, t1) == rest.value.2 + if due then [ms[0]] else [];
  }

  // ---------------------------------------------------------------------------
  // All the lists
  // ---------------------------------------------------------------------------

  function Placed<A>(place: map<A, Place>, w: seq<A>, j: nat): map<A, Place>
  {
    if w == [] then place else Placed(place, w[1..], j)[w[0] := In(j, |w| - 1)]
  }

  lemma {:induction false} PlacedIs<A>(place: map<A, Place>, w: seq<A>, j: nat)
    requires Distinct(w)
    ensures PlacedIn(Placed(place, w, j), w, j)
    ensures forall x :: x in place && x !in w ==> x in Placed(place, w, j) && Placed(place, w, j)[x] == place[x]
    ensures forall x :: x in Placed(place, w, j) ==> x in place || x in w
  {
    if w != [] {
      PlacedIs(place, w[1..], j);
      assert forall k :: 0 < k < |w| ==> w[k] == w[1..][k - 1];
    }
  }

  lemma FilterKeeps<A>(h: Heap<A>, l: Lists<A>, nifs: seq<Sender>, boxes: seq<seq<Msg>>, j: nat, t1: int, n: nat)
    returns (g: Heap<A>, v: Lists<A>)
    requires Represents(h, l, nifs, boxes) && j < |boxes| && |boxes[j]| <= n
    ensures FilterLinks(h, j, t1, n) == Some((g, DueLastFirst(boxes[j], t1)))
    ensures Represents(g, v, nifs, boxes[j := Undue(boxes[j], t1)]) && g.cells.Keys == h.cells.Keys
  {
    var s, ms := l.ins[j], boxes[j];
    assert InboxIs(h, l, j, ms);
    FilterWalk(h, s, ms, t1, n);
    StayingIn(s, ms, t1);
    var w := Staying(s, ms, t1);
    PlacedIs(l.place, w, j);
    var f := FilterFrom(h, At(s, 0), t1, n).value;
    g := f.0.(inbox := h.inbox[j := f.1]);
    v := Lists(l.outs, l.ins[j := w], Placed(l.place, w, j));
    OthersFiltered(h, g, l, v, nifs, boxes, j, w);
  }

  /** The other lists keep their cells. */
  lemma OthersFiltered<A>(h: Heap<A>, g: Heap<A>, l: Lists<A>, v: Lists<A>, nifs: seq<Sender>, boxes: seq<seq<Msg>>,
                          j: nat, w: seq<A>)
    requires Represents(h, l, nifs, boxes) && j < |boxes| && g.outbox == h.outbox && |g.inbox| == |h.inbox|
    requires g.cells.Keys == h.cells.Keys && forall x :: x in h.cells && x !in l.ins[j] ==> g.cells[x] == h.cells[x]
    requires forall k :: 0 <= k < |w| ==> w[k] in l.ins[j]
    requires v.outs == l.outs && v.ins == l.ins[j := w]
    requires forall q :: 0 <= q < |boxes| && q != j ==> g.inbox[q] == h.inbox[q]
    requires forall x :: x in l.place && x !in w ==> x in v.place && v.place[x] == l.place[x]
    ensures forall p :: 0 <= p < |nifs| ==> OutboxIs(g, v, p, nifs[p].box)
    ensures forall q :: 0 <= q < |boxes| && q != j ==> InboxIs(g, v, q, boxes[q])
  {
    assert InboxIs(h, l, j, boxes[j]);
    forall p | 0 <= p < |nifs| ensures OutboxIs(g, v, p, nifs[p].box) {
      var s, b := l.outs[p], nifs[p].box;
      assert OutboxIs(h, l, p, b);
      forall k | 0 <= k < |s| ensures NodeAt(g.cells, s, b, k) && s[k] !in l.ins[j] {
        assert NodeAt(h.cells, s, b, k);
      }
    }
    forall q | 0 <= q < |boxes| && q != j ensures InboxIs(g, v, q, boxes[q]) {
      var s, b := l.ins[q], boxes[q];
      assert InboxIs(h, l, q, b);
      forall k | 0 <= k < |s| ensures NodeAt(g.cells, s, b, k) && s[k] !in l.ins[j] {
        assert NodeAt(h.cells, s, b, k);
      }
    }
  }
}
