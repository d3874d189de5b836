/** What the interfaces of a network would like to send in a second: commit adds it up, and does not use it. */
module Demand {
  import opened Options
  import opened Network
  import opened Links
  import opened OrderlyLinks

  function Remaining(b: seq<Msg>): real
  {
    if b == [] then 0.0 else Remaining(b[..|b| - 1]) + (b[|b| - 1].size - b[|b| - 1].sent)
  }

  /** Some message, with those before it, would take more than the interface can send in a second. */
  predicate Exceeds(cap: real, b: seq<Msg>)
  {
    b != [] && (Exceeds(cap, b[..|b| - 1]) || Remaining(b) > cap)
  }

  function Wanted(cap: real, b: seq<Msg>): real { if Exceeds(cap, b) then cap else Remaining(b) }

  function WantedByAll(v: seq<Sender>): real
  {
    if v == [] then 0.0 else WantedByAll(v[..|v| - 1]) + Wanted(v[|v| - 1].cap, v[|v| - 1].box)
  }

  lemma {:induction false} WantedStays(cap: real, b: seq<Msg>, k: nat)
    requires k <= |b| && Exceeds(cap, b[..k])
    ensures Exceeds(cap, b)
    decreases |b|
  {
    if k < |b| {
      assert b[..|b| - 1][..k] == b[..k];
      WantedStays(cap, b[..|b| - 1], k);
    } else {
      assert b[..k] == b;
    }
  }

  /** As long as no message was sent in excess, an interface wants all its remaining bytes, or its rate if
      that is less. */
  lemma WantedIsLess(cap: real, b: seq<Msg>)
    requires 0.0 <= cap && forall k :: 0 <= k < |b| ==> b[k].sent <= b[k].size
    ensures Wanted(cap, b) == MinR(Remaining(b), cap)
  {
    ExceedsIff(cap, b);
  }

  lemma {:induction false} ExceedsIff(cap: real, b: seq<Msg>)
    requires 0.0 <= cap && forall k :: 0 <= k < |b| ==> b[k].sent <= b[k].size
    ensures Exceeds(cap, b) <==> Remaining(b) > cap
    decreases |b|
  {
    if b != [] { ExceedsIff(cap, b[..|b| - 1]); }
  }

  // ---------------------------------------------------------------------------
  // The scan along the links
  // ---------------------------------------------------------------------------

  lemma ScanStep<A>(h: Heap<A>, l: Lists<A>, v: seq<Sender>, boxes: seq<seq<Msg>>, i: nat, cap: real, k: nat, n: nat)
    requires Represents(h, l, v, boxes) && i < |v| && k < |v[i].box| && 0 < n && !Exceeds(cap, v[i].box[..k])
    ensures var b := v[i].box;
            && |l.outs[i]| == |b|
            && ScanFrom(h, At(l.outs[i], k), cap, Remaining(b[..k]), n)
               == if Exceeds(cap, b[..k + 1]) then Some(cap)
                  else ScanFrom(h, At(l.outs[i], k + 1), cap, Remaining(b[..k + 1]), n - 1)
  {
    var b := v[i].box;
    assert OutboxIs(h, l, i, b) && NodeAt(h.cells, l.outs[i], b, k);
    assert b[..k + 1][..k] == b[..k];
  }

  lemma {:induction false} ScanWalk<A>(h: Heap<A>, l: Lists<A>, v: seq<Sender>, boxes: seq<seq<Msg>>, i: nat, cap: real,
                                       k: nat, n: nat)
    requires Represents(h, l, v, boxes) && i < |v| && |l.outs[i]| == |v[i].box|
    requires k <= |v[i].box| <= k + n && !Exceeds(cap, v[i].box[..k])
    ensures ScanFrom(h, At(l.outs[i], k), cap, Remaining(v[i].box[..k]), n) == Some(Wanted(cap, v[i].box))
    decreases n
  {
    var b := v[i].box;
    if k == |b| {
      assert b[..k] == b && At(l.outs[i], k) == None;
    } else {
      ScanStep(h, l, v, boxes, i, cap, k, n);
      if Exceeds(cap, b[..k + 1]) { WantedStays(cap, b, k + 1); }
      else { ScanWalk(h, l, v, boxes, i, cap, k + 1, n - 1); }
    }
  }

  /** Along orderly links the scan adds up what each interface wants. */
  lemma {:induction false} ScanIsDemand<A>(h: Heap<A>, l: Lists<A>, v: seq<Sender>, boxes: seq<seq<Msg>>,
                                           caps: seq<real>, n: nat, i: nat)
    requires Represents(h, l, v, boxes) && i <= |v| == |caps| && forall k :: 0 <= k < |v| ==> v[k].cap == caps[k]
    requires forall k :: 0 <= k < |v| ==> |v[k].box| <= n
    ensures ScanTo(h, caps, i, n) == Some(WantedByAll(v[..i]))
  {
    if i > 0 {
      var k := i - 1;
      ScanIsDemand(h, l, v, boxes, caps, n, k);
      assert OutboxIs(h, l, k, v[k].box) && v[k].box[..0] == [] && v[..i][..k] == v[..k];
      ScanWalk(h, l, v, boxes, k, caps[k], 0, n);
    }
  }
}
