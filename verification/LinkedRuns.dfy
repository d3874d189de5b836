/** Whole runs of a network on linked cells: as long as no call finds a finished message behind an unfinished
    one, outboxes, inboxes and what is read are those of the runs on sequences. */
module LinkedRuns {
  import opened Options
  import opened Sync
  import opened Network
  import opened NetworkRuns
  import opened Links
  import opened OrderlyLinks
  import opened Unlinking
  import opened LinkedCommit
  import opened LinkedReading
  import opened MessageOrder

  /** What happens to a network: a call of commit, with the addresses that memory allocation has for the
      messages it may queue, or interface j reads its inbox. */
  datatype Step<A> = Called(t: Tick, addrs: seq<A>) | Reading(j: nat, t1: int)

  ghost predicate Sized<A>(caps: seq<real>, hs: seq<Step<A>>)
  {
    forall k :: 0 <= k < |hs| && hs[k].Called? ==> |hs[k].addrs| == |caps| && Deliverable(hs[k].t, |caps|)
  }

  ghost function Addresses<A>(hs: seq<Step<A>>): seq<A>
  {
    if hs == [] then []
    else Addresses(hs[..|hs| - 1]) + if hs[|hs| - 1].Called? then hs[|hs| - 1].addrs else []
  }

  /** Every call has an offer and an address for each interface, and no address is handed out twice. */
  ghost predicate Proper<A>(caps: seq<real>, hs: seq<Step<A>>)
  {
    Sized(caps, hs) && Distinct(Addresses(hs))
  }

  // ---------------------------------------------------------------------------
  // Runs on links
  // ---------------------------------------------------------------------------

  /** The links, the bandwidth in use, the time asked for, and what each interface has read. */
  datatype LinkedNet<A> = LinkedNet(heap: Heap<A>, used: real, next: Time, logs: seq<seq<Msg>>)

  ghost function Unlinked<A>(n: nat): LinkedNet<A>
  {
    LinkedNet(Heap(map[], seq(n, i => None), seq(n, i => None)), 0.0, TS_NEVER, seq(n, i => []))
  }

  ghost function LinkedStep<A>(bw: real, caps: seq<real>, s: LinkedNet<A>, e: Step<A>, n: nat): Option<LinkedNet<A>>
    requires e.Called? ==> |e.addrs| == |e.t.offers| == |caps|
  {
    match e
    case Called(t, addrs) =>
      var r := CommitLinks(bw, caps, s.heap, t, addrs, n);
      if r.None? then None else Some(LinkedNet(r.value.heap, r.value.used, r.value.next, s.logs))
    case Reading(j, t1) =>
      var r := FilterLinks(s.heap, j, t1, n);
      if r.None? then None
      else Some(s.(heap := r.value.0, logs := if j < |s.logs| then s.logs[j := s.logs[j] + r.value.1] else s.logs))
  }

  /** The network after some steps, no walk taking more than n; nothing if one has not ended by then. */
  ghost function LinkedAfter<A>(bw: real, caps: seq<real>, hs: seq<Step<A>>, n: nat): Option<LinkedNet<A>>
    requires Sized(caps, hs)
  {
    if hs == [] then Some(Unlinked(|caps|))
    else
      var s := LinkedAfter(bw, caps, hs[..|hs| - 1], n);
      if s.None? then None else LinkedStep(bw, caps, s.value, hs[|hs| - 1], n)
  }

  // ---------------------------------------------------------------------------
  // ... and on sequences
  // ---------------------------------------------------------------------------

  ghost function Calls<A>(hs: seq<Step<A>>): seq<Tick>
  {
    if hs == [] then []
    else Calls(hs[..|hs| - 1]) + if hs[|hs| - 1].Called? then [hs[|hs| - 1].t] else []
  }

  lemma {:induction false} CallsSized<A>(caps: seq<real>, hs: seq<Step<A>>)
    requires Sized(caps, hs)
    ensures forall k :: 0 <= k < |Calls(hs)| ==> Deliverable(Calls(hs)[k], |caps|)
  {
    if hs != [] { CallsSized(caps, hs[..|hs| - 1]); }
  }

  ghost function NetAfter<A>(bw: real, caps: seq<real>, t0: int, hs: seq<Step<A>>): Net
    requires Sized(caps, hs)
  {
    CallsSized(caps, hs);
    After(bw, caps, t0, Calls(hs))
  }

  /** What a step is to inbox j. */
  ghost function EventOf<A>(bw: real, caps: seq<real>, t0: int, hs: seq<Step<A>>, j: nat): Event
    requires Sized(caps, hs) && hs != []
  {
    match hs[|hs| - 1]
    case Called(_, _) => Incoming(NetAfter(bw, caps, t0, hs).delivered)
    case Reading(i, t1) => if i == j then Handle(t1) else Incoming([])
  }

  ghost function Events<A>(bw: real, caps: seq<real>, t0: int, hs: seq<Step<A>>, j: nat): (es: seq<Event>)
    requires Sized(caps, hs)
    ensures |es| == |hs|
  {
    if hs == [] then [] else Events(bw, caps, t0, hs[..|hs| - 1], j) + [EventOf(bw, caps, t0, hs, j)]
  }

  ghost function PostOf<A>(bw: real, caps: seq<real>, t0: int, hs: seq<Step<A>>, j: nat): Post
    requires Sized(caps, hs)
  {
    Posted(Events(bw, caps, t0, hs, j), j)
  }

  ghost function Boxes<A>(bw: real, caps: seq<real>, t0: int, hs: seq<Step<A>>): (r: seq<seq<Msg>>)
    requires Sized(caps, hs)
    ensures |r| == |caps|
  {
    seq(|caps|, j requires 0 <= j < |caps| && Sized(caps, hs) => Messages(PostOf(bw, caps, t0, hs, j).stack))
  }

  function LogMessages(log: seq<Receipt>): (r: seq<Msg>)
    ensures |r| == |log|
  {
    seq(|log|, k requires 0 <= k < |log| => log[k].item.msg)
  }

  /** One step of the inbox of interface j. */
  lemma PostStep<A>(bw: real, caps: seq<real>, t0: int, hs: seq<Step<A>>, j: nat)
    requires Sized(caps, hs) && hs != []
    ensures var before, after := PostOf(bw, caps, t0, hs[..|hs| - 1], j), PostOf(bw, caps, t0, hs, j);
            match hs[|hs| - 1]
            case Called(_, _) =>
              && Messages(after.stack) == Pushed(Messages(before.stack), NetAfter(bw, caps, t0, hs).delivered, j)
              && LogMessages(after.log) == LogMessages(before.log)
            case Reading(i, t1) =>
              if i == j then
                && Messages(after.stack) == Undue(Messages(before.stack), t1)
                && LogMessages(after.log) == LogMessages(before.log) + DueLastFirst(Messages(before.stack), t1)
              else after == before
  {
    var es := Events(bw, caps, t0, hs, j);
    var before := Posted(es[..|es| - 1], j);
    assert es[..|es| - 1] == Events(bw, caps, t0, hs[..|hs| - 1], j);
    match es[|es| - 1]
    case Incoming(ds) => StackIsPushed(before.stack, ds, Count(es[..|es| - 1]), j);
    case Handle(t1) => {
      FilterMessages(before.stack, t1);
      LogGrows(before.log, ReadOff(before.stack, t1), |es| - 1);
    }
  }

  lemma LogGrows(log: seq<Receipt>, items: seq<Item>, n: nat)
    ensures LogMessages(log + Receipts(items, n)) == LogMessages(log) + Messages(items)
  {
  }

  lemma {:induction false} FilterMessages(s: seq<Item>, t1: int)
    ensures Messages(Unread(s, t1)) == Undue(Messages(s), t1)
    ensures Messages(ReadOff(s, t1)) == DueLastFirst(Messages(s), t1)
  {
    if s != [] {
      FilterMessages(s[1..], t1);
      assert Messages(s)[1..] == Messages(s[1..]);
    }
  }

  // ---------------------------------------------------------------------------
  // How long a walk can be
  // ---------------------------------------------------------------------------

  /** As many steps as there were events and deliveries are enough for every walk. */
  ghost function Needed<A>(bw: real, caps: seq<real>, t0: int, hs: seq<Step<A>>): nat
    requires Sized(caps, hs)
  {
    |hs| + Count(Events(bw, caps, t0, hs, 0))
  }

  lemma {:induction false} KeptBound(b: seq<Msg>)
    ensures |Kept(b)| <= |b|
  {
    if b != [] { KeptBound(b[..|b| - 1]); }
  }

  lemma {:induction false} StackBound(s: seq<Item>, ds: seq<Msg>, base: nat, j: nat)
    ensures |Stack(s, ds, base, j)| <= |s| + |ds|
  {
    if ds != [] { StackBound(s, ds[..|ds| - 1], base, j); }
  }

  lemma {:induction false} UnreadBound(s: seq<Item>, t1: int)
    ensures |Unread(s, t1)| <= |s|
  {
    if s != [] { UnreadBound(s[1..], t1); }
  }

  lemma {:induction false} PostBound(es: seq<Event>, j: nat)
    ensures |Posted(es, j).stack| <= Count(es)
  {
    if es != [] {
      var n := |es| - 1;
      PostBound(es[..n], j);
      match es[n]
      case Incoming(ds) => StackBound(Posted(es[..n], j).stack, ds, Count(es[..n]), j);
      case Handle(t1) => UnreadBound(Posted(es[..n], j).stack, t1);
    }
  }

  lemma {:induction false} SameCount<A>(bw: real, caps: seq<real>, t0: int, hs: seq<Step<A>>, j: nat, i: nat)
    requires Sized(caps, hs)
    ensures Count(Events(bw, caps, t0, hs, j)) == Count(Events(bw, caps, t0, hs, i))
  {
    if hs != [] {
      var n := |hs| - 1;
      SameCount(bw, caps, t0, hs[..n], j, i);
      var p, q := Events(bw, caps, t0, hs, j), Events(bw, caps, t0, hs, i);
      assert p[..n] == Events(bw, caps, t0, hs[..n], j) && q[..n] == Events(bw, caps, t0, hs[..n], i);
    }
  }

  lemma {:induction false} CallsBound<A>(hs: seq<Step<A>>)
    ensures |Calls(hs)| <= |hs|
  {
    if hs != [] { CallsBound(hs[..|hs| - 1]); }
  }

  lemma {:induction false} OutboxBound(bw: real, caps: seq<real>, t0: int, ts: seq<Tick>)
    requires forall k :: 0 <= k < |ts| ==> |ts[k].offers| == |caps|
    ensures Short(After(bw, caps, t0, ts).nifs, |ts|)
  {
    if ts != [] {
      var n := |ts| - 1;
      var before := After(bw, caps, t0, ts[..n]).nifs;
      OutboxBound(bw, caps, t0, ts[..n]);
      forall i | 0 <= i < |caps| ensures |After(bw, caps, t0, ts).nifs[i].box| <= |ts| {
        ServedSize(bw, before, ts[n], i);
        KeptBound(Served(bw, before, ts[n])[i].box);
      }
    }
  }

  ghost predicate ShortLists(boxes: seq<seq<Msg>>, n: nat)
  {
    forall j :: 0 <= j < |boxes| ==> |boxes[j]| <= n
  }

  /** The walks of a step are short enough. */
  lemma StepShort<A>(bw: real, caps: seq<real>, t0: int, hs: seq<Step<A>>)
    requires Sized(caps, hs) && hs != []
    ensures Needed(bw, caps, t0, hs[..|hs| - 1]) <= Needed(bw, caps, t0, hs)
    ensures ShortLists(Boxes(bw, caps, t0, hs[..|hs| - 1]), Needed(bw, caps, t0, hs))
    ensures hs[|hs| - 1].Called? ==>
              Short(Current(NetAfter(bw, caps, t0, hs[..|hs| - 1]).nifs, hs[|hs| - 1].t), Needed(bw, caps, t0, hs))
  {
    var n := |hs| - 1;
    var es := Events(bw, caps, t0, hs, 0);
    assert es[..n] == Events(bw, caps, t0, hs[..n], 0);
    forall j | 0 <= j < |caps| ensures |Boxes(bw, caps, t0, hs[..n])[j]| <= Needed(bw, caps, t0, hs) {
      PostBound(Events(bw, caps, t0, hs[..n], j), j);
      SameCount(bw, caps, t0, hs[..n], j, 0);
    }
    CallsBound(hs[..n]);
    CallsSized(caps, hs[..n]);
    OutboxBound(bw, caps, t0, Calls(hs[..n]));
    if hs[n].Called? {
      forall i | 0 <= i < |caps|
        ensures |Current(NetAfter(bw, caps, t0, hs[..n]).nifs, hs[n].t)[i].box| <= Needed(bw, caps, t0, hs)
      {
      }
    }
  }

  // ---------------------------------------------------------------------------
  // The runs on links are those on sequences
  // ---------------------------------------------------------------------------

  /** Call k finds no finished message behind an unfinished one of its outbox. */
  ghost predicate InFrontAt<A>(bw: real, caps: seq<real>, t0: int, hs: seq<Step<A>>, k: nat)
    requires Sized(caps, hs) && k < |hs|
  {
    hs[k].Called? ==> InFront(Served(bw, NetAfter(bw, caps, t0, hs[..k]).nifs, hs[k].t))
  }

  ghost predicate AlwaysInFront<A>(bw: real, caps: seq<real>, t0: int, hs: seq<Step<A>>)
    requires Sized(caps, hs)
  {
    forall k :: 0 <= k < |hs| ==> InFrontAt(bw, caps, t0, hs, k)
  }

  lemma InFrontPrefix<A>(bw: real, caps: seq<real>, t0: int, hs: seq<Step<A>>, n: nat)
    requires Sized(caps, hs) && n <= |hs| && AlwaysInFront(bw, caps, t0, hs)
    ensures AlwaysInFront(bw, caps, t0, hs[..n])
  {
    forall k | 0 <= k < n ensures InFrontAt(bw, caps, t0, hs[..n], k) {
      assert InFrontAt(bw, caps, t0, hs, k) && hs[..n][..k] == hs[..k];
    }
  }

  /** The links hold what the runs on sequences have. */
  ghost predicate Refines<A>(s: LinkedNet<A>, l: Lists<A>, bw: real, caps: seq<real>, t0: int, hs: seq<Step<A>>)
    requires Sized(caps, hs)
  {
    var net := NetAfter(bw, caps, t0, hs);
    && Represents(s.heap, l, net.nifs, Boxes(bw, caps, t0, hs)) && Rates(net.nifs, caps)
    && s.used == net.used && s.next == net.next
    && |s.logs| == |caps| && LogsAre(s, bw, caps, t0, hs)
    && forall x :: x in s.heap.cells ==> x in Addresses(hs)
  }

  ghost predicate LogsAre<A>(s: LinkedNet<A>, bw: real, caps: seq<real>, t0: int, hs: seq<Step<A>>)
    requires Sized(caps, hs) && |s.logs| == |caps|
  {
    forall j :: 0 <= j < |caps| ==> s.logs[j] == LogMessages(PostOf(bw, caps, t0, hs, j).log)
  }

  lemma DistinctParts<A>(a: seq<A>, b: seq<A>)
    requires Distinct(a + b)
    ensures Distinct(a) && Distinct(b) && forall p, q :: 0 <= p < |a| && 0 <= q < |b| ==> a[p] != b[q]
  {
    forall p, q | 0 <= p < |a| && 0 <= q < |b| ensures a[p] != b[q] {
      assert (a + b)[p] == a[p] && (a + b)[|a| + q] == b[q];
    }
    forall p, q | 0 <= p < q < |a| ensures a[p] != a[q] { assert (a + b)[p] == a[p] && (a + b)[q] == a[q]; }
    forall p, q | 0 <= p < q < |b| ensures b[p] != b[q] {
      assert (a + b)[|a| + p] == b[p] && (a + b)[|a| + q] == b[q];
    }
  }

  lemma NewAddresses<A>(caps: seq<real>, hs: seq<Step<A>>, s: LinkedNet<A>)
    requires Proper(caps, hs) && hs != [] && forall x :: x in s.heap.cells ==> x in Addresses(hs[..|hs| - 1])
    ensures hs[|hs| - 1].Called? ==> NewCells(s.heap, hs[|hs| - 1].addrs)
  {
    DistinctParts(Addresses(hs[..|hs| - 1]), if hs[|hs| - 1].Called? then hs[|hs| - 1].addrs else []);
  }

  lemma StartRefines<A>(bw: real, caps: seq<real>, t0: int) returns (l: Lists<A>)
    ensures Refines(Unlinked<A>(|caps|), l, bw, caps, t0, [])
  {
    l := Lists(seq(|caps|, i => []), seq(|caps|, i => []), map[]);
    var h := Unlinked<A>(|caps|).heap;
    forall i | 0 <= i < |caps| ensures OutboxIs(h, l, i, []) && InboxIs(h, l, i, []) { }
  }

  lemma NetStep<A>(bw: real, caps: seq<real>, t0: int, hs: seq<Step<A>>)
    requires Sized(caps, hs) && hs != []
    ensures NetAfter(bw, caps, t0, hs) ==
              match hs[|hs| - 1]
              case Called(t, _) => Commit(bw, NetAfter(bw, caps, t0, hs[..|hs| - 1]).nifs, t)
              case Reading(_, _) => NetAfter(bw, caps, t0, hs[..|hs| - 1])
  {
    var ts, before := Calls(hs), Calls(hs[..|hs| - 1]);
    CallsSized(caps, hs);
    CallsSized(caps, hs[..|hs| - 1]);
    if hs[|hs| - 1].Called? { assert ts[..|ts| - 1] == before; } else { assert ts == before; }
  }

  /** The same, of all inboxes. */
  lemma BoxesStep<A>(bw: real, caps: seq<real>, t0: int, hs: seq<Step<A>>)
    requires Sized(caps, hs) && hs != []
    ensures var before := Boxes(bw, caps, t0, hs[..|hs| - 1]);
            Boxes(bw, caps, t0, hs) ==
              match hs[|hs| - 1]
              case Called(_, _) => Landed(before, NetAfter(bw, caps, t0, hs).delivered)
              case Reading(j, t1) => if j < |caps| then before[j := Undue(before[j], t1)] else before
  {
    forall j | 0 <= j < |caps| { PostStep(bw, caps, t0, hs, j); }
  }

  lemma CallRefines<A>(s: LinkedNet<A>, l: Lists<A>, bw: real, caps: seq<real>, t0: int, hs: seq<Step<A>>, n: nat)
    returns (r: LinkedNet<A>, v: Lists<A>)
    requires Proper(caps, hs) && hs != [] && hs[|hs| - 1].Called? && Refines(s, l, bw, caps, t0, hs[..|hs| - 1])
    requires InFrontAt(bw, caps, t0, hs, |hs| - 1) && Needed(bw, caps, t0, hs) <= n
    ensures LinkedStep(bw, caps, s, hs[|hs| - 1], n) == Some(r) && Refines(r, v, bw, caps, t0, hs)
  {
    var t, addrs := hs[|hs| - 1].t, hs[|hs| - 1].addrs;
    var net, boxes := NetAfter(bw, caps, t0, hs[..|hs| - 1]), Boxes(bw, caps, t0, hs[..|hs| - 1]);
    NewAddresses(caps, hs, s);
    StepShort(bw, caps, t0, hs);
    var c;
    c, v := CommitKeeps(s.heap, l, net.nifs, boxes, bw, caps, t, addrs, n);
    r := LinkedNet(c.heap, c.used, c.next, s.logs);
    CommitCells(bw, caps, s.heap, t, addrs, n);
    NetStep(bw, caps, t0, hs);
    BoxesStep(bw, caps, t0, hs);
    RatesStay(bw, net.nifs, caps, t);
    forall j | 0 <= j < |caps| ensures r.logs[j] == LogMessages(PostOf(bw, caps, t0, hs, j).log) {
      PostStep(bw, caps, t0, hs, j);
    }
  }

  lemma RatesStay(bw: real, nifs: seq<Sender>, caps: seq<real>, t: Tick)
    requires Rates(nifs, caps) && |t.offers| == |nifs|
    ensures Rates(Commit(bw, nifs, t).nifs, caps)
  {
    forall i | 0 <= i < |nifs| ensures Commit(bw, nifs, t).nifs[i].cap == nifs[i].cap { ServedSize(bw, nifs, t, i); }
  }

  lemma ReadOne<A>(s: LinkedNet<A>, l: Lists<A>, nifs: seq<Sender>, boxes: seq<seq<Msg>>, i: nat, t1: int, n: nat)
    returns (r: LinkedNet<A>, v: Lists<A>)
    requires Represents(s.heap, l, nifs, boxes) && ShortLists(boxes, n) && |s.logs| == |boxes|
    ensures LinkedStep(0.0, [], s, Reading(i, t1), n) == Some(r)
    ensures Represents(r.heap, v, nifs, if i < |boxes| then boxes[i := Undue(boxes[i], t1)] else boxes)
    ensures r.heap.cells.Keys == s.heap.cells.Keys && r.used == s.used && r.next == s.next
    ensures r.logs == if i < |boxes| then s.logs[i := s.logs[i] + DueLastFirst(boxes[i], t1)] else s.logs
  {
    r, v := s, l;
    if i < |boxes| {
      var g;
      g, v := FilterKeeps(s.heap, l, nifs, boxes, i, t1, n);
      r := s.(heap := g, logs := s.logs[i := s.logs[i] + DueLastFirst(boxes[i], t1)]);
    } else {
      assert s.heap.(inbox := s.heap.inbox) == s.heap;
    }
  }

  lemma ReadingRefines<A>(s: LinkedNet<A>, l: Lists<A>, bw: real, caps: seq<real>, t0: int, hs: seq<Step<A>>, n: nat)
    returns (r: LinkedNet<A>, v: Lists<A>)
    requires Proper(caps, hs) && hs != [] && hs[|hs| - 1].Reading? && Refines(s, l, bw, caps, t0, hs[..|hs| - 1])
    requires Needed(bw, caps, t0, hs) <= n
    ensures LinkedStep(bw, caps, s, hs[|hs| - 1], n) == Some(r) && Refines(r, v, bw, caps, t0, hs)
  {
    var i, t1 := hs[|hs| - 1].j, hs[|hs| - 1].t1;
    var net, boxes := NetAfter(bw, caps, t0, hs[..|hs| - 1]), Boxes(bw, caps, t0, hs[..|hs| - 1]);
    StepShort(bw, caps, t0, hs);
    NetStep(bw, caps, t0, hs);
    BoxesStep(bw, caps, t0, hs);
    assert Addresses(hs) == Addresses(hs[..|hs| - 1]);
    r, v := ReadOne(s, l, net.nifs, boxes, i, t1, n);
    forall j | 0 <= j < |caps| ensures r.logs[j] == LogMessages(PostOf(bw, caps, t0, hs, j).log) {
      PostStep(bw, caps, t0, hs, j);
    }
  }

  /** As long as finished messages are in front at every call, the run on links ends, and its outboxes, inboxes,
      accounts and what was read are those of the run on sequences. */
  lemma {:induction false} LinkedRefines<A>(bw: real, caps: seq<real>, t0: int, hs: seq<Step<A>>, n: nat)
    returns (s: LinkedNet<A>, l: Lists<A>)
    requires Proper(caps, hs) && AlwaysInFront(bw, caps, t0, hs) && Needed(bw, caps, t0, hs) <= n
    ensures LinkedAfter(bw, caps, hs, n) == Some(s) && Refines(s, l, bw, caps, t0, hs)
  {
    if hs == [] {
      s := Unlinked(|caps|);
      l := StartRefines(bw, caps, t0);
    } else {
      var k := |hs| - 1;
      var r, v;
      InFrontPrefix(bw, caps, t0, hs, k);
      StepShort(bw, caps, t0, hs);
      ProperPrefix(caps, hs);
      r, v := LinkedRefines(bw, caps, t0, hs[..k], n);
      assert InFrontAt(bw, caps, t0, hs, k);
      if hs[k].Called? { s, l := CallRefines(r, v, bw, caps, t0, hs, n); }
      else { s, l := ReadingRefines(r, v, bw, caps, t0, hs, n); }
    }
  }

  lemma ProperPrefix<A>(caps: seq<real>, hs: seq<Step<A>>)
    requires Proper(caps, hs) && hs != []
    ensures Proper(caps, hs[..|hs| - 1])
  {
    DistinctParts(Addresses(hs[..|hs| - 1]), if hs[|hs| - 1].Called? then hs[|hs| - 1].addrs else []);
  }

  // ---------------------------------------------------------------------------
  // ... and only then
  // ---------------------------------------------------------------------------

  /** After k steps the outboxes are lists with the messages of the run on sequences. */
  ghost predicate FaithfulAt<A(!new)>(bw: real, caps: seq<real>, t0: int, hs: seq<Step<A>>, k: nat, n: nat)
    requires Sized(caps, hs) && k <= |hs|
  {
    var s := LinkedAfter(bw, caps, hs[..k], n);
    s.Some? && Holds(s.value.heap, NetAfter(bw, caps, t0, hs[..k]).nifs)
  }

  lemma HeldThen<A(!new)>(bw: real, caps: seq<real>, t0: int, hs: seq<Step<A>>, k: nat, n: nat)
    requires Proper(caps, hs) && k <= |hs| && AlwaysInFront(bw, caps, t0, hs[..k]) && Needed(bw, caps, t0, hs) <= n
    ensures FaithfulAt(bw, caps, t0, hs, k, n)
  {
    var p := hs[..k];
    PrefixFits(bw, caps, t0, hs, k);
    var s, l := LinkedRefines(bw, caps, t0, p, n);
    assert Represents(s.heap, l, NetAfter(bw, caps, t0, p).nifs, Boxes(bw, caps, t0, p));
  }

  lemma {:induction false} PrefixFits<A>(bw: real, caps: seq<real>, t0: int, hs: seq<Step<A>>, k: nat)
    requires Proper(caps, hs) && k <= |hs|
    ensures Proper(caps, hs[..k]) && Needed(bw, caps, t0, hs[..k]) <= Needed(bw, caps, t0, hs)
    decreases |hs|
  {
    if k < |hs| {
      var p := hs[..|hs| - 1];
      ProperPrefix(caps, hs);
      StepShort(bw, caps, t0, hs);
      PrefixFits(bw, caps, t0, p, k);
      assert p[..k] == hs[..k];
    } else {
      assert hs[..k] == hs;
    }
  }

  /** The outboxes after the next call are right if and only if finished messages were in front at it. */
  lemma NextIff<A(!new)>(bw: real, caps: seq<real>, t0: int, hs: seq<Step<A>>, n: nat)
    requires Proper(caps, hs) && hs != [] && AlwaysInFront(bw, caps, t0, hs[..|hs| - 1])
    requires Needed(bw, caps, t0, hs) <= n && hs[|hs| - 1].Called?
    ensures FaithfulAt(bw, caps, t0, hs, |hs|, n) <==> InFrontAt(bw, caps, t0, hs, |hs| - 1)
  {
    var p, t := hs[..|hs| - 1], hs[|hs| - 1].t;
    assert hs[..|hs|] == hs;
    ProperPrefix(caps, hs);
    StepShort(bw, caps, t0, hs);
    var s, l := LinkedRefines(bw, caps, t0, p, n);
    NewAddresses(caps, hs, s);
    NetStep(bw, caps, t0, hs);
    var r := CommitIff(s.heap, l, NetAfter(bw, caps, t0, p).nifs, Boxes(bw, caps, t0, p), bw, caps, t,
                       hs[|hs| - 1].addrs, n);
  }

  /** The outboxes are right after every step of a run if and only if no call finds a finished message behind
      an unfinished one. */
  lemma {:induction false} FaithfulIff<A(!new)>(bw: real, caps: seq<real>, t0: int, hs: seq<Step<A>>, n: nat)
    requires Proper(caps, hs) && Needed(bw, caps, t0, hs) <= n
    ensures (forall k :: 0 <= k <= |hs| ==> FaithfulAt(bw, caps, t0, hs, k, n)) <==> AlwaysInFront(bw, caps, t0, hs)
  {
    if AlwaysInFront(bw, caps, t0, hs) {
      forall k | 0 <= k <= |hs| ensures FaithfulAt(bw, caps, t0, hs, k, n) {
        InFrontPrefix(bw, caps, t0, hs, k);
        HeldThen(bw, caps, t0, hs, k, n);
      }
    }
    if forall k :: 0 <= k <= |hs| ==> FaithfulAt(bw, caps, t0, hs, k, n) { FrontSoFar(bw, caps, t0, hs, n); }
  }

  lemma FrontSnoc<A>(bw: real, caps: seq<real>, t0: int, hs: seq<Step<A>>)
    requires Sized(caps, hs) && hs != [] && AlwaysInFront(bw, caps, t0, hs[..|hs| - 1])
    requires InFrontAt(bw, caps, t0, hs, |hs| - 1)
    ensures AlwaysInFront(bw, caps, t0, hs)
  {
    var p := hs[..|hs| - 1];
    forall k | 0 <= k < |hs| ensures InFrontAt(bw, caps, t0, hs, k) {
      if k < |p| { assert InFrontAt(bw, caps, t0, p, k) && p[..k] == hs[..k]; }
    }
  }

  lemma {:induction false} FrontSoFar<A(!new)>(bw: real, caps: seq<real>, t0: int, hs: seq<Step<A>>, n: nat)
    requires Proper(caps, hs) && Needed(bw, caps, t0, hs) <= n
    requires forall q :: 0 <= q <= |hs| ==> FaithfulAt(bw, caps, t0, hs, q, n)
    ensures AlwaysInFront(bw, caps, t0, hs)
  {
    if hs != [] {
      var p := hs[..|hs| - 1];
      ProperPrefix(caps, hs);
      StepShort(bw, caps, t0, hs);
      forall q | 0 <= q <= |p| ensures FaithfulAt(bw, caps, t0, p, q, n) {
        assert FaithfulAt(bw, caps, t0, hs, q, n) && p[..q] == hs[..q];
      }
      FrontSoFar(bw, caps, t0, p, n);
      assert FaithfulAt(bw, caps, t0, hs, |hs|, n);
      if hs[|hs| - 1].Called? { NextIff(bw, caps, t0, hs, n); }
      FrontSnoc(bw, caps, t0, hs);
    }
  }

  // ---------------------------------------------------------------------------
  // When finished messages are in front
  // ---------------------------------------------------------------------------

  /** Call k makes an interface queue only when its outbox is empty. */
  ghost predicate OneAtATimeAt<A>(bw: real, caps: seq<real>, t0: int, hs: seq<Step<A>>, k: nat)
    requires Sized(caps, hs) && k < |hs|
  {
    hs[k].Called? ==> forall i :: 0 <= i < |caps| && hs[k].t.offers[i].Some? ==>
      NetAfter(bw, caps, t0, hs[..k]).nifs[i].box == []
  }

  lemma {:induction false} OneAtATime<A>(bw: real, caps: seq<real>, t0: int, hs: seq<Step<A>>)
    requires Sized(caps, hs) && forall k :: 0 <= k < |hs| ==> OneAtATimeAt(bw, caps, t0, hs, k)
    ensures AlwaysInFront(bw, caps, t0, hs) && Short(NetAfter(bw, caps, t0, hs).nifs, 1)
  {
    if hs != [] {
      var n := |hs| - 1;
      var net := NetAfter(bw, caps, t0, hs[..n]);
      forall k | 0 <= k < n ensures OneAtATimeAt(bw, caps, t0, hs[..n], k) {
        assert OneAtATimeAt(bw, caps, t0, hs, k) && hs[..n][..k] == hs[..k];
      }
      OneAtATime(bw, caps, t0, hs[..n]);
      NetStep(bw, caps, t0, hs);
      if hs[n].Called? {
        assert OneAtATimeAt(bw, caps, t0, hs, n);
        OneServed(bw, net.nifs, hs[n].t);
      }
      FrontSnoc(bw, caps, t0, hs);
    }
  }

  lemma OneServed(bw: real, nifs: seq<Sender>, t: Tick)
    requires |t.offers| == |nifs| && Short(nifs, 1)
    requires forall i :: 0 <= i < |nifs| && t.offers[i].Some? ==> nifs[i].box == []
    ensures InFront(Served(bw, nifs, t)) && Short(Commit(bw, nifs, t).nifs, 1)
  {
    var s := Served(bw, nifs, t);
    forall i | 0 <= i < |nifs| ensures FinishedInFront(s[i].box) && |Kept(s[i].box)| <= 1 {
      ServedSize(bw, nifs, t, i);
      assert |Current(nifs, t)[i].box| <= 1;
      KeptBound(s[i].box);
    }
  }
}
