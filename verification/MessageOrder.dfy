/** From delivery to reading: what is read from an inbox, by which filtering, and in which order. The network
    pushes what it delivers onto an inbox, and the inbox is filtered now and then. */
module MessageOrder {
  import opened Network
  import Inbox

  /** A message in an inbox, with its number among all messages the network ever delivered. */
  datatype Item = Item(msg: Msg, number: nat)

  // ---------------------------------------------------------------------------
  // What pushing and filtering do to the messages that the nodes of an inbox carry
  // ---------------------------------------------------------------------------

  function Stack(s: seq<Item>, ds: seq<Msg>, base: nat, j: nat): seq<Item>
  {
    if ds == [] then s
    else
      var n := |ds| - 1;
      var rest := Stack(s, ds[..n], base, j);
      if ds[n].to == j then [Item(ds[n], base + n)] + rest else rest
  }

  function Unread(s: seq<Item>, t1: int): seq<Item>
  {
    if s == [] then [] else if s[0].msg.end <= t1 then Unread(s[1..], t1) else [s[0]] + Unread(s[1..], t1)
  }

  function ReadOff(s: seq<Item>, t1: int): seq<Item>
  {
    if s == [] then [] else ReadOff(s[1..], t1) + if s[0].msg.end <= t1 then [s[0]] else []
  }

  function Messages(s: seq<Item>): (r: seq<Msg>)
    ensures |r| == |s|
  {
    seq(|s|, k requires 0 <= k < |s| => s[k].msg)
  }

  /** The network's inboxes are these stacks without the numbers. */
  lemma {:induction false} StackIsPushed(s: seq<Item>, ds: seq<Msg>, base: nat, j: nat)
    ensures Messages(Stack(s, ds, base, j)) == Pushed(Messages(s), ds, j)
  {
    if ds != [] { StackIsPushed(s, ds[..|ds| - 1], base, j); }
  }

  /** The nodes of a linked inbox carry these messages. */
  ghost predicate Carries(ns: seq<Inbox.Message>, s: seq<Item>)
  {
    |ns| == |s| && forall k :: 0 <= k < |s| ==> ns[k].rxDone == s[k].msg.end
  }

  /** Filtering the linked inbox leaves and reads the nodes of the messages that stay and are read. */
  lemma {:induction false} FilterCarries(ns: seq<Inbox.Message>, s: seq<Item>, t1: int)
    requires Carries(ns, s)
    ensures Carries(Inbox.Waiting(ns, t1), Unread(s, t1)) && Carries(Inbox.Arrived(ns, t1), ReadOff(s, t1))
  {
    if s != [] {
      assert ns[0].rxDone == s[0].msg.end;
      FilterCarries(ns[1..], s[1..], t1);
    }
  }

  /** Putting the nodes of the messages for an inbox on top of it, one by one, is what the network does. */
  lemma {:induction false} StackCarries(ns: seq<Inbox.Message>, s: seq<Item>, more: seq<Inbox.Message>, ds: seq<Msg>,
                                        base: nat, j: nat)
    requires Carries(ns, s) && Carries(more, Addressees(ds, base, j))
    ensures Carries(Inbox.Stacked(ns, more), Stack(s, ds, base, j))
  {
    if ds != [] {
      var n := |ds| - 1;
      var most := Addressees(ds[..n], base, j);
      if ds[n].to == j {
        assert Addressees(ds, base, j)[|most|] == Item(ds[n], base + n);
        assert most == Addressees(ds, base, j)[..|most|];
        StackCarries(ns, s, more[..|most|], ds[..n], base, j);
      } else {
        StackCarries(ns, s, more, ds[..n], base, j);
      }
    }
  }

  /** The messages that are for one interface, in their order. */
  function Addressees(ds: seq<Msg>, base: nat, j: nat): seq<Item>
  {
    if ds == [] then []
    else
      var n := |ds| - 1;
      Addressees(ds[..n], base, j) + if ds[n].to == j then [Item(ds[n], base + n)] else []
  }

  // ---------------------------------------------------------------------------
  // Runs
  // ---------------------------------------------------------------------------

  /** What happens to an inbox: a commit that delivers messages, or a filtering. */
  datatype Event = Incoming(ds: seq<Msg>) | Handle(t1: int)

  /** A message read, and the event that read it. */
  datatype Receipt = Receipt(item: Item, call: nat)

  datatype Post = Post(stack: seq<Item>, log: seq<Receipt>)

  function Deliveries(e: Event): seq<Msg>
  {
    if e.Incoming? then e.ds else []
  }

  function Count(es: seq<Event>): nat
  {
    if es == [] then 0 else Count(es[..|es| - 1]) + |Deliveries(es[|es| - 1])|
  }

  function Receipts(s: seq<Item>, call: nat): (r: seq<Receipt>)
    ensures |r| == |s|
  {
    seq(|s|, k requires 0 <= k < |s| => Receipt(s[k], call))
  }

  /** The inbox of interface j after some events, and what was read from it, in order. */
  function Posted(es: seq<Event>, j: nat): Post
  {
    if es == [] then Post([], [])
    else
      var n := |es| - 1;
      var p := Posted(es[..n], j);
      match es[n]
      case Incoming(ds) => p.(stack := Stack(p.stack, ds, Count(es[..n]), j))
      case Handle(t1) => Post(Unread(p.stack, t1), p.log + Receipts(ReadOff(p.stack, t1), n))
  }

  // ---------------------------------------------------------------------------
  // Where messages come from, and when they are read
  // ---------------------------------------------------------------------------

  /** The event that delivered message number n, and the message. */
  function Origin(es: seq<Event>, n: nat): (nat, Msg)
    requires n < Count(es)
  {
    var k := |es| - 1;
    if n < Count(es[..k]) then Origin(es[..k], n) else (k, Deliveries(es[k])[n - Count(es[..k])])
  }

  lemma {:induction false} OriginIn(es: seq<Event>, n: nat)
    requires n < Count(es)
    ensures var (p, m) := Origin(es, n);
            && p < |es| && Count(es[..p]) <= n < Count(es[..p]) + |Deliveries(es[p])|
            && m == Deliveries(es[p])[n - Count(es[..p])]
  {
    var k := |es| - 1;
    if n < Count(es[..k]) {
      OriginIn(es[..k], n);
      assert es[..k][..Origin(es[..k], n).0] == es[..Origin(es[..k], n).0];
    }
  }

  lemma OriginPrefix(es: seq<Event>, e: Event, n: nat)
    requires n < Count(es)
    ensures n < Count(es + [e]) && Origin(es + [e], n) == Origin(es, n)
  {
    assert (es + [e])[..|es|] == es;
  }

  ghost predicate DueAt(es: seq<Event>, end: int, c: nat)
    requires c < |es|
  {
    es[c].Handle? && end <= es[c].t1
  }

  /** No event after the delivering one, and before event c, filters the inbox at the message's time or later. */
  ghost predicate NotDueBefore(es: seq<Event>, n: nat, c: nat)
    requires n < Count(es) && c <= |es|
  {
    forall d :: Origin(es, n).0 < d < c ==> !DueAt(es, Origin(es, n).1.end, d)
  }

  ghost predicate Genuine(es: seq<Event>, j: nat, item: Item)
  {
    item.number < Count(es) && item.msg == Origin(es, item.number).1 && item.msg.to == j
  }

  /** A message that waits has not been due at any filtering since it came. */
  ghost predicate WaitsRightly(es: seq<Event>, j: nat, item: Item)
  {
    Genuine(es, j, item) && NotDueBefore(es, item.number, |es|)
  }

  /** A message that was read was read by the first filtering, since it came, at which it was due. */
  ghost predicate ReadRightly(es: seq<Event>, j: nat, r: Receipt)
  {
    && Genuine(es, j, r.item)
    && Origin(es, r.item.number).0 < r.call < |es|
    && DueAt(es, r.item.msg.end, r.call)
    && NotDueBefore(es, r.item.number, r.call)
  }

  /** Numbers fall from the top of the inbox down. */
  ghost predicate Falling(s: seq<Item>)
  {
    forall a, b :: 0 <= a < b < |s| ==> s[b].number < s[a].number
  }

  ghost predicate Rising(s: seq<Item>)
  {
    forall a, b :: 0 <= a < b < |s| ==> s[a].number < s[b].number
  }

  ghost predicate Before(r: Receipt, q: Receipt)
  {
    r.call < q.call || (r.call == q.call && r.item.number < q.item.number)
  }

  ghost predicate Sorted(log: seq<Receipt>)
  {
    forall x, y :: 0 <= x < y < |log| ==> Before(log[x], log[y])
  }

  /** The stack r is s with the messages for interface j on top. */
  ghost predicate StackOf(s: seq<Item>, ds: seq<Msg>, base: nat, j: nat, r: seq<Item>)
  {
    && Falling(r)
    && (forall m :: m in s ==> m in r)
    && (forall n :: 0 <= n < |ds| && ds[n].to == j ==> NumberIn(ds, base, n, r))
    && (forall m :: m in r ==> m in s || NewFrom(ds, base, j, m))
    && (forall m :: m in r ==> m.number < base + |ds|)
  }

  ghost predicate NumberIn(ds: seq<Msg>, base: nat, n: nat, r: seq<Item>)
    requires n < |ds|
  {
    Item(ds[n], base + n) in r
  }

  ghost predicate NewFrom(ds: seq<Msg>, base: nat, j: nat, m: Item)
  {
    base <= m.number < base + |ds| && m.msg == ds[m.number - base] && m.msg.to == j
  }

  lemma {:induction false} StackMembers(s: seq<Item>, ds: seq<Msg>, base: nat, j: nat)
    requires Falling(s) && forall m :: m in s ==> m.number < base
    ensures StackOf(s, ds, base, j, Stack(s, ds, base, j))
  {
    if ds != [] {
      var n := |ds| - 1;
      StackMembers(s, ds[..n], base, j);
      StackedOne(s, ds, base, j, Stack(s, ds[..n], base, j));
    }
  }

  lemma StackedOne(s: seq<Item>, ds: seq<Msg>, base: nat, j: nat, rest: seq<Item>)
    requires ds != [] && StackOf(s, ds[..|ds| - 1], base, j, rest)
    ensures StackOf(s, ds, base, j, if ds[|ds| - 1].to == j then [Item(ds[|ds| - 1], base + |ds| - 1)] + rest else rest)
  {
    var n := |ds| - 1;
    forall k | 0 <= k < n && ds[k].to == j ensures NumberIn(ds, base, k, rest) {
      assert NumberIn(ds[..n], base, k, rest);
    }
    forall m | m in rest ensures m in s || NewFrom(ds, base, j, m) { assert m in s || NewFrom(ds[..n], base, j, m); }
    if ds[n].to == j { OnTop(s, ds, base, j, rest, Item(ds[n], base + n)); }
  }

  lemma OnTop(s: seq<Item>, ds: seq<Msg>, base: nat, j: nat, rest: seq<Item>, top: Item)
    requires ds != [] && top == Item(ds[|ds| - 1], base + |ds| - 1) && top.msg.to == j
    requires Falling(rest) && forall m :: m in rest ==> m.number < top.number && (m in s || NewFrom(ds, base, j, m))
    requires forall m :: m in s ==> m in rest
    requires forall n :: 0 <= n < |ds| - 1 && ds[n].to == j ==> NumberIn(ds, base, n, rest)
    ensures StackOf(s, ds, base, j, [top] + rest)
  {
    var r := [top] + rest;
    forall n | 0 <= n < |ds| && ds[n].to == j ensures NumberIn(ds, base, n, r) {
      if n < |ds| - 1 { assert NumberIn(ds, base, n, rest); }
    }
  }

  lemma {:induction false} UnreadMembers(s: seq<Item>, t1: int)
    requires Falling(s)
    ensures Falling(Unread(s, t1))
    ensures forall m :: m in Unread(s, t1) <==> m in s && t1 < m.msg.end
  {
    if s != [] {
      UnreadMembers(s[1..], t1);
      SplitTop(s);
    }
  }

  lemma {:induction false} ReadOffMembers(s: seq<Item>, t1: int)
    requires Falling(s)
    ensures Rising(ReadOff(s, t1))
    ensures forall m :: m in ReadOff(s, t1) <==> m in s && m.msg.end <= t1
  {
    if s != [] {
      ReadOffMembers(s[1..], t1);
      SplitTop(s);
    }
  }

  lemma SplitTop(s: seq<Item>)
    requires s != [] && Falling(s)
    ensures Falling(s[1..]) && forall m :: m in s[1..] ==> m.number < s[0].number
    ensures forall m :: m in s <==> m == s[0] || m in s[1..]
  {
    assert s == [s[0]] + s[1..];
  }

  ghost predicate InOrder(es: seq<Event>, j: nat, p: Post)
  {
    && Falling(p.stack) && Sorted(p.log)
    && (forall m :: m in p.stack ==> WaitsRightly(es, j, m))
    && (forall r :: r in p.log ==> ReadRightly(es, j, r))
  }

  lemma WaitsOn(es: seq<Event>, e: Event, j: nat, m: Item)
    requires WaitsRightly(es, j, m) && !(e.Handle? && m.msg.end <= e.t1)
    ensures WaitsRightly(es + [e], j, m)
  {
    OriginPrefix(es, e, m.number);
    var o := Origin(es, m.number);
    forall d | o.0 < d < |es| + 1 ensures !DueAt(es + [e], o.1.end, d) {
      if d < |es| { assert !DueAt(es, o.1.end, d); }
    }
  }

  lemma ReadStays(es: seq<Event>, e: Event, j: nat, r: Receipt)
    requires ReadRightly(es, j, r)
    ensures ReadRightly(es + [e], j, r)
  {
    OriginPrefix(es, e, r.item.number);
    var o := Origin(es, r.item.number);
    forall d | o.0 < d < r.call ensures !DueAt(es + [e], o.1.end, d) { assert !DueAt(es, o.1.end, d); }
  }

  lemma ReadNow(es: seq<Event>, e: Event, j: nat, m: Item)
    requires WaitsRightly(es, j, m) && e.Handle? && m.msg.end <= e.t1
    ensures ReadRightly(es + [e], j, Receipt(m, |es|))
  {
    OriginIn(es, m.number);
    OriginPrefix(es, e, m.number);
    var o := Origin(es, m.number);
    forall d | o.0 < d < |es| ensures !DueAt(es + [e], o.1.end, d) { assert !DueAt(es, o.1.end, d); }
  }

  lemma CommitInOrder(es: seq<Event>, e: Event, j: nat, p: Post)
    requires InOrder(es, j, p) && e.Incoming?
    ensures InOrder(es + [e], j, p.(stack := Stack(p.stack, e.ds, Count(es), j)))
  {
    var all, base := es + [e], Count(es);
    assert all[..|es|] == es;
    StackMembers(p.stack, e.ds, base, j);
    forall m | m in Stack(p.stack, e.ds, base, j) ensures WaitsRightly(all, j, m) {
      if m in p.stack { WaitsOn(es, e, j, m); }
    }
    forall r | r in p.log ensures ReadRightly(all, j, r) { ReadStays(es, e, j, r); }
  }

  lemma HandleInOrder(es: seq<Event>, e: Event, j: nat, p: Post)
    requires InOrder(es, j, p) && e.Handle?
    ensures InOrder(es + [e], j, Post(Unread(p.stack, e.t1), p.log + Receipts(ReadOff(p.stack, e.t1), |es|)))
  {
    var all, off := es + [e], ReadOff(p.stack, e.t1);
    var more := Receipts(off, |es|);
    UnreadMembers(p.stack, e.t1);
    ReadOffMembers(p.stack, e.t1);
    forall m | m in Unread(p.stack, e.t1) ensures WaitsRightly(all, j, m) { WaitsOn(es, e, j, m); }
    forall r | r in p.log + more ensures ReadRightly(all, j, r) {
      if r in p.log {
        ReadStays(es, e, j, r);
      } else {
        assert r in more && r.item in off;
        ReadNow(es, e, j, r.item);
      }
    }
    forall x, y | 0 <= x < y < |p.log + more| ensures Before((p.log + more)[x], (p.log + more)[y]) {
      if x < |p.log| { assert ReadRightly(es, j, p.log[x]); }
    }
  }

  lemma {:induction false} PostedInOrder(es: seq<Event>, j: nat)
    ensures InOrder(es, j, Posted(es, j))
  {
    if es != [] {
      var n := |es| - 1;
      PostedInOrder(es[..n], j);
      assert es == es[..n] + [es[n]];
      if es[n].Incoming? { CommitInOrder(es[..n], es[n], j, Posted(es[..n], j)); }
      else { HandleInOrder(es[..n], es[n], j, Posted(es[..n], j)); }
    }
  }

  // ---------------------------------------------------------------------------
  // What is read, and in which order
  // ---------------------------------------------------------------------------

  ghost predicate WasRead(es: seq<Event>, j: nat, n: nat)
  {
    exists x :: 0 <= x < |Posted(es, j).log| && Posted(es, j).log[x].item.number == n
  }

  ghost predicate IsWaiting(es: seq<Event>, j: nat, n: nat)
  {
    exists k :: 0 <= k < |Posted(es, j).stack| && Posted(es, j).stack[k].number == n
  }

  /** Every message delivered to an interface either waits in its inbox or was read. */
  lemma {:induction false} NothingLost(es: seq<Event>, j: nat, n: nat)
    requires n < Count(es) && Origin(es, n).1.to == j
    ensures IsWaiting(es, j, n) || WasRead(es, j, n)
  {
    var k := |es| - 1;
    var p, q := Posted(es[..k], j), Posted(es, j);
    PostedInOrder(es[..k], j);
    if n < Count(es[..k]) {
      NothingLost(es[..k], j, n);
      if WasRead(es[..k], j, n) {
        var x :| 0 <= x < |p.log| && p.log[x].item.number == n;
        assert q.log[x] == p.log[x];
      } else {
        var w :| 0 <= w < |p.stack| && p.stack[w].number == n;
        WaitingGoesOn(es, j, p.stack[w]);
      }
    } else {
      StackMembers(p.stack, es[k].ds, Count(es[..k]), j);
      assert NumberIn(es[k].ds, Count(es[..k]), n - Count(es[..k]), q.stack);
    }
  }

  lemma WaitingGoesOn(es: seq<Event>, j: nat, m: Item)
    requires es != [] && m in Posted(es[..|es| - 1], j).stack
    ensures IsWaiting(es, j, m.number) || WasRead(es, j, m.number)
  {
    var k := |es| - 1;
    var p, q := Posted(es[..k], j), Posted(es, j);
    PostedInOrder(es[..k], j);
    if es[k].Incoming? {
      StackMembers(p.stack, es[k].ds, Count(es[..k]), j);
      assert m in q.stack;
    } else {
      UnreadMembers(p.stack, es[k].t1);
      ReadOffMembers(p.stack, es[k].t1);
      if m.msg.end <= es[k].t1 {
        var off := ReadOff(p.stack, es[k].t1);
        var y :| 0 <= y < |off| && off[y] == m;
        assert q.log[|p.log| + y] == Receipt(m, k);
      } else {
        assert m in q.stack;
      }
    }
  }

  /** A message is read once the inbox has been filtered at its time or later, and only then. */
  lemma ReadIffDue(es: seq<Event>, j: nat, n: nat)
    requires n < Count(es) && Origin(es, n).1.to == j
    ensures WasRead(es, j, n) <==>
            exists c :: Origin(es, n).0 < c < |es| && DueAt(es, Origin(es, n).1.end, c)
  {
    NothingLost(es, j, n);
    PostedInOrder(es, j);
    var q, o := Posted(es, j), Origin(es, n);
    if WasRead(es, j, n) {
      var x :| 0 <= x < |q.log| && q.log[x].item.number == n;
      assert ReadRightly(es, j, q.log[x]);
    } else {
      var w :| 0 <= w < |q.stack| && q.stack[w].number == n;
      assert WaitsRightly(es, j, q.stack[w]);
    }
  }

  /** Of two messages read, the one that was delivered first is read first, unless the other fell due at an
      earlier filtering. */
  lemma ReadOrder(es: seq<Event>, j: nat, x: nat, y: nat)
    requires x < |Posted(es, j).log| && y < |Posted(es, j).log| && x != y
    ensures x < y <==> Before(Posted(es, j).log[x], Posted(es, j).log[y])
  {
    PostedInOrder(es, j);
  }

  lemma {:induction false} CountGrows(es: seq<Event>, p: nat, q: nat)
    requires p < q <= |es|
    ensures Count(es[..p]) + |Deliveries(es[p])| <= Count(es[..q])
  {
    assert es[..q][..q - 1] == es[..q - 1];
    if p < q - 1 { CountGrows(es, p, q - 1); }
  }

  /** A message delivered no later, and due no later, is not read by a later filtering. */
  lemma CallsAscend(es: seq<Event>, j: nat, r: Receipt, q: Receipt)
    requires ReadRightly(es, j, r) && ReadRightly(es, j, q)
    requires Origin(es, r.item.number).0 <= Origin(es, q.item.number).0 && r.item.msg.end <= q.item.msg.end
    ensures r.call <= q.call
  {
    assert DueAt(es, r.item.msg.end, q.call);
  }

  lemma EarlierFirst(es: seq<Event>, n: nat, m: nat)
    requires n < Count(es) && m < Count(es) && Origin(es, n).0 < Origin(es, m).0
    ensures n < m
  {
    OriginIn(es, n);
    OriginIn(es, m);
    CountGrows(es, Origin(es, n).0, Origin(es, m).0);
  }
}
