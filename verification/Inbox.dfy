/** Taking delivered messages out of an interface's inbox: a linked stack that a recursive method
    filters in place, reading the messages in the order they arrived. */
module Inbox {
  import opened Sync

  // ---------------------------------------------------------------------------
  // What the filter should leave and what it should read
  // ---------------------------------------------------------------------------

  predicate Due(m: Message, t1: int) { m.rxDone <= t1 }

  /** The messages that are not due, in their order. */
  ghost function Waiting(s: seq<Message>, t1: int): seq<Message>
  {
    if s == [] then [] else if Due(s[0], t1) then Waiting(s[1..], t1) else [s[0]] + Waiting(s[1..], t1)
  }

  /** The messages that are due, last of the stack first: the order of arrival. */
  ghost function Arrived(s: seq<Message>, t1: int): seq<Message>
  {
    if s == [] then [] else Arrived(s[1..], t1) + if Due(s[0], t1) then [s[0]] else []
  }

  lemma {:induction false} Partition(s: seq<Message>, t1: int)
    ensures forall m :: m in Waiting(s, t1) <==> m in s && !Due(m, t1)
    ensures forall m :: m in Arrived(s, t1) <==> m in s && Due(m, t1)
    ensures |Waiting(s, t1)| + |Arrived(s, t1)| == |s|
  {
    if s != [] {
      Partition(s[1..], t1);
      assert s == [s[0]] + s[1..];
    }
  }

  /** Every message fits a buffer of n bytes. */
  ghost predicate Fit(ms: seq<Message>, n: nat)
  {
    forall k :: 0 <= k < |ms| ==> |ms[k].text| <= n
  }

  /** Copying a message over the start of a buffer. */
  function Overlay(buffer: seq<char>, text: seq<char>): (r: seq<char>)
    requires |text| <= |buffer|
    ensures |r| == |buffer|
  {
    text + buffer[|text|..]
  }

  ghost function Overlays(buffer: seq<char>, ms: seq<Message>): (r: seq<char>)
    requires Fit(ms, |buffer|)
    ensures |r| == |buffer|
  {
    if ms == [] then buffer
    else Overlay(Overlays(buffer, ms[..|ms| - 1]), ms[|ms| - 1].text)
  }

  ghost function LastSize(size: nat, ms: seq<Message>): nat
  {
    if ms == [] then size else |ms[|ms| - 1].text|
  }

  /** What is left at the head of the buffer is the newest of the messages read. */
  lemma NewestIsOnTop(buffer: seq<char>, ms: seq<Message>)
    requires ms != [] && Fit(ms, |buffer|)
    ensures var text := ms[|ms| - 1].text; Overlays(buffer, ms)[..|text|] == text
  {
  }

  lemma OverlaysSnoc(buffer: seq<char>, ms: seq<Message>, m: Message)
    requires |m.text| <= |buffer| && Fit(ms, |buffer|)
    ensures Overlays(buffer, ms + [m]) == Overlay(Overlays(buffer, ms), m.text)
  {
    assert (ms + [m])[..|ms|] == ms;
  }

  // ---------------------------------------------------------------------------
  // The list
  // ---------------------------------------------------------------------------

  class Message {
    const rxDone: int
    const endTime: int
    const text: seq<char>
    var next: Message?

    constructor (rxDone: int, endTime: int, text: seq<char>, next: Message?)
      ensures this.rxDone == rxDone && this.endTime == endTime && this.text == text && this.next == next
    {
      this.rxDone, this.endTime, this.text, this.next := rxDone, endTime, text, next;
    }
  }

  function Head(s: seq<Message>): Message? { if s == [] then null else s[0] }

  /** The nodes from nm on are s, none of them twice. */
  ghost predicate Chain(nm: Message?, s: seq<Message>)
    reads s
  {
    && nm == Head(s)
    && (forall k {:trigger s[k].next} :: 0 <= k < |s| ==> s[k].next == if k + 1 < |s| then s[k + 1] else null)
    && (forall j, k :: 0 <= j < k < |s| ==> s[j] != s[k])
  }

  lemma ChainTail(nm: Message, s: seq<Message>)
    requires Chain(nm, s)
    ensures Chain(nm.next, s[1..]) && s[0] == nm && nm !in s[1..]
  {
    assert s[0].next == Head(s[1..]);
  }

  lemma ChainCons(nm: Message, s: seq<Message>)
    requires nm !in s && Chain(nm.next, s)
    ensures Chain(nm, [nm] + s)
  {
    var t := [nm] + s;
    forall k | 1 <= k < |t| ensures t[k].next == if k + 1 < |t| then t[k + 1] else null {
      assert t[k] == s[k - 1];
    }
  }

  /** Nodes freed while the list s is filtered: all due nodes but the first, deepest first. */
  ghost function Dropped(s: seq<Message>, t1: int): seq<Message>
  {
    if s == [] then [] else Arrived(s[1..], t1)
  }

  /** Taking the first node off a chain; it and the second are not freed while the rest is filtered. */
  lemma Uncons(nm: Message, s: seq<Message>, t1: int, freed: seq<Message>, n: nat)
    requires Chain(nm, s) && Fit(s, n) && Disjoint(s, freed)
    ensures var rest := s[1..];
            && Chain(nm.next, rest) && Disjoint(rest, freed) && |nm.text| <= n && Fit(rest, n)
            && nm !in Waiting(rest, t1)
            && Waiting(s, t1) == (if Due(nm, t1) then Waiting(rest, t1) else [nm] + Waiting(rest, t1))
            && Arrived(s, t1) == Arrived(rest, t1) + (if Due(nm, t1) then [nm] else [])
            && nm !in freed + Dropped(rest, t1)
            && (rest != [] ==> rest[0] !in freed + Dropped(rest, t1))
            && Dropped(s, t1) == Dropped(rest, t1) + if rest != [] && Due(rest[0], t1) then [rest[0]] else []
  {
    var rest := s[1..];
    ChainTail(nm, s);
    Partition(rest, t1);
    if rest != [] {
      ChainTail(rest[0], rest);
      Partition(rest[1..], t1);
      assert forall m :: m in rest[1..] ==> m in rest;
    }
  }

  ghost predicate Disjoint(s: seq<Message>, freed: seq<Message>)
  {
    forall m :: m in s ==> m !in freed
  }

  lemma ReadOn(buffer: seq<char>, size: nat, read: seq<Message>, more: seq<Message>, m: Message)
    requires Fit(read, |buffer|) && |m.text| <= |buffer| && (more == [] || more == [m])
    ensures Fit(read + more, |buffer|)
    ensures Overlays(buffer, read + more) ==
            if more == [] then Overlays(buffer, read) else Overlay(Overlays(buffer, read), m.text)
    ensures LastSize(size, read + more) == if more == [] then LastSize(size, read) else |m.text|
  {
    if more == [] { assert read + more == read; } else { OverlaysSnoc(buffer, read, m); }
  }

  /** What reading changes in an interface, besides its list. */
  datatype Kept = Kept(buffer: seq<char>, target: seq<char>, size: nat, freed: seq<Message>)

  class Receiver {
    var inbox: Message?
    var currBufferSize: nat
    var dataBuffer: seq<char>
    /** The parent's property that the interface is attached to. */
    var target: seq<char>
    var nextMsgTime: Time
    ghost var freed: seq<Message>

    predicate Fits(m: Message)
      reads this`dataBuffer, this`target
    {
      |m.text| <= |dataBuffer| && |m.text| <= |target|
    }

    method Free(m: Message)
      requires m !in freed
      modifies this`freed
      ensures freed == old(freed) + [m]
    {
      freed := freed + [m];
    }

    ghost function State(): Kept
      reads `currBufferSize, `dataBuffer, `target, `freed
    {
      Kept(dataBuffer, target, currBufferSize, freed)
    }

    /** Since `was`, these messages were read one over the other, and these nodes were freed. */
    ghost predicate HasRead(was: Kept, read: seq<Message>, gone: seq<Message>)
      reads `currBufferSize, `dataBuffer, `target, `freed
    {
      && Fit(read, |was.buffer|) && dataBuffer == Overlays(was.buffer, read)
      && Fit(read, |was.target|) && target == Overlays(was.target, read)
      && currBufferSize == LastSize(was.size, read)
      && freed == was.freed + gone
    }

    /** Reads the due messages of a list, the last one first, and returns the list without them; `s`
        are its nodes, `read` the messages it read. All due nodes but the first are freed, once each,
        and none is used after. */
    method Filter(t1: int, nm: Message?, ghost s: seq<Message>) returns (rv: Message?, ghost read: seq<Message>)
      requires Chain(nm, s) && Fit(s, |dataBuffer|) && Fit(s, |target|) && Disjoint(s, freed)
      modifies this`currBufferSize, this`dataBuffer, this`target, this`freed, s
      ensures read == Arrived(s, t1) && HasRead(old(State()), read, Dropped(s, t1))
      ensures Chain(rv, Waiting(s, t1))
      ensures s != [] ==> (rv == s[0] <==> !Due(s[0], t1))
      decreases |s|
    {
      if nm == null { assert s == []; return null, []; }
      ghost var was, rest := State(), s[1..];
      Uncons(nm, s, t1, freed, |dataBuffer|);
      assert Fit(rest, |target|) && |nm.text| <= |target|;
      rv, read := Filter(t1, nm.next, rest);
      rv, read := Finish(t1, nm, rv, rest, Waiting(rest, t1), was, read, Dropped(rest, t1));
    }

    /** Settles a node, and reads on. */
    method Finish(t1: int, nm: Message, next: Message?, ghost rest: seq<Message>, ghost w: seq<Message>,
                  ghost was: Kept, ghost before: seq<Message>, ghost gone: seq<Message>)
      returns (rv: Message?, ghost read: seq<Message>)
      requires nm !in w && Chain(next, w) && nm.next == Head(rest)
      requires if rest == [] then next == null else rest[0] !in freed && (next == rest[0] <==> !Due(rest[0], t1))
      requires nm !in freed && Fits(nm) && (rest != [] ==> nm != rest[0]) && HasRead(was, before, gone)
      modifies this`currBufferSize, this`dataBuffer, this`target, this`freed, nm`next
      ensures Chain(rv, if Due(nm, t1) then w else [nm] + w) && (rv == nm <==> !Due(nm, t1))
      ensures read == before + if Due(nm, t1) then [nm] else []
      ensures HasRead(was, read, gone + if rest != [] && Due(rest[0], t1) then [rest[0]] else [])
    {
      rv := Settle(t1, nm, next, rest, w);
      ghost var more := if Due(nm, t1) then [nm] else [];
      ReadOn(was.buffer, was.size, before, more, nm);
      ReadOn(was.target, was.size, before, more, nm);
      read := before + more;
    }

    /** What is done with a node when the list behind it has been filtered. */
    method Settle(t1: int, nm: Message, next: Message?, ghost rest: seq<Message>, ghost w: seq<Message>)
      returns (rv: Message?)
      requires nm !in w && Chain(next, w) && nm.next == Head(rest)
      requires if rest == [] then next == null else rest[0] !in freed && (next == rest[0] <==> !Due(rest[0], t1))
      requires nm !in freed && Fits(nm) && (rest != [] ==> nm != rest[0])
      modifies this`currBufferSize, this`dataBuffer, this`target, this`freed, nm`next
      ensures Chain(rv, if Due(nm, t1) then w else [nm] + w) && (rv == nm <==> !Due(nm, t1))
      ensures freed == old(freed) + if rest != [] && Due(rest[0], t1) then [rest[0]] else []
      ensures currBufferSize == if Due(nm, t1) then |nm.text| else old(currBufferSize)
      ensures dataBuffer == if Due(nm, t1) then Overlay(old(dataBuffer), nm.text) else old(dataBuffer)
      ensures target == if Due(nm, t1) then Overlay(old(target), nm.text) else old(target)
    {
      Relink(nm, next, rest, w);
      rv := Take(t1, nm, w);
    }

    /** Reads a message if it is due, and returns the list without it. */
    method Take(t1: int, nm: Message, ghost w: seq<Message>) returns (rv: Message?)
      requires nm !in freed && Fits(nm) && nm !in w && Chain(nm.next, w)
      modifies this`currBufferSize, this`dataBuffer, this`target
      ensures Chain(rv, if Due(nm, t1) then w else [nm] + w) && (rv == nm <==> !Due(nm, t1))
      ensures currBufferSize == if Due(nm, t1) then |nm.text| else old(currBufferSize)
      ensures dataBuffer == if Due(nm, t1) then Overlay(old(dataBuffer), nm.text) else old(dataBuffer)
      ensures target == if Due(nm, t1) then Overlay(old(target), nm.text) else old(target)
    {
      if t1 >= nm.rxDone {
        currBufferSize := |nm.text|;
        dataBuffer := nm.text + dataBuffer[|nm.text|..];
        target := dataBuffer[..currBufferSize] + target[currBufferSize..];
        rv := nm.next;
      } else {
        ChainCons(nm, w);
        rv := nm;
      }
    }

    /** Drops the node after nm if the rest of the list no longer starts with it. */
    method Relink(nm: Message, rv: Message?, ghost rest: seq<Message>, ghost w: seq<Message>)
      requires nm !in w && Chain(rv, w) && nm.next == Head(rest)
      requires if rest == [] then rv == null else rest[0] !in freed
      modifies this`freed, nm`next
      ensures nm.next == rv && Chain(rv, w)
      ensures freed == old(freed) + if rv == Head(rest) then [] else [rest[0]]
    {
      if rv != nm.next {
        Free(nm.next);
        nm.next := rv;
      }
    }

    /** Takes what is due out of the inbox, and says when to come back. */
    method HandleInbox(t1: int, ghost s: seq<Message>) returns (rv: Time, ghost read: seq<Message>)
      requires Chain(inbox, s) && Fit(s, |dataBuffer|) && Fit(s, |target|) && Disjoint(s, freed)
      requires forall k :: 0 <= k < |s| ==> s[k].endTime <= TS_NEVER
      modifies this, s
      ensures read == Arrived(s, t1) && HasRead(old(State()), read, Dropped(s, t1))
      ensures Chain(inbox, Waiting(s, t1)) && Disjoint(Waiting(s, t1), freed)
      ensures read != [] ==> currBufferSize <= |target|
      ensures read != [] ==> target[..currBufferSize] == dataBuffer[..currBufferSize] == read[|read| - 1].text
      ensures rv == nextMsgTime && FirstEnd(rv, Waiting(s, t1))
    {
      WaitingUsable(s, t1, freed);
      ghost var w := Waiting(s, t1);
      var head;
      head, read := Filter(t1, inbox, s);
      rv := NextEnd(head, w);
      inbox, nextMsgTime := head, rv;
      if read != [] {
        NewestIsOnTop(old(dataBuffer), read);
        NewestIsOnTop(old(target), read);
      }
    }
  }

  method NextEnd(head: Message?, ghost w: seq<Message>) returns (next: Time)
    requires Chain(head, w) && forall k :: 0 <= k < |w| ==> w[k].endTime <= TS_NEVER
    ensures FirstEnd(next, w)
  {
    next := TS_NEVER;
    var nm := head;
    ghost var k := 0;
    while nm != null
      invariant 0 <= k <= |w| && nm == if k < |w| then w[k] else null
      invariant FirstEnd(next, w[..k])
      decreases |w| - k
    {
      assert w[k].endTime <= TS_NEVER && w[..k + 1] == w[..k] + [nm];
      if nm.endTime < next { next := nm.endTime; }
      assert w[k].next == if k + 1 < |w| then w[k + 1] else null;
      nm := nm.next;
      k := k + 1;
    }
    assert w[..k] == w;
  }

  /** The earliest end time of the messages, or never. */
  ghost predicate FirstEnd(r: int, s: seq<Message>)
  {
    && r <= TS_NEVER
    && (forall k :: 0 <= k < |s| ==> r <= s[k].endTime)
    && (r == TS_NEVER || exists k :: 0 <= k < |s| && r == s[k].endTime)
  }

  lemma WaitingUsable(s: seq<Message>, t1: int, freed: seq<Message>)
    requires Disjoint(s, freed) && forall k :: 0 <= k < |s| ==> s[k].endTime <= TS_NEVER
    ensures Disjoint(Waiting(s, t1), freed + Dropped(s, t1))
    ensures forall k :: 0 <= k < |Waiting(s, t1)| ==> Waiting(s, t1)[k] in s && Waiting(s, t1)[k].endTime <= TS_NEVER
  {
    Partition(s, t1);
    if s != [] { Partition(s[1..], t1); }
    forall k | 0 <= k < |Waiting(s, t1)| ensures Waiting(s, t1)[k] in s && Waiting(s, t1)[k].endTime <= TS_NEVER {
      assert Waiting(s, t1)[k] in Waiting(s, t1);
    }
  }

  // ---------------------------------------------------------------------------
  // Order of arrival, and what is lost
  // ---------------------------------------------------------------------------

  /** An inbox after messages arrived one after the other; each is put on top. */
  ghost function Stacked(inbox: seq<Message>, arrivals: seq<Message>): seq<Message>
  {
    if arrivals == [] then inbox
    else [arrivals[|arrivals| - 1]] + Stacked(inbox, arrivals[..|arrivals| - 1])
  }

  /** The due ones of some messages, in their order. */
  ghost function DueOf(ms: seq<Message>, t1: int): seq<Message>
  {
    if ms == [] then []
    else DueOf(ms[..|ms| - 1], t1) + if Due(ms[|ms| - 1], t1) then [ms[|ms| - 1]] else []
  }

  /** First in, first out: messages are read in the order in which they arrived. */
  lemma {:induction false} ReadInOrderOfArrival(inbox: seq<Message>, arrivals: seq<Message>, t1: int)
    ensures Arrived(Stacked(inbox, arrivals), t1) == Arrived(inbox, t1) + DueOf(arrivals, t1)
    decreases |arrivals|
  {
    var s := Stacked(inbox, arrivals);
    if arrivals == [] {
      assert Arrived(inbox, t1) + [] == Arrived(inbox, t1);
    } else {
      var n := |arrivals| - 1;
      ReadInOrderOfArrival(inbox, arrivals[..n], t1);
      assert s[1..] == Stacked(inbox, arrivals[..n]);
    }
  }

  /** A node is neither kept nor freed exactly if it is the head of the list and was due. */
  lemma LostIff(nm: Message, s: seq<Message>, t1: int, m: Message)
    requires Chain(nm, s) && m in s
    ensures m !in Waiting(s, t1) && m !in Dropped(s, t1) <==> m == nm && Due(nm, t1)
  {
    ChainTail(nm, s);
    Partition(s, t1);
    Partition(s[1..], t1);
  }
}
