/** The doubly linked lists of the core: their nodes, and the sequence they stand for. */
module LinkedList {

  /** An object header: identifier, rank and the passes its class takes part in. */
  datatype Member = Member(id: nat, rank: int, passConfig: nat)

  ghost predicate SameItems(a: seq<Member>, b: seq<Member>) { |a| == |b| && multiset(a) == multiset(b) }

  lemma SwapKeepsItems(s: seq<Member>, i: nat, j: nat)
    requires i < |s| && j < |s|
    ensures SameItems(s[i := s[j]][j := s[i]], s)
  {
    var t := s[i := s[j]];
    assert multiset(t) == multiset(s) - multiset{s[i]} + multiset{s[j]};
    assert multiset(t[j := s[i]]) == multiset(t) - multiset{t[j]} + multiset{s[i]};
  }

  /** A node belongs to one list for good. */
  class Item {
    var data: Member
    var prev: Item?
    var next: Item?
    ghost const owner: List

    constructor (data: Member, prev: Item?, next: Item?, ghost owner: List)
      ensures this.data == data && this.prev == prev && this.next == next && this.owner == owner
    {
      this.data, this.prev, this.next, this.owner := data, prev, next, owner;
    }
  }

  class List {
    var first: Item?
    var last: Item?
    var size: nat
    ghost var nodes: seq<Item>
    ghost var items: seq<Member>

    /** The links in both directions spell the nodes, and the nodes hold the items. */
    ghost predicate Valid()
      reads this, nodes
    {
      && size == |nodes| == |items|
      && first == (if nodes == [] then null else nodes[0])
      && last == (if nodes == [] then null else nodes[|nodes| - 1])
      && (forall k :: 0 <= k < |nodes| ==> nodes[k].owner == this && nodes[k].data == items[k])
      && (forall k {:trigger nodes[k].next} :: 0 <= k < |nodes| ==>
            nodes[k].next == if k + 1 < |nodes| then nodes[k + 1] else null)
      && (forall k {:trigger nodes[k].prev} :: 0 <= k < |nodes| ==>
            nodes[k].prev == if k > 0 then nodes[k - 1] else null)
      && (forall j, k :: 0 <= j < k < |nodes| ==> nodes[j] != nodes[k])
    }

    constructor ()
      ensures Valid() && items == [] && nodes == []
    {
      first, last, size := null, null, 0;
      nodes, items := [], [];
    }

    /** Appending links a new node behind the last one: the list, read in either direction, is the old
        one with the new item at its end. */
    method Append(data: Member) returns (item: Item)
      requires Valid()
      modifies this, nodes
      ensures Valid() && items == old(items) + [data]
      ensures fresh(item) && nodes == old(nodes) + [item]
    {
      item := new Item(data, last, null, this);
      if first == null { first := item; }
      if last != null { last.next := item; }
      last := item;
      size := size + 1;
      nodes, items := nodes + [item], items + [data];
    }

    /** Swaps the data of every node with that of one drawn at random; `draws` stands for the random
        numbers. No link changes. */
    method Shuffle(draws: nat -> nat)
      requires Valid()
      modifies `items, nodes`data
      ensures Valid() && nodes == old(nodes)
      ensures SameItems(items, old(items))
      ensures |old(items)| < 2 ==> items == old(items)
    {
      if size < 2 { return; }
      var index := NodeArray();
      for i := 0 to size
        invariant Valid() && nodes == old(nodes) == index[..] && SameItems(items, old(items))
      {
        var j := draws(i) % size;
        SwapKeepsItems(items, i, j);
        Swap(index[i], index[j], i, j);
      }
    }

    method Swap(from: Item, target: Item, ghost i: nat, ghost j: nat)
      requires Valid() && i < |nodes| && j < |nodes| && from == nodes[i] && target == nodes[j]
      modifies `items, from`data, target`data
      ensures Valid() && items == old(items)[i := old(items)[j]][j := old(items)[i]]
    {
      var temp := from.data;
      from.data := target.data;
      target.data := temp;
      items := items[i := items[j]][j := items[i]];
    }

    /** Following the links from the first node yields the items in order. */
    method Read() returns (s: seq<Member>)
      requires Valid()
      ensures s == items
    {
      s := [];
      var item := first;
      ghost var i := 0;
      while item != null
        invariant 0 <= i <= |nodes| && item == if i < |nodes| then nodes[i] else null
        invariant s == items[..i]
        decreases |nodes| - i
      {
        assert nodes[i].next == if i + 1 < |nodes| then nodes[i + 1] else null;
        s := s + [item.data];
        item := item.next;
        i := i + 1;
      }
    }

    /** The nodes, collected by following the links. */
    method NodeArray() returns (index: array<Item>)
      requires Valid() && 0 < size
      ensures fresh(index) && index[..] == nodes
    {
      var start: Item := first;
      index := new Item[size](_ => start);
      var item := first;
      var i := 0;
      while item != null
        invariant 0 <= i <= size && item == if i < size then nodes[i] else null
        invariant index[..i] == nodes[..i]
        decreases size - i
      {
        index[i] := item;
        assert nodes[i].next == if i + 1 < |nodes| then nodes[i + 1] else null;
        item := item.next;
        i := i + 1;
      }
    }
  }
}
