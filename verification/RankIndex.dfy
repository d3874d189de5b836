/** The growable index that groups objects by rank. */
module RankIndex {

  import opened Options
  import opened LinkedList

  // ---------------------------------------------------------------------------
  // Groupings
  // ---------------------------------------------------------------------------

  /** What is stored at an ordinal. */
  function At(m: map<int, seq<Member>>, o: int): seq<Member> { if o in m then m[o] else [] }

  /** Adding one object to a grouping. */
  function Add(m: map<int, seq<Member>>, o: int, data: Member): map<int, seq<Member>>
  {
    m[o := At(m, o) + [data]]
  }

  predicate Stored(first: int, slots: seq<Option<seq<Member>>>, o: int)
  {
    first <= o < first + |slots| && slots[o - first].Some?
  }

  /** The grouping that a block of optional lists stands for, position 0 being ordinal `first`. */
  function Grouping(first: int, slots: seq<Option<seq<Member>>>): map<int, seq<Member>>
  {
    map o | first <= o < first + |slots| && Stored(first, slots, o) :: slots[o - first].value
  }

  function Extend(slot: Option<seq<Member>>, data: Member): Option<seq<Member>>
  {
    Some((if slot.Some? then slot.value else []) + [data])
  }

  lemma GroupingAdds(first: int, slots: seq<Option<seq<Member>>>, pos: nat, data: Member)
    requires pos < |slots|
    ensures Grouping(first, slots[pos := Extend(slots[pos], data)]) == Add(Grouping(first, slots), first + pos, data)
  {
  }

  /** Room at the end of the block changes nothing. */
  lemma GroupingGrows(first: int, slots: seq<Option<seq<Member>>>, room: nat)
    ensures Grouping(first, slots + seq(room, _ => None)) == Grouping(first, slots)
  {
  }

  // ---------------------------------------------------------------------------
  // The index
  // ---------------------------------------------------------------------------

  class Index {
    var ordinal: array<List?>
    var firstOrdinal: int
    var lastOrdinal: int
    var firstUsed: int
    var lastUsed: int
    /** The lists and their nodes. */
    ghost var parts: set<object>

    ghost predicate InBounds()
      reads this, ordinal
    {
      && 0 <= lastOrdinal - firstOrdinal <= ordinal.Length
      && firstOrdinal <= firstUsed && lastUsed <= lastOrdinal
      && (firstOrdinal < lastOrdinal ==> lastUsed < lastOrdinal)
      && (forall i :: lastOrdinal - firstOrdinal <= i < ordinal.Length ==> ordinal[i] == null)
    }

    /** The lists in use are properly linked and pairwise distinct; nodes know their list, so changing one
        list leaves the others alone. */
    ghost predicate Valid()
      reads this, ordinal, parts
    {
      && InBounds()
      && this !in parts && ordinal !in parts
      && (forall i, j :: 0 <= i < j < ordinal.Length && ordinal[i] != null ==> ordinal[i] != ordinal[j])
      && (forall i :: 0 <= i < ordinal.Length && ordinal[i] != null ==>
            ordinal[i] in parts && Owned(ordinal[i]) && ordinal[i].Valid())
    }

    ghost predicate Owned(list: List)
      reads this, list
    {
      list in parts && forall n :: n in list.nodes ==> n in parts
    }

    ghost function Repr(): set<object>
      reads this
    {
      {this, ordinal} + parts
    }

    /** The contents of the block, position by position. */
    ghost function Slots(): seq<Option<seq<Member>>>
      requires Valid()
      reads this, ordinal, parts
    {
      seq(lastOrdinal - firstOrdinal,
          pos requires 0 <= pos < lastOrdinal - firstOrdinal && Valid() reads this, ordinal, parts =>
            if ordinal[pos] == null then None else Some(ordinal[pos].items))
    }

    /** The grouping the index represents. */
    ghost function Content(): map<int, seq<Member>>
      requires Valid()
      reads this, ordinal, parts
    {
      Grouping(firstOrdinal, Slots())
    }

    /** The index starts empty, with first and last used reversed. */
    constructor (first: int, last: int)
      requires first <= last
      ensures Valid() && fresh(Repr()) && Content() == map[]
      ensures firstOrdinal == first && lastOrdinal == last
      ensures firstUsed == last && lastUsed == first
    {
      ordinal := new List?[last - first + 1](_ => null);
      firstOrdinal, lastOrdinal := first, last;
      firstUsed, lastUsed := last, first;
      parts := {};
    }

    /** There is no index without ordinals. */
    static method Create(first: int, last: int) returns (index: Index?)
      ensures index == null <==> last < first
      ensures index != null ==>
        && fresh(index) && index.Valid() && fresh(index.Repr()) && index.Content() == map[]
        && index.firstOrdinal == first && index.lastOrdinal == last
        && index.firstUsed == last && index.lastUsed == first
    {
      if last - first + 1 < 1 { return null; }
      index := new Index(first, last);
    }

    /** Doubling until the ordinal fits: terminates because the block is not empty, loses no list, and
        leaves room for the ordinal. */
    method Grow(o: int)
      requires Valid() && firstOrdinal < lastOrdinal <= o
      modifies this
      ensures Valid() && fresh(ordinal) && o < lastOrdinal && parts == old(parts)
      ensures firstOrdinal == old(firstOrdinal) && firstUsed == old(firstUsed) && lastUsed == old(lastUsed)
      ensures old(lastOrdinal) <= lastOrdinal
      ensures Slots() == old(Slots()) + seq(lastOrdinal - old(lastOrdinal), _ => None)
    {
      var oldSize := lastOrdinal - firstOrdinal;
      var newSize := oldSize;
      while o >= firstOrdinal + newSize
        invariant oldSize <= newSize
        decreases o - firstOrdinal - newSize
      {
        newSize := newSize * 2;
      }
      var newBlock := new List?[newSize](_ => null);
      for i := 0 to oldSize
        modifies newBlock
        invariant forall k :: 0 <= k < i ==> newBlock[k] == ordinal[k]
        invariant forall k :: i <= k < newSize ==> newBlock[k] == null
      {
        newBlock[i] := ordinal[i];
      }
      ordinal := newBlock;
      lastOrdinal := firstOrdinal + newSize;
    }

    /** Makes sure there is a list at position pos. */
    method Ensure(pos: nat) returns (list: List)
      requires Valid() && pos < lastOrdinal - firstOrdinal
      modifies `parts, ordinal
      ensures Valid() && ordinal[pos] == list
      ensures old(parts) <= parts && fresh(parts - old(parts)) && (list in old(parts) || fresh(list))
      ensures forall n :: n in list.nodes ==> n in old(parts)
      ensures list.items == if old(ordinal[pos]) == null then [] else old(ordinal[pos].items)
      ensures forall i :: 0 <= i < ordinal.Length && i != pos ==> ordinal[i] == old(ordinal[i])
    {
      if ordinal[pos] == null {
        list := new List();
        ordinal[pos] := list;
        parts := parts + {list};
      } else {
        list := ordinal[pos];
      }
    }

    /** Appending to one list leaves the others as they were, links and all. */
    method AppendAt(list: List, data: Member, pos: nat)
      requires Valid() && pos < lastOrdinal - firstOrdinal && ordinal[pos] == list
      modifies `parts, list, list.nodes
      ensures Valid() && old(parts) <= parts && fresh(parts - old(parts))
      ensures list.items == old(list.items) + [data]
      ensures forall i :: 0 <= i < ordinal.Length && ordinal[i] != null && i != pos ==>
        ordinal[i].items == old(ordinal[i].items)
    {
      var item := list.Append(data);
      parts := parts + {item};
      forall i | 0 <= i < ordinal.Length && ordinal[i] != null && i != pos
        ensures Owned(ordinal[i]) && ordinal[i].Valid() && ordinal[i].items == old(ordinal[i].items)
      {
        assert ordinal[i] != list;
      }
    }

    /** Appends to the list of a position in range, creating the list if need be. */
    method Put(data: Member, pos: nat)
      requires Valid() && pos < lastOrdinal - firstOrdinal
      modifies `parts, ordinal, parts
      ensures Valid() && old(parts) <= parts && fresh(parts - old(parts))
      ensures Slots() == old(Slots())[pos := Extend(old(Slots())[pos], data)]
    {
      var list := Ensure(pos);
      AppendAt(list, data, pos);
    }

    /** The ordinal is brought into range without changing what the index represents. */
    method Reach(o: int)
      requires Valid() && firstOrdinal <= o && firstOrdinal < lastOrdinal
      modifies this
      ensures Valid() && firstOrdinal == old(firstOrdinal) <= o < lastOrdinal
      ensures firstUsed == old(firstUsed) && lastUsed == old(lastUsed) && old(lastOrdinal) <= lastOrdinal
      ensures Content() == old(Content()) && parts == old(parts)
      ensures ordinal == old(ordinal) || fresh(ordinal)
    {
      if o >= lastOrdinal {
        ghost var was, last := Slots(), lastOrdinal;
        Grow(o);
        GroupingGrows(firstOrdinal, was, lastOrdinal - last);
      }
    }

    method PutAt(data: Member, o: int)
      requires Valid() && firstOrdinal <= o < lastOrdinal
      modifies `parts, ordinal, parts
      ensures Valid() && old(parts) <= parts && fresh(parts - old(parts))
      ensures Content() == Add(old(Content()), o, data)
    {
      GroupingAdds(firstOrdinal, Slots(), o - firstOrdinal, data);
      Put(data, o - firstOrdinal);
    }

    /** Widens the used range to include the ordinal. */
    method Touch(o: int)
      requires Valid() && firstOrdinal <= o < lastOrdinal
      modifies `firstUsed, `lastUsed
      ensures Valid() && Slots() == old(Slots())
      ensures firstUsed == if o < old(firstUsed) then o else old(firstUsed)
      ensures lastUsed == if o > old(lastUsed) then o else old(lastUsed)
    {
      if o < firstUsed { firstUsed := o; }
      if o > lastUsed { lastUsed := o; }
    }

    /** Inserting appends the object to the list of its ordinal and touches no other list; an ordinal
        below the first is refused without any change. */
    method Insert(data: Member, o: int) returns (ok: bool)
      requires Valid() && (firstOrdinal < lastOrdinal || o < firstOrdinal)
      modifies Repr()
      ensures Valid() && fresh(Repr() - old(Repr()))
      ensures ok <==> old(firstOrdinal) <= o
      ensures firstOrdinal == old(firstOrdinal) && old(lastOrdinal) <= lastOrdinal
      ensures Content() == if ok then Add(old(Content()), o, data) else old(Content())
      ensures firstUsed == if ok && o < old(firstUsed) then o else old(firstUsed)
      ensures lastUsed == if ok && o > old(lastUsed) then o else old(lastUsed)
    {
      if o < firstOrdinal {
        return false;
      }
      Reach(o);
      PutAt(data, o);
      Touch(o);
      ok := true;
    }

    /** The shuffle of the index runs over positions 0 to lastUsed - firstUsed - 1: it permutes those
        lists, each within itself, and leaves all other positions exactly as they are. */
    method Shuffle(draws: (nat, nat) -> nat)
      requires Valid()
      modifies parts
      ensures Valid() && unchanged(this) && unchanged(ordinal)
      ensures SameGrouping(Content(), old(Content()))
      ensures |Slots()| == |old(Slots())|
      ensures forall p :: 0 <= p < |Slots()| ==> SameSlot(Slots()[p], old(Slots())[p])
      ensures forall p :: 0 <= p < |Slots()| && lastUsed - firstUsed <= p ==> Slots()[p] == old(Slots())[p]
    {
      var size := lastUsed - firstUsed;
      var i := 0;
      while i < size
        invariant 0 <= i && (i <= size || i == 0) && Valid() && unchanged(this) && unchanged(ordinal)
        invariant forall p :: 0 <= p < |Slots()| ==> SameSlot(Slots()[p], old(Slots())[p])
        invariant forall p :: 0 <= p < |Slots()| && i <= p ==> Slots()[p] == old(Slots())[p]
      {
        if ordinal[i] != null { ShuffleAt(ordinal[i], i, draws); }
        i := i + 1;
      }
      SlotsToGroupings(firstOrdinal, Slots(), old(Slots()));
    }

    /** Shuffling one list leaves the others as they were. */
    method ShuffleAt(list: List, i: nat, draws: (nat, nat) -> nat)
      requires Valid() && i < lastOrdinal - firstOrdinal && ordinal[i] == list
      modifies list`items, list.nodes`data
      ensures Valid() && |Slots()| == |old(Slots())|
      ensures SameSlot(Slots()[i], old(Slots())[i])
      ensures forall p :: 0 <= p < |Slots()| && p != i ==> Slots()[p] == old(Slots())[p]
    {
      list.Shuffle(n => draws(i, n));
      forall p | 0 <= p < ordinal.Length && ordinal[p] != null && p != i
        ensures Owned(ordinal[p]) && ordinal[p].Valid()
      {
        assert ordinal[p] != list;
      }
    }
  }

  /** Doubling a block reaches a size beyond any position exactly if the block is not empty: the loop that
      grows an index created with equal first and last ordinals would not end. */
  lemma DoublingEndsIff(size: nat, pos: nat)
    ensures (exists n: nat :: Doubled(size, n) > pos) <==> size > 0
  {
    if size > 0 {
      DoubledGrows(size, pos + 1);
      assert Doubled(size, pos + 1) > pos;
    } else {
      forall n: nat ensures Doubled(0, n) == 0 { DoubledNothing(n); }
    }
  }

  /** A size after n doublings. */
  function Doubled(size: nat, n: nat): nat
    decreases n
  {
    if n == 0 then size else Doubled(size * 2, n - 1)
  }

  lemma {:induction false} DoubledGrows(size: nat, n: nat)
    requires 0 < size
    ensures Doubled(size, n) > n
    decreases n
  {
    if n > 0 {
      DoubledGrows(size, n - 1);
      DoubledTwice(size, n - 1);
    }
  }

  lemma {:induction false} DoubledTwice(size: nat, n: nat)
    ensures Doubled(size * 2, n) == 2 * Doubled(size, n)
    decreases n
  {
    if n > 0 { DoubledTwice(size * 2, n - 1); }
  }

  lemma {:induction false} DoubledNothing(n: nat)
    ensures Doubled(0, n) == 0
  {
    if n > 0 { DoubledNothing(n - 1); }
  }

  ghost predicate SameSlot(a: Option<seq<Member>>, b: Option<seq<Member>>)
  {
    (a.None? <==> b.None?) && (a.Some? ==> SameItems(a.value, b.value))
  }

  /** Every ordinal holds the same objects, possibly in another order. */
  ghost predicate SameGrouping(m: map<int, seq<Member>>, n: map<int, seq<Member>>)
  {
    m.Keys == n.Keys && forall o :: o in m ==> SameItems(m[o], n[o])
  }

  lemma SlotsToGroupings(first: int, a: seq<Option<seq<Member>>>, b: seq<Option<seq<Member>>>)
    requires |a| == |b| && forall p :: 0 <= p < |a| ==> SameSlot(a[p], b[p])
    ensures SameGrouping(Grouping(first, a), Grouping(first, b))
  {
    forall o ensures Stored(first, a, o) <==> Stored(first, b, o) {
      if first <= o < first + |a| { assert SameSlot(a[o - first], b[o - first]); }
    }
    forall o | o in Grouping(first, a) ensures SameItems(Grouping(first, a)[o], Grouping(first, b)[o]) {
      assert SameSlot(a[o - first], b[o - first]);
    }
  }
}
