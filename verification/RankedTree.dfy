/** The object tree and the passes through it together: in a model built by accepted parent links every
    pass meets ancestors on the right side of their descendants. */
module RankedTree {
  import opened LinkedList
  import Traversal
  import ObjectRank

  /** `header` gives each object of the model the header the ranks are built from, and `parent` the headers
      of parents. */
  ghost predicate Describes(s: ObjectRank.Model, header: map<ObjectRank.Object, Member>, parent: map<Member, Member>)
    requires ObjectRank.Closed(s)
  {
    && header.Keys == s.Keys
    && (forall o :: o in s ==> header[o].rank == s[o].rank)
    && (forall m :: m in parent ==> ChildOf(s, header, parent, m))
  }

  ghost predicate ChildOf(s: ObjectRank.Model, header: map<ObjectRank.Object, Member>, parent: map<Member, Member>,
                          m: Member)
    requires ObjectRank.Closed(s) && header.Keys == s.Keys && m in parent
  {
    exists o :: o in s && header[o] == m && s[o].parent != null && parent[m] == header[s[o].parent]
  }

  lemma OrderedOutranks(s: ObjectRank.Model, header: map<ObjectRank.Object, Member>, parent: map<Member, Member>)
    requires ObjectRank.Closed(s) && ObjectRank.Ordered(s) && Describes(s, header, parent)
    ensures Traversal.ParentsOutrank(parent)
  {
    forall m | m in parent ensures parent[m].rank > m.rank {
      assert ChildOf(s, header, parent, m);
      var o :| o in s && header[o] == m && s[o].parent != null && parent[m] == header[s[o].parent];
      assert ObjectRank.Outranked(s, o);
    }
  }

  /** From a model in order, through any accepted links, to any pass: an object visited is after its
      ancestors top-down and before them bottom-up. */
  lemma LinkedModelInOrder(s: ObjectRank.Model, links: seq<(ObjectRank.Object, ObjectRank.Object?)>, count: nat,
                           t: ObjectRank.Model, header: map<ObjectRank.Object, Member>, parent: map<Member, Member>,
                           visited: seq<Member>, p: nat, i: nat, j: nat, n: nat)
    requires ObjectRank.Closed(s) && ObjectRank.Ordered(s) && ObjectRank.Accepted(s, links, count, t)
    requires ObjectRank.Closed(t) && Describes(t, header, parent)
    requires Traversal.InPassOrder(visited, p)
    requires i < |visited| && j < |visited| && Traversal.Ancestor(parent, visited[i], visited[j], n)
    ensures if p % 2 == 1 then i < j else j < i
  {
    ObjectRank.ParentsOutrank(s, links, count, t);
    OrderedOutranks(t, header, parent);
    Traversal.AncestorsInOrder(parent, visited, p, i, j, n);
  }
}
