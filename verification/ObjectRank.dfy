/** Ranks of objects: setting a parent lifts the parents' ranks, and refuses loops. */
module ObjectRank {

  import opened Options

  class Object {
    var rank: nat
    var parent: Object?
    var rerank: bool

    constructor ()
      ensures rank == 0 && parent == null && !rerank
    {
      rank, parent, rerank := 0, null, false;
    }
  }

  /** An object's fields, and those of all objects of the model. */
  datatype Cell = Cell(rank: nat, parent: Object?, rerank: bool)

  type Model = map<Object, Cell>

  ghost function View(all: set<Object>): Model
    reads all
  {
    map o | o in all :: Cell(o.rank, o.parent, o.rerank)
  }

  ghost predicate Closed(s: Model)
  {
    forall o :: o in s && s[o].parent != null ==> s[o].parent in s
  }

  ghost function Unmarked(s: Model): set<Object>
  {
    set o | o in s && !s[o].rerank
  }

  // ---------------------------------------------------------------------------
  // Setting ranks
  // ---------------------------------------------------------------------------

  function Marked(c: Cell, rank: nat): Cell
  {
    Cell(if rank >= c.rank then rank + 1 else c.rank, c.parent, true)
  }

  /** What setting a rank does to the model, and the rank it reports unless it fails. */
  ghost function Lift(s: Model, o: Object, rank: nat, first: Object?, count: nat): (r: (Option<nat>, Model))
    requires o in s && Closed(s)
    ensures r.1.Keys == s.Keys && Closed(r.1)
    ensures forall p :: p in s ==> r.1[p].parent == s[p].parent
    decreases Unmarked(s)
  {
    if rank >= count || o == first || s[o].rerank then (None, s)
    else
      var me := Marked(s[o], rank);
      var s1 := s[o := me];
      assert o in Unmarked(s) && Unmarked(s1) == Unmarked(s) - {o};
      if me.parent == null then (Some(me.rank), s1[o := me.(rerank := false)])
      else
        var up := Lift(s1, me.parent, me.rank, if first != null then first else o, count);
        if up.0.None? then up
        else
          var mine := up.1[o];
          (Some(mine.rank), up.1[o := mine.(rerank := false)])
  }

  method SetRank(obj: Object, rank: nat, first: Object?, count: nat, ghost all: set<Object>) returns (r: Option<nat>)
    requires obj in all && Closed(View(all))
    modifies all
    decreases Unmarked(View(all))
    ensures (r, View(all)) == Lift(old(View(all)), obj, rank, first, count)
  {
    if rank >= count || obj == first || obj.rerank { return None; }
    ghost var s := View(all);
    Mark(obj, rank, all);
    assert obj in Unmarked(s) && Unmarked(View(all)) == Unmarked(s) - {obj};
    if obj.parent != null {
      r := SetRank(obj.parent, obj.rank, if first != null then first else obj, count, all);
      if r.None? { return; }
    }
    r := Unmark(obj, all);
  }

  method Mark(obj: Object, rank: nat, ghost all: set<Object>)
    requires obj in all && Closed(View(all))
    modifies obj
    ensures View(all) == old(View(all))[obj := Marked(old(View(all))[obj], rank)]
    ensures obj.rank == Marked(old(View(all))[obj], rank).rank && obj.parent == old(obj.parent) && Closed(View(all))
  {
    obj.rerank := true;
    if rank >= obj.rank { obj.rank := rank + 1; }
  }

  method Unmark(obj: Object, ghost all: set<Object>) returns (r: Option<nat>)
    requires obj in all
    modifies obj
    ensures View(all) == old(View(all))[obj := old(View(all))[obj].(rerank := false)] && r == Some(obj.rank)
  {
    obj.rerank := false;
    r := Some(obj.rank);
  }

  /** Links an object to a parent, and lifts the parent. */
  ghost function Adopt(s: Model, obj: Object, parent: Object?, count: nat): (r: (Option<nat>, Model))
    requires obj in s && Closed(s) && (parent != null ==> parent in s)
    ensures r.1.Keys == s.Keys && Closed(r.1)
  {
    if obj == parent then (None, s)
    else
      var s1 := s[obj := s[obj].(parent := parent)];
      if parent == null then (Some(s[obj].rank), s1) else Lift(s1, parent, s[obj].rank, null, count)
  }

  method SetParent(obj: Object?, parent: Object?, count: nat, ghost all: set<Object>) returns (r: Option<nat>)
    requires Closed(View(all)) && (obj != null ==> obj in all) && (parent != null ==> parent in all)
    modifies all
    ensures obj == null ==> r == None && View(all) == old(View(all))
    ensures obj != null ==> (r, View(all)) == Adopt(old(View(all)), obj, parent, count)
  {
    if obj == null || obj == parent { return None; }
    ghost var s := View(all);
    obj.parent := parent;
    assert View(all) == s[obj := s[obj].(parent := parent)];
    if parent != null {
      r := SetRank(parent, obj.rank, null, count, all);
    } else {
      r := Some(obj.rank);
    }
  }

  // ---------------------------------------------------------------------------
  // Parents outrank children
  // ---------------------------------------------------------------------------

  ghost predicate Outranked(s: Model, o: Object)
    requires o in s && Closed(s)
  {
    s[o].parent == null || s[s[o].parent].rank > s[o].rank
  }

  /** Every parent outranks its children, and no object is marked. */
  ghost predicate Ordered(s: Model)
    requires Closed(s)
  {
    forall o :: o in s ==> Outranked(s, o) && !s[o].rerank
  }

  lemma {:induction false} LiftRisesAt(s: Model, o: Object, rank: nat, first: Object?, count: nat, p: Object)
    requires o in s && Closed(s) && p in s
    ensures var t := Lift(s, o, rank, first, count).1;
            t[p].rank >= s[p].rank && (s[p].rerank ==> t[p] == s[p])
    decreases Unmarked(s)
  {
    if !(rank >= count || o == first || s[o].rerank) {
      var s1, next := s[o := Marked(s[o], rank)], if first != null then first else o;
      assert o in Unmarked(s) && Unmarked(s1) == Unmarked(s) - {o};
      if s[o].parent != null { LiftRisesAt(s1, s[o].parent, s1[o].rank, next, count, p); }
    }
  }

  lemma LiftRises(s: Model, o: Object, rank: nat, first: Object?, count: nat)
    requires o in s && Closed(s)
    ensures var t := Lift(s, o, rank, first, count).1;
            forall p :: p in s ==> t[p].rank >= s[p].rank && (s[p].rerank ==> t[p] == s[p])
  {
    forall p | p in s
      ensures var t := Lift(s, o, rank, first, count).1;
              t[p].rank >= s[p].rank && (s[p].rerank ==> t[p] == s[p])
    {
      LiftRisesAt(s, o, rank, first, count, p);
    }
  }

  /** Ranks only rise; marked objects do not change; success leaves no new mark. */
  lemma {:induction false} LiftFacts(s: Model, o: Object, rank: nat, first: Object?, count: nat)
    requires o in s && Closed(s)
    ensures var (r, t) := Lift(s, o, rank, first, count);
            && (forall p :: p in s ==> t[p].rank >= s[p].rank && (s[p].rerank ==> t[p] == s[p]))
            && (r.Some? ==> rank < r.value == t[o].rank && forall p :: p in s ==> t[p].rerank == s[p].rerank)
    decreases Unmarked(s)
  {
    LiftRises(s, o, rank, first, count);
    if !(rank >= count || o == first || s[o].rerank) {
      var s1, next := s[o := Marked(s[o], rank)], if first != null then first else o;
      assert o in Unmarked(s) && Unmarked(s1) == Unmarked(s) - {o};
      if s[o].parent != null {
        LiftFacts(s1, s[o].parent, s1[o].rank, next, count);
        var (r, t) := Lift(s1, s[o].parent, s1[o].rank, next, count);
        assert t[o] == s1[o];
      }
    }
  }

  /** Lifting an object leaves it outranked, and every other object that was. */
  lemma {:induction false} LiftKeepsOutranked(s: Model, o: Object, rank: nat, first: Object?, count: nat, p: Object)
    requires o in s && p in s && Closed(s) && Lift(s, o, rank, first, count).0.Some?
    requires p == o || Outranked(s, p)
    ensures Outranked(Lift(s, o, rank, first, count).1, p)
    decreases Unmarked(s)
  {
    var s1 := s[o := Marked(s[o], rank)];
    assert o in Unmarked(s) && Unmarked(s1) == Unmarked(s) - {o};
    if s[o].parent != null {
      var next := if first != null then first else o;
      LiftFacts(s1, s[o].parent, s1[o].rank, next, count);
      if p != o { LiftKeepsOutranked(s1, s[o].parent, s1[o].rank, next, count, p); }
    }
  }

  // ---------------------------------------------------------------------------
  // When it succeeds, and what it leaves
  // ---------------------------------------------------------------------------

  /** The objects from o up to one without a parent. */
  ghost predicate Path(s: Model, o: Object, c: seq<Object>)
  {
    && c != [] && c[0] == o
    && (forall k :: 0 <= k < |c| ==> c[k] in s)
    && (forall k {:trigger s[c[k]]} :: 0 <= k < |c| ==> s[c[k]].parent == if k + 1 < |c| then c[k + 1] else null)
  }

  /** The ranks of a path when its first object must outrank `rank`. */
  ghost function Lifted(s: Model, c: seq<Object>, rank: nat): (r: seq<nat>)
    requires forall k :: 0 <= k < |c| ==> c[k] in s
    ensures |r| == |c|
  {
    if c == [] then []
    else [Marked(s[c[0]], rank).rank] + Lifted(s, c[1..], Marked(s[c[0]], rank).rank)
  }

  /** The way up ends, meets no marked object and not the one that started, and only ranks below the
      number of objects are passed up. */
  ghost predicate CanLift(s: Model, o: Object, c: seq<Object>, rank: nat, first: Object?, count: nat)
  {
    && Path(s, o, c)
    && (forall k :: 0 <= k < |c| ==> !s[c[k]].rerank && c[k] != first)
    && rank < count && forall k :: 0 <= k < |c| - 1 ==> Lifted(s, c, rank)[k] < count
  }

  /** A way up that ends does not meet an object twice. */
  lemma PathDistinct(s: Model, o: Object, c: seq<Object>, k: nat)
    requires Path(s, o, c) && 0 < k < |c|
    ensures c[k] != o
  {
    if c[k] == o {
      var n := |c| - 1 - k;
      SameSuffix(s, o, c, k, n);
      assert false;
    }
  }

  lemma {:induction false} SameSuffix(s: Model, o: Object, c: seq<Object>, k: nat, j: nat)
    requires Path(s, o, c) && k + j < |c| && c[k] == o
    ensures c[j] == c[k + j]
    decreases j
  {
    if j > 0 {
      SameSuffix(s, o, c, k, j - 1);
      assert s[c[j - 1]].parent == c[j];
      assert s[c[k + j - 1]].parent == c[k + j];
    }
  }

  /** Ranks along a path that avoids o do not depend on o. */
  lemma {:induction false} LiftedSame(s: Model, o: Object, me: Cell, c: seq<Object>, rank: nat)
    requires o in s && forall k :: 0 <= k < |c| ==> c[k] in s && c[k] != o
    ensures Lifted(s[o := me], c, rank) == Lifted(s, c, rank)
    decreases |c|
  {
    if c != [] { LiftedSame(s, o, me, c[1..], Marked(s[c[0]], rank).rank); }
  }

  /** From the way up from o to the way up from its parent, o being marked ... */
  lemma CanLiftParent(s: Model, o: Object, c: seq<Object>, rank: nat, first: Object?, count: nat)
    requires CanLift(s, o, c, rank, first, count) && s[o].parent != null
    ensures var me := Marked(s[o], rank);
            CanLift(s[o := me], s[o].parent, c[1..], me.rank, if first != null then first else o, count)
  {
    var me, d := Marked(s[o], rank), c[1..];
    var s1 := s[o := me];
    assert |c| > 1 && c[1] == s[o].parent by { assert s[c[0]].parent == if 1 < |c| then c[1] else null; }
    forall k | 0 <= k < |d| ensures d[k] != o && s1[d[k]] == s[d[k]] { PathDistinct(s, o, c, k + 1); }
    LiftedSame(s, o, me, d, me.rank);
    assert Lifted(s, c, rank)[0] < count;
    forall k | 0 <= k < |d| - 1 ensures Lifted(s1, d, me.rank)[k] < count { assert Lifted(s, c, rank)[k + 1] < count; }
  }

  /** ... and back. */
  lemma CanLiftChild(s: Model, o: Object, d: seq<Object>, rank: nat, first: Object?, count: nat)
    requires o in s && !s[o].rerank && o != first && rank < count && s[o].parent != null
    requires var me := Marked(s[o], rank);
             CanLift(s[o := me], s[o].parent, d, me.rank, if first != null then first else o, count)
    ensures CanLift(s, o, [o] + d, rank, first, count) && o !in d
    ensures var m := Marked(s[o], rank); Lifted(s, [o] + d, rank) == [m.rank] + Lifted(s[o := m], d, m.rank)
  {
    var me, c := Marked(s[o], rank), [o] + d;
    var s1 := s[o := me];
    forall k | 0 <= k < |d| ensures d[k] != o && s1[d[k]] == s[d[k]] { assert !s1[d[k]].rerank; }
    LiftedSame(s, o, me, d, me.rank);
    assert c[1..] == d;
    forall k | 0 <= k < |c| ensures s[c[k]].parent == if k + 1 < |c| then c[k + 1] else null {
      if k > 0 { assert s1[d[k - 1]].parent == if k < |d| then d[k] else null; }
    }
  }

  /** Setting a rank succeeds if the way up can be lifted ... */
  lemma {:induction false} LiftSucceeds(s: Model, o: Object, c: seq<Object>, rank: nat, first: Object?, count: nat)
    requires Closed(s) && CanLift(s, o, c, rank, first, count)
    ensures Lift(s, o, rank, first, count).0.Some?
    decreases |c|
  {
    assert c[0] == o && !s[c[0]].rerank;
    if s[o].parent != null {
      CanLiftParent(s, o, c, rank, first, count);
      LiftSucceeds(s[o := Marked(s[o], rank)], s[o].parent, c[1..], Marked(s[o], rank).rank,
                   if first != null then first else o, count);
    }
  }

  /** ... and only then; it leaves the way up with the lifted ranks and the other objects as they were. */
  lemma {:induction false} LiftSucceeded(s: Model, o: Object, rank: nat, first: Object?, count: nat)
    returns (c: seq<Object>)
    requires o in s && Closed(s) && Lift(s, o, rank, first, count).0.Some?
    ensures CanLift(s, o, c, rank, first, count)
    ensures var t := Lift(s, o, rank, first, count).1;
            && (forall k :: 0 <= k < |c| ==> t[c[k]].rank == Lifted(s, c, rank)[k])
            && (forall p :: p in s && p !in c ==> t[p] == s[p])
    decreases Unmarked(s)
  {
    var me := Marked(s[o], rank);
    var s1, parent := s[o := me], s[o].parent;
    assert o in Unmarked(s) && Unmarked(s1) == Unmarked(s) - {o};
    if parent == null {
      c := [o];
    } else {
      var next := if first != null then first else o;
      var d := LiftSucceeded(s1, parent, me.rank, next, count);
      CanLiftChild(s, o, d, rank, first, count);
      c := [o] + d;
    }
  }

  /** Ranks that rise along a path, above `rank` and not below the present ones. */
  ghost predicate Climbs(s: Model, c: seq<Object>, rank: nat, q: seq<nat>)
    requires forall k :: 0 <= k < |c| ==> c[k] in s
  {
    && |q| == |c|
    && (forall k :: 0 <= k < |c| ==> s[c[k]].rank <= q[k])
    && (c != [] ==> rank < q[0])
    && (forall k :: 0 < k < |c| ==> q[k - 1] < q[k])
  }

  /** The lifted ranks climb, and no ranks that climb are lower anywhere. */
  lemma LiftedIsLeast(s: Model, c: seq<Object>, rank: nat)
    requires forall k :: 0 <= k < |c| ==> c[k] in s
    ensures Climbs(s, c, rank, Lifted(s, c, rank))
    ensures forall q, k :: Climbs(s, c, rank, q) && 0 <= k < |c| ==> Lifted(s, c, rank)[k] <= q[k]
  {
    LiftedClimbs(s, c, rank);
    forall q, k | Climbs(s, c, rank, q) && 0 <= k < |c| ensures Lifted(s, c, rank)[k] <= q[k] {
      NoLessClimbs(s, c, rank, q, k);
    }
  }

  lemma {:induction false} LiftedClimbs(s: Model, c: seq<Object>, rank: nat)
    requires forall k :: 0 <= k < |c| ==> c[k] in s
    ensures Climbs(s, c, rank, Lifted(s, c, rank))
    decreases |c|
  {
    if c != [] {
      var own := Marked(s[c[0]], rank).rank;
      LiftedClimbs(s, c[1..], own);
      ClimbsFrom(s, c, rank, own, Lifted(s, c[1..], own));
    }
  }

  lemma ClimbsFrom(s: Model, c: seq<Object>, rank: nat, own: nat, r: seq<nat>)
    requires c != [] && (forall k :: 0 <= k < |c| ==> c[k] in s) && own == Marked(s[c[0]], rank).rank
    requires Climbs(s, c[1..], own, r)
    ensures Climbs(s, c, rank, [own] + r)
  {
    var q := [own] + r;
    forall k | 0 < k < |c| ensures q[k - 1] < q[k] && s[c[k]].rank <= q[k] {
      assert c[k] == c[1..][k - 1] && q[k] == r[k - 1];
      if k > 1 { assert r[k - 1 - 1] < r[k - 1]; }
    }
  }

  lemma {:induction false} NoLessClimbs(s: Model, c: seq<Object>, rank: nat, q: seq<nat>, k: nat)
    requires (forall k :: 0 <= k < |c| ==> c[k] in s) && Climbs(s, c, rank, q) && k < |c|
    ensures Lifted(s, c, rank)[k] <= q[k]
    decreases |c|
  {
    ClimbsOn(s, c, rank, q);
    if k > 0 { NoLessClimbs(s, c[1..], Marked(s[c[0]], rank).rank, q[1..], k - 1); }
  }

  lemma ClimbsOn(s: Model, c: seq<Object>, rank: nat, q: seq<nat>)
    requires c != [] && (forall k :: 0 <= k < |c| ==> c[k] in s) && Climbs(s, c, rank, q)
    ensures Marked(s[c[0]], rank).rank <= q[0] && Climbs(s, c[1..], Marked(s[c[0]], rank).rank, q[1..])
  {
    var own, d, r := Marked(s[c[0]], rank).rank, c[1..], q[1..];
    assert s[c[0]].rank <= q[0] && rank < q[0];
    assert own <= q[0];
    forall k | 0 <= k < |d| ensures s[d[k]].rank <= r[k] && q[k] < r[k] {
      assert s[c[k + 1]].rank <= q[k + 1] && q[k + 1 - 1] < q[k + 1];
    }
  }

  /** An accepted link makes no loop: the new parent's way up ends without meeting the child. */
  lemma AdoptMakesNoLoop(s: Model, obj: Object, parent: Object, count: nat) returns (c: seq<Object>)
    requires obj in s && parent in s && Closed(s) && Adopt(s, obj, parent, count).0.Some?
    ensures Path(s[obj := s[obj].(parent := parent)], parent, c) && obj !in c
    ensures Adopt(s, obj, parent, count).1[obj] == s[obj].(parent := parent)
  {
    var s1 := s[obj := s[obj].(parent := parent)];
    c := LiftSucceeded(s1, parent, s[obj].rank, null, count);
    if obj in c {
      var k :| 0 <= k < |c| && c[k] == obj;
      assert s1[c[k]].parent == parent;
      PathDistinct(s1, parent, c, k + 1);
    }
  }

  /** A parent link is accepted exactly if the new parent's way up, with the link in place, can be
      lifted; a loop, a mark left by an earlier failure, or too high a rank refuse it. */
  lemma AdoptIff(s: Model, s1: Model, obj: Object, parent: Object, count: nat)
    requires obj in s && parent in s && Closed(s)
    requires s1 == s[obj := s[obj].(parent := parent)]
    ensures Adopt(s, obj, parent, count).0.Some? <==>
            obj != parent && exists c :: CanLift(s1, parent, c, s[obj].rank, null, count)
  {
    if Adopt(s, obj, parent, count).0.Some? {
      var c := LiftSucceeded(s1, parent, s[obj].rank, null, count);
    }
    if obj != parent && exists c :: CanLift(s1, parent, c, s[obj].rank, null, count) {
      var c :| CanLift(s1, parent, c, s[obj].rank, null, count);
      LiftSucceeds(s1, parent, c, s[obj].rank, null, count);
    }
  }

  /** A parent link that is accepted keeps the whole model in order. */
  lemma AdoptKeepsOrder(s: Model, obj: Object, parent: Object?, count: nat)
    requires obj in s && Closed(s) && (parent != null ==> parent in s)
    requires Ordered(s) && Adopt(s, obj, parent, count).0.Some?
    ensures Ordered(Adopt(s, obj, parent, count).1)
  {
    var s1, t := s[obj := s[obj].(parent := parent)], Adopt(s, obj, parent, count).1;
    if parent != null {
      LiftFacts(s1, parent, s[obj].rank, null, count);
      forall o | o in s ensures Outranked(t, o) && !t[o].rerank {
        if o == obj {
          var c := AdoptMakesNoLoop(s, obj, parent, count);
        } else {
          assert Outranked(s, o);
          LiftKeepsOutranked(s1, parent, s[obj].rank, null, count, o);
        }
      }
    }
  }

  /** Two models with the same parents below c[j] have the same way up to there. */
  lemma {:induction false} SameWay(s: Model, t: Model, o: Object, c: seq<Object>, d: seq<Object>, j: nat)
    requires Path(s, o, c) && Path(t, o, d) && j < |c|
    requires forall k :: 0 <= k < j ==> c[k] in t && t[c[k]].parent == s[c[k]].parent
    ensures j < |d| && d[j] == c[j]
    decreases j
  {
    if j > 0 {
      SameWay(s, t, o, c, d, j - 1);
      assert s[c[j - 1]].parent == c[j];
      assert t[d[j - 1]].parent == if j < |d| then d[j] else null;
    }
  }

  /** Making an object the parent of one of its ancestors is refused, but the link stays in place, and
      with it a loop: no way up from the object ends any more. */
  lemma LoopRefusedButKept(s: Model, obj: Object, parent: Object, c: seq<Object>, j: nat, count: nat)
    requires Closed(s) && Path(s, parent, c) && 0 < j < |c| && c[j] == obj
    ensures Adopt(s, obj, parent, count).0.None?
    ensures forall d :: !Path(Adopt(s, obj, parent, count).1, obj, d)
  {
    PathDistinct(s, parent, c, j);
    assert obj in s && parent in s by { assert c[0] in s && c[j] in s; }
    var s1, t := s[obj := s[obj].(parent := parent)], Adopt(s, obj, parent, count).1;
    forall k | 0 <= k < j ensures c[k] in s && c[k] != obj { Earlier(s, parent, c, k, j); }
    if Adopt(s, obj, parent, count).0.Some? {
      var d := AdoptMakesNoLoop(s, obj, parent, count);
      SameWay(s, s1, parent, c, d, j);
      assert false;
    }
    forall d ensures !Path(t, obj, d) {
      if Path(t, obj, d) {
        assert t[d[0]].parent == if 1 < |d| then d[1] else null;
        var e := d[1..];
        forall k | 0 <= k < |e| ensures t[e[k]].parent == if k + 1 < |e| then e[k + 1] else null {
          assert t[d[k + 1]].parent == if k + 2 < |d| then d[k + 2] else null;
        }
        SameWay(s, t, parent, c, e, j);
        PathDistinct(t, obj, d, j + 1);
        assert false;
      }
    }
  }

  /** A lift that fails leaves its first object marked, unless it fails at once. */
  lemma FailedLiftMarks(s: Model, o: Object, rank: nat, first: Object?, count: nat)
    requires o in s && Closed(s) && Lift(s, o, rank, first, count).0.None? && rank < count && o != first
    ensures Lift(s, o, rank, first, count).1[o].rerank
  {
    if !s[o].rerank && s[o].parent != null {
      var s1, next := s[o := Marked(s[o], rank)], if first != null then first else o;
      LiftRisesAt(s1, s[o].parent, s1[o].rank, next, count, o);
    }
  }

  /** A refused link leaves everything as it was if and only if the object was to be its own parent, or it had that
      parent already and the lift fails at once; otherwise the new link stays, or marks that refuse later links. */
  lemma RefusedKeepsAllIff(s: Model, obj: Object, parent: Object?, count: nat)
    requires obj in s && Closed(s) && (parent != null ==> parent in s)
    requires Adopt(s, obj, parent, count).0.None?
    ensures Adopt(s, obj, parent, count).1 == s <==>
              obj == parent || (s[obj].parent == parent && (s[obj].rank >= count || s[parent].rerank))
  {
    var s1, t := s[obj := s[obj].(parent := parent)], Adopt(s, obj, parent, count).1;
    if obj != parent {
      assert t[obj].parent == parent;
      if s[obj].parent == parent {
        assert s1 == s;
        if s[obj].rank < count && !s[parent].rerank {
          FailedLiftMarks(s, parent, s[obj].rank, null, count);
          assert t[parent].rerank;
        }
      }
    }
  }

  /** Two places of a way up hold different objects. */
  lemma Earlier(s: Model, o: Object, c: seq<Object>, k: nat, j: nat)
    requires Path(s, o, c) && k < j < |c|
    ensures c[k] != c[j]
  {
    var d := c[k..];
    forall i | 0 <= i < |d| ensures s[d[i]].parent == if i + 1 < |d| then d[i + 1] else null {
      assert s[c[k + i]].parent == if k + i + 1 < |c| then c[k + i + 1] else null;
    }
    PathDistinct(s, c[k], d, j - k);
  }

  /** One parent link after another. */
  ghost predicate Accepted(s: Model, links: seq<(Object, Object?)>, count: nat, t: Model)
    requires Closed(s)
    decreases |links|
  {
    if links == [] then t == s
    else
      var (obj, parent) := links[0];
      && obj in s && (parent != null ==> parent in s)
      && Adopt(s, obj, parent, count).0.Some? && Accepted(Adopt(s, obj, parent, count).1, links[1..], count, t)
  }

  /** Parents outrank children in every model built by accepted links from one in order. */
  lemma {:induction false} ParentsOutrank(s: Model, links: seq<(Object, Object?)>, count: nat, t: Model)
    requires Closed(s) && Ordered(s) && Accepted(s, links, count, t)
    ensures Closed(t) && Ordered(t)
    decreases |links|
  {
    if links != [] {
      var (obj, parent) := links[0];
      AdoptKeepsOrder(s, obj, parent, count);
      ParentsOutrank(Adopt(s, obj, parent, count).1, links[1..], count, t);
    }
  }
}
