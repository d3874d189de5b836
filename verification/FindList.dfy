/** Object search: a packed set of object ids with a cached count, searched and thinned out while it
    is being walked. */
module FindList {
  import opened Options

  // ---------------------------------------------------------------------------
  // Bits of a byte
  // ---------------------------------------------------------------------------

  /** 1 shifted left by k. */
  function Mask(k: nat): bv8
    requires k < 8
  {
    if k == 0 then 0x01 else if k == 1 then 0x02 else if k == 2 then 0x04 else if k == 3 then 0x08
    else if k == 4 then 0x10 else if k == 5 then 0x20 else if k == 6 then 0x40 else 0x80
  }

  predicate Bit(b: bv8, k: nat)
    requires k < 8
  {
    b & Mask(k) != 0
  }

  lemma SetBit(b: bv8, j: nat, k: nat)
    requires j < 8 && k < 8
    ensures Bit(b | Mask(j), k) <==> j == k || Bit(b, k)
  {
  }

  lemma ClearBit(b: bv8, j: nat, k: nat)
    requires j < 8 && k < 8
    ensures Bit(b & !Mask(j), k) <==> j != k && Bit(b, k)
  {
  }

  lemma FullByte(k: nat)
    requires k < 8
    ensures Bit(0xff, k) && !Bit(0x00, k)
  {
  }

  // ---------------------------------------------------------------------------
  // Objects
  // ---------------------------------------------------------------------------

  /** An object header; only its id and its parent matter here, tests are arbitrary functions. */
  datatype Obj = Obj(id: nat, parent: Option<Obj>, data: int)

  /** The object list: every id below n exactly once, in some order. */
  ghost predicate IsModel(objs: seq<Obj>, n: nat)
  {
    && (forall k :: 0 <= k < |objs| ==> objs[k].id < n)
    && (forall j, k :: 0 <= j < k < |objs| ==> objs[j].id != objs[k].id)
    && (forall i :: 0 <= i < n ==> HasId(objs, i))
  }

  ghost predicate HasId(objs: seq<Obj>, i: nat) { exists k :: 0 <= k < |objs| && objs[k].id == i }

  function Below(n: nat): set<nat>
  {
    if n == 0 then {} else Below(n - 1) + {n - 1}
  }

  lemma {:induction false} BelowSize(n: nat)
    ensures |Below(n)| == n && forall i: nat :: i in Below(n) <==> i < n
    decreases n
  {
    if n > 0 { BelowSize(n - 1); }
  }

  // ---------------------------------------------------------------------------
  // The list
  // ---------------------------------------------------------------------------

  class IdSet {
    var result: array<bv8>
    var hitCount: int

    predicate Found(i: nat)
      requires i / 8 < result.Length
      reads this, result
    {
      Bit(result[i / 8], i % 8)
    }

    /** The ids below n that are in the list; bits from n on are padding. */
    ghost function Ids(n: nat): set<nat>
      requires n / 8 < result.Length
      reads this, result
    {
      set i: nat | i < n && Found(i)
    }

    /** The cached count is the number of live ids. */
    ghost predicate Valid(n: nat)
      reads this, result
    {
      n / 8 < result.Length && hitCount == |Ids(n)|
    }

    constructor (n: nat)
      ensures Valid(n) && fresh(result) && Ids(n) == {}
    {
      result := new bv8[n / 8 + 1](_ => 0x00);
      hitCount := 0;
      new;
      forall i: nat | i < n ensures !Found(i) { FullByte(i % 8); }
      assert Ids(n) == {};
    }

    /** Every object of the model; the padding bits are set too, but not counted. */
    method AddAll(n: nat)
      requires Valid(n)
      modifies this, result
      ensures result == old(result)
      ensures Valid(n) && Ids(n) == Below(n)
    {
      hitCount := n;
      for k := 0 to result.Length
        modifies result
        invariant forall j :: 0 <= j < k ==> result[j] == 0xff
      {
        result[k] := 0xff;
      }
      forall i: nat | i < n ensures Found(i) { FullByte(i % 8); }
      BelowSize(n);
      assert Ids(n) == Below(n);
    }

    method Add(i: nat, n: nat)
      requires Valid(n) && i < n
      modifies this, result
      ensures result == old(result)
      ensures Valid(n) && Ids(n) == old(Ids(n)) + {i}
      ensures forall k: nat :: k / 8 < result.Length && k != i ==> (Found(k) <==> old(Found(k)))
    {
      if !Found(i) {
        result[i / 8] := result[i / 8] | Mask(i % 8);
        hitCount := hitCount + 1;
        forall k: nat | k / 8 < result.Length ensures Found(k) <==> k == i || old(Found(k)) {
          SetBit(old(result[i / 8]), i % 8, k % 8);
        }
        assert Ids(n) == old(Ids(n)) + {i};
      } else {
        assert Ids(n) == old(Ids(n)) + {i};
      }
    }

    method Del(i: nat, n: nat)
      requires Valid(n) && i < n
      modifies this, result
      ensures result == old(result)
      ensures Valid(n) && Ids(n) == old(Ids(n)) - {i}
      ensures forall k: nat :: k / 8 < result.Length && k != i ==> (Found(k) <==> old(Found(k)))
    {
      if Found(i) {
        Clear(i);
        hitCount := hitCount - 1;
      }
      assert Ids(n) == old(Ids(n)) - {i};
    }

    method Clear(i: nat)
      requires i / 8 < result.Length
      modifies result
      ensures forall k: nat :: k / 8 < result.Length ==> (Found(k) <==> k != i && old(Found(k)))
    {
      result[i / 8] := result[i / 8] & !Mask(i % 8);
      forall k: nat | k / 8 < result.Length ensures Found(k) <==> k != i && old(Found(k)) {
        ClearBit(old(result[i / 8]), i % 8, k % 8);
      }
    }

    /** The position of the next listed object after position `from`, or the end of the object list;
        position -1 asks for the first. */
    method FindNext(objs: seq<Obj>, from: int, n: nat) returns (k: int)
      requires Valid(n) && IsModel(objs, n) && -1 <= from < |objs|
      ensures from < k <= |objs|
      ensures k < |objs| ==> objs[k].id in Ids(n)
      ensures forall j :: from < j < k ==> objs[j].id !in Ids(n)
    {
      k := from + 1;
      while k < |objs| && !Found(objs[k].id)
        invariant from < k <= |objs|
        invariant forall j :: from < j < k ==> objs[j].id !in Ids(n)
      {
        k := k + 1;
      }
    }
  }

  // ---------------------------------------------------------------------------
  // Find programs
  // ---------------------------------------------------------------------------

  /** What a clause does with an object that passes or fails its test. */
  datatype Act = NoAct | Nop | AddIt | DelIt

  datatype Clause = Clause(test: Obj -> bool, pos: Act, neg: Act)

  predicate Drops(c: Clause, o: Obj) { (if c.test(o) then c.pos else c.neg).DelIt? }

  ghost predicate Kept(cs: seq<Clause>, o: Obj) { forall k :: 0 <= k < |cs| ==> !Drops(cs[k], o) }

  /** The ids of s that belong to objects no clause drops. */
  ghost function Survivors(objs: seq<Obj>, s: set<nat>, cs: seq<Clause>): set<nat>
  {
    set k | 0 <= k < |objs| && objs[k].id in s && Kept(cs, objs[k]) :: objs[k].id
  }

  ghost predicate DroppedBefore(objs: seq<Obj>, c: Clause, pos: int, i: nat)
  {
    exists k :: 0 <= k < pos && k < |objs| && objs[k].id == i && Drops(c, objs[k])
  }

  /** One clause: the walk goes on although the list loses members behind it. */
  method RunClause(list: IdSet, objs: seq<Obj>, c: Clause, n: nat)
    requires list.Valid(n) && IsModel(objs, n)
    modifies list, list.result
    ensures list.result == old(list.result) && list.Valid(n)
    ensures list.Ids(n) == Survivors(objs, old(list.Ids(n)), [c])
  {
    ghost var was := list.Ids(n);
    var k := list.FindNext(objs, -1, n);
    while k < |objs|
      invariant list.result == old(list.result) && list.Valid(n)
      invariant 0 <= k <= |objs| && (k < |objs| ==> objs[k].id in list.Ids(n))
      invariant forall i :: i in list.Ids(n) <==> i in was && !DroppedBefore(objs, c, k, i)
    {
      var o := objs[k];
      var act := if c.test(o) then c.pos else c.neg;
      match act {
        case NoAct =>
        case Nop =>
        case AddIt => list.Add(o.id, n);
        case DelIt => list.Del(o.id, n);
      }
      ghost var now := list.Ids(n);
      var next := list.FindNext(objs, k, n);
      DroppedStep(objs, n, c, k, next, was, now);
      k := next;
    }
    WalkIsSurvivors(objs, n, c, was, list.Ids(n));
  }

  lemma DroppedStep(objs: seq<Obj>, n: nat, c: Clause, k: int, next: int, was: set<nat>, now: set<nat>)
    requires IsModel(objs, n) && 0 <= k < next <= |objs|
    requires objs[k].id in was && !DroppedBefore(objs, c, k, objs[k].id)
    requires forall i :: i in now <==>
               i in was && !DroppedBefore(objs, c, k, i) && (i == objs[k].id ==> !Drops(c, objs[k]))
    requires forall j :: k < j < next ==> objs[j].id !in now
    ensures forall i :: i in now <==> i in was && !DroppedBefore(objs, c, next, i)
  {
  }

  lemma WalkIsSurvivors(objs: seq<Obj>, n: nat, c: Clause, was: set<nat>, now: set<nat>)
    requires IsModel(objs, n) && forall i :: i in was ==> i < n
    requires forall i :: i in now <==> i in was && !DroppedBefore(objs, c, |objs|, i)
    ensures now == Survivors(objs, was, [c])
  {
    forall i ensures i in now <==> i in Survivors(objs, was, [c]) {
      if i in was {
        assert HasId(objs, i);
        var k :| 0 <= k < |objs| && objs[k].id == i;
        assert [c][0] == c;
        assert Kept([c], objs[k]) <==> !Drops(c, objs[k]);
      }
    }
  }

  /** Running two programs one after the other is running their concatenation. */
  lemma SurvivorsChain(objs: seq<Obj>, n: nat, s: set<nat>, c: Clause, cs: seq<Clause>)
    requires IsModel(objs, n)
    ensures Survivors(objs, Survivors(objs, s, [c]), cs) == Survivors(objs, s, [c] + cs)
  {
    forall k | 0 <= k < |objs| ensures Kept([c] + cs, objs[k]) <==> Kept([c], objs[k]) && Kept(cs, objs[k]) {
      KeptConcat([c], cs, objs[k]);
    }
    forall i ensures i in Survivors(objs, Survivors(objs, s, [c]), cs) <==> i in Survivors(objs, s, [c] + cs) {
    }
  }

  lemma KeptConcat(a: seq<Clause>, b: seq<Clause>, o: Obj)
    ensures Kept(a + b, o) <==> Kept(a, o) && Kept(b, o)
  {
    if Kept(a + b, o) {
      assert forall k :: 0 <= k < |a| ==> a[k] == (a + b)[k];
      assert forall k :: 0 <= k < |b| ==> b[k] == (a + b)[|a| + k];
    }
  }

  /** Running a whole program leaves exactly the initial members that no clause drops. */
  method RunPgm(list: IdSet, objs: seq<Obj>, pgm: seq<Clause>, n: nat)
    requires list.Valid(n) && IsModel(objs, n)
    modifies list, list.result
    ensures list.result == old(list.result) && list.Valid(n)
    ensures list.Ids(n) == Survivors(objs, old(list.Ids(n)), pgm)
    decreases |pgm|
  {
    ghost var was := list.Ids(n);
    if pgm == [] {
      AllSurvive(objs, n, was);
    } else {
      RunClause(list, objs, pgm[0], n);
      RunPgm(list, objs, pgm[1..], n);
      SurvivorsChain(objs, n, was, pgm[0], pgm[1..]);
      assert [pgm[0]] + pgm[1..] == pgm;
    }
  }

  lemma AllSurvive(objs: seq<Obj>, n: nat, s: set<nat>)
    requires IsModel(objs, n) && forall i :: i in s ==> i < n
    ensures Survivors(objs, s, []) == s
  {
    forall i ensures i in s <==> i in Survivors(objs, s, []) {
      if i in s {
        assert HasId(objs, i);
        var k :| 0 <= k < |objs| && objs[k].id == i;
        assert Kept([], objs[k]);
      }
    }
  }

  /** A fresh search starts from every object of the model. */
  method RunPgmOnAll(objs: seq<Obj>, pgm: seq<Clause>, n: nat) returns (list: IdSet)
    requires IsModel(objs, n)
    ensures list.Valid(n) && list.Ids(n) == Survivors(objs, Below(n), pgm)
  {
    list := new IdSet(n);
    list.AddAll(n);
    RunPgm(list, objs, pgm, n);
  }

  /** The clauses a search expression compiles to: failing objects are deleted. */
  function Require(test: Obj -> bool): Clause { Clause(test, NoAct, DelIt) }

  function Compile(tests: seq<Obj -> bool>): seq<Clause>
  {
    seq(|tests|, k requires 0 <= k < |tests| => Require(tests[k]))
  }

  ghost predicate PassesAll(tests: seq<Obj -> bool>, o: Obj) { forall k :: 0 <= k < |tests| ==> tests[k](o) }

  /** A compiled search is the conjunction of its tests: it finds exactly the starting objects that
      satisfy all of them. */
  lemma CompiledSearchIsConjunction(objs: seq<Obj>, s: set<nat>, tests: seq<Obj -> bool>)
    ensures Survivors(objs, s, Compile(tests))
            == set k | 0 <= k < |objs| && objs[k].id in s && PassesAll(tests, objs[k]) :: objs[k].id
  {
    forall k | 0 <= k < |objs| ensures Kept(Compile(tests), objs[k]) <==> PassesAll(tests, objs[k]) {
      if Kept(Compile(tests), objs[k]) {
        forall j | 0 <= j < |tests| ensures tests[j](objs[k]) {
          assert !Drops(Compile(tests)[j], objs[k]);
        }
      }
    }
  }

  /** A clause with its actions turned around keeps exactly the others. */
  lemma TurnedAroundKeepsOthers(objs: seq<Obj>, s: set<nat>, test: Obj -> bool, n: nat)
    requires IsModel(objs, n)
    ensures Survivors(objs, s, [Clause(test, DelIt, NoAct)])
            == Survivors(objs, s, []) - Survivors(objs, s, [Clause(test, NoAct, DelIt)])
  {
    var pass, fail := Clause(test, NoAct, DelIt), Clause(test, DelIt, NoAct);
    forall o: Obj ensures Kept([pass], o) <==> test(o)
    {
      assert [pass][0] == pass && (!Drops([pass][0], o) <==> test(o));
    }
    forall o: Obj ensures Kept([fail], o) <==> !test(o)
    {
      assert [fail][0] == fail && (!Drops([fail][0], o) <==> !test(o));
    }
  }

  /** The order of the clauses, and repeating one, makes no difference. */
  lemma ClauseOrderIrrelevant(objs: seq<Obj>, s: set<nat>, a: seq<Clause>, b: seq<Clause>)
    requires forall c: Clause :: c in a <==> c in b
    ensures Survivors(objs, s, a) == Survivors(objs, s, b)
  {
    forall k | 0 <= k < |objs| ensures Kept(a, objs[k]) <==> Kept(b, objs[k]) {
      KeptSame(a, b, objs[k]);
      KeptSame(b, a, objs[k]);
    }
  }

  lemma KeptSame(a: seq<Clause>, b: seq<Clause>, o: Obj)
    requires forall c: Clause :: c in b ==> c in a
    ensures Kept(a, o) ==> Kept(b, o)
  {
    if Kept(a, o) {
      forall k | 0 <= k < |b| ensures !Drops(b[k], o) {
        assert b[k] in a;
        var j :| 0 <= j < |a| && a[j] == b[k];
        assert !Drops(a[j], o);
      }
    }
  }

  // ---------------------------------------------------------------------------
  // Searches by argument list
  // ---------------------------------------------------------------------------

  datatype Conj = And | Or

  /** One criterion: follow `up` parent links, test, possibly negate, combine. */
  datatype Criterion = Criterion(conj: Conj, up: nat, test: Obj -> bool, invert: bool)

  function Target(o: Obj, up: nat): Option<Obj>
    decreases up
  {
    if up == 0 then Some(o) else if o.parent.None? then None else Target(o.parent.value, up - 1)
  }

  /** What one criterion makes of an object's membership; it is skipped if the parent does not exist. */
  function Combine(before: bool, c: Criterion, o: Obj): bool
  {
    var t := Target(o, c.up);
    if t.None? then before
    else if c.conj.And? then before && (c.test(t.value) != c.invert)
    else before || (c.test(t.value) != c.invert)
  }

  /** The left-to-right fold of the criteria. */
  function Decide(before: bool, cs: seq<Criterion>, o: Obj): bool
  {
    if cs == [] then before else Combine(Decide(before, cs[..|cs| - 1], o), cs[|cs| - 1], o)
  }

  /** One criterion, adding or deleting the object's bit. */
  method Judge(list: IdSet, o: Obj, c: Criterion, n: nat)
    requires list.Valid(n) && o.id < n
    modifies list, list.result
    ensures list.result == old(list.result) && list.Valid(n)
    ensures list.Ids(n) == if Combine(o.id in old(list.Ids(n)), c, o) then old(list.Ids(n)) + {o.id}
                           else old(list.Ids(n)) - {o.id}
  {
    var target := Target(o, c.up);
    if target.Some? {
      if c.test(target.value) != c.invert {
        if c.conj.Or? { list.Add(o.id, n); }
      } else {
        if c.conj.And? { list.Del(o.id, n); }
      }
    }
  }

  method JudgeAll(list: IdSet, o: Obj, cs: seq<Criterion>, n: nat)
    requires list.Valid(n) && o.id < n
    modifies list, list.result
    ensures list.result == old(list.result) && list.Valid(n)
    ensures list.Ids(n) == if Decide(o.id in old(list.Ids(n)), cs, o) then old(list.Ids(n)) + {o.id}
                           else old(list.Ids(n)) - {o.id}
  {
    ghost var was := list.Ids(n);
    for k := 0 to |cs|
      invariant list.result == old(list.result) && list.Valid(n)
      invariant list.Ids(n) == if Decide(o.id in was, cs[..k], o) then was + {o.id} else was - {o.id}
    {
      assert cs[..k + 1][..k] == cs[..k];
      Judge(list, o, cs[k], n);
    }
    assert cs[..|cs|] == cs;
  }

  ghost predicate Decided(objs: seq<Obj>, cs: seq<Criterion>, was: set<nat>, now: set<nat>, k: nat)
    requires k <= |objs|
  {
    && (forall j :: 0 <= j < k ==> (objs[j].id in now <==> Decide(objs[j].id in was, cs, objs[j])))
    && (forall j :: k <= j < |objs| ==> (objs[j].id in now <==> objs[j].id in was))
  }

  lemma DecidedNext(objs: seq<Obj>, cs: seq<Criterion>, was: set<nat>, before: set<nat>, now: set<nat>, k: nat, n: nat)
    requires IsModel(objs, n) && k < |objs| && Decided(objs, cs, was, before, k)
    requires now == if Decide(objs[k].id in before, cs, objs[k]) then before + {objs[k].id} else before - {objs[k].id}
    ensures Decided(objs, cs, was, now, k + 1)
  {
    assert forall j :: 0 <= j < |objs| && j != k ==> objs[j].id != objs[k].id;
  }

  /** Every object ends up listed exactly if the AND/OR fold of its criteria, started from whether it
      was listed, says so. */
  method FindObjects(list: IdSet, objs: seq<Obj>, cs: seq<Criterion>, n: nat)
    requires list.Valid(n) && IsModel(objs, n)
    modifies list, list.result
    ensures list.Valid(n)
    ensures forall k :: 0 <= k < |objs| ==>
              (objs[k].id in list.Ids(n) <==> Decide(objs[k].id in old(list.Ids(n)), cs, objs[k]))
  {
    ghost var was := list.Ids(n);
    for k := 0 to |objs|
      invariant list.result == old(list.result) && list.Valid(n)
      invariant Decided(objs, cs, was, list.Ids(n), k)
    {
      ghost var before := list.Ids(n);
      JudgeAll(list, objs[k], cs, n);
      DecidedNext(objs, cs, was, before, list.Ids(n), k, n);
    }
  }

  /** With conjunctions only, a search with arguments and a compiled search find the same objects. */
  lemma {:induction false} AndOnlyIsConjunction(before: bool, cs: seq<Criterion>, o: Obj)
    requires forall k :: 0 <= k < |cs| ==> cs[k].conj.And? && Target(o, cs[k].up).Some?
    ensures Decide(before, cs, o)
            <==> before && forall k :: 0 <= k < |cs| ==> cs[k].test(Target(o, cs[k].up).value) != cs[k].invert
    decreases |cs|
  {
    if cs != [] {
      var init := cs[..|cs| - 1];
      assert forall k :: 0 <= k < |init| ==> init[k] == cs[k];
      AndOnlyIsConjunction(before, init, o);
    }
  }

  // ---------------------------------------------------------------------------
  // What a criterion means
  // ---------------------------------------------------------------------------

  /** c is the way from o up over its first `up` parents. */
  ghost predicate WayUp(o: Obj, up: nat, c: seq<Obj>)
  {
    |c| == up + 1 && c[0] == o && forall k :: 0 <= k < up ==> c[k].parent.Some? && c[k + 1] == c[k].parent.value
  }

  /** c is the whole way up from o, to an object without a parent. */
  ghost predicate WholeWayUp(o: Obj, c: seq<Obj>)
  {
    c != [] && WayUp(o, |c| - 1, c) && c[|c| - 1].parent.None?
  }

  /** The object tested is the one that so many parent links lead to. */
  lemma {:induction false} TestsAncestor(o: Obj, up: nat, c: seq<Obj>)
    requires WayUp(o, up, c)
    ensures Target(o, up) == Some(c[up])
    decreases up
  {
    if up > 0 {
      assert c[1] == c[0].parent.value;
      TestsAncestor(c[1], up - 1, c[1..]);
    }
  }

  lemma {:induction false} NoSuchAncestor(o: Obj, up: nat, c: seq<Obj>)
    requires WholeWayUp(o, c) && |c| <= up
    ensures Target(o, up).None?
    decreases up
  {
    if |c| > 1 {
      assert c[1] == c[0].parent.value;
      NoSuchAncestor(c[1], up - 1, c[1..]);
    }
  }

  /** The test comes out as it should, of the object that the way leads to. */
  predicate Passes(c: Criterion, way: seq<Obj>) { c.up < |way| && c.test(way[c.up]) != c.invert }

  lemma DecideSnoc(before: bool, cs: seq<Criterion>, c: Criterion, o: Obj)
    ensures Decide(before, cs + [c], o) == Combine(Decide(before, cs, o), c, o)
  {
    assert (cs + [c])[..|cs|] == cs;
  }

  /** One criterion more: by OR an object is listed if it was or passes, by AND if it was and passes; it passes if
      the test of its ancestor comes out as it should. Without criteria nothing changes. */
  lemma CriterionMeans(before: bool, cs: seq<Criterion>, c: Criterion, o: Obj, way: seq<Obj>)
    requires WayUp(o, c.up, way)
    ensures Decide(before, [], o) == before
    ensures c.conj.Or? ==>
              (Decide(before, cs + [c], o) <==> Decide(before, cs, o) || Passes(c, way))
    ensures c.conj.And? ==>
              (Decide(before, cs + [c], o) <==> Decide(before, cs, o) && Passes(c, way))
  {
    DecideSnoc(before, cs, c, o);
    TestsAncestor(o, c.up, way);
  }

  /** A criterion on a parent that does not exist is skipped, whatever it says. */
  lemma MissingParentSkips(before: bool, cs: seq<Criterion>, c: Criterion, o: Obj, way: seq<Obj>)
    requires WholeWayUp(o, way) && |way| <= c.up
    ensures Decide(before, cs + [c], o) == Decide(before, cs, o)
  {
    DecideSnoc(before, cs, c, o);
    NoSuchAncestor(o, c.up, way);
  }

  /** With alternatives only, a search adds exactly the objects that pass one of them; `ways` are the ways up to
      the objects tested. */
  lemma {:induction false} OrOnlyIsDisjunction(before: bool, cs: seq<Criterion>, o: Obj, ways: seq<seq<Obj>>)
    requires |ways| == |cs| && forall k :: 0 <= k < |cs| ==> cs[k].conj.Or? && WayUp(o, cs[k].up, ways[k])
    ensures Decide(before, cs, o)
            <==> before || exists k :: 0 <= k < |cs| && Passes(cs[k], ways[k])
    decreases |cs|
  {
    if cs != [] {
      var n := |cs| - 1;
      assert cs == cs[..n] + [cs[n]];
      OrOnlyIsDisjunction(before, cs[..n], o, ways[..n]);
      CriterionMeans(before, cs[..n], cs[n], o, ways[n]);
      assert Passes(cs[n], ways[n]) ==> Decide(before, cs, o);
      if before || exists k :: 0 <= k < |cs| && Passes(cs[k], ways[k]) {
        if k :| 0 <= k < n && Passes(cs[k], ways[k]) {
          assert cs[..n][k] == cs[k] && ways[..n][k] == ways[k];
        }
      }
    }
  }
}
