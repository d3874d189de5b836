/** Building the rank index of a pass and visiting objects through it. */
module Traversal {
  import opened Bits
  import opened LinkedList
  import opened RankIndex

  /** The first and last ordinal every rank index is created with. */
  const FIRST := 0
  const LAST := 10

  /** The pass bits: pre top-down, bottom-up, post top-down. */
  function PassType(p: nat): nat
    requires p < 3
  {
    if p == 0 then 1 else if p == 1 then 2 else 4
  }

  predicate TakesPart(o: Member, p: nat)
    requires p < 3
  {
    And(o.passConfig, PassType(p)) != 0
  }

  lemma LowBit(a: nat)
    ensures And(a, 1) == a % 2 && And(a, 2) == 2 * And(a / 2, 1)
  {
    AndZero(a / 2);
  }

  /** The lowest bit of a pass configuration is for the pass that goes down before the bottom-up pass, the next for
      the bottom-up pass, the third for the one that goes down after it. */
  lemma PassOfBit(o: Member, p: nat)
    requires p < 3
    ensures TakesPart(o, p) <==> Bit(o.passConfig, p)
    ensures o.passConfig == 1 ==> (TakesPart(o, p) <==> p == 0)
    ensures o.passConfig == 2 ==> (TakesPart(o, p) <==> p == 1)
    ensures o.passConfig == 4 ==> (TakesPart(o, p) <==> p == 2)
  {
    var c := o.passConfig;
    LowBit(c);
    LowBit(c / 2);
    LowBit(c / 2 / 2);
    assert And(c, 2) == 2 * And(c / 2, 1) && And(c, 4) == 2 * And(c / 2, 2);
    assert Bit(c, 1) == Bit(c / 2, 0) && Bit(c, 2) == Bit(c / 2, 1) && Bit(c / 2, 1) == Bit(c / 2 / 2, 0);
  }

  /** The objects that use pass p, in creation order. */
  function Participants(objs: seq<Member>, p: nat): seq<Member>
    requires p < 3
  {
    if objs == [] then []
    else Participants(objs[..|objs| - 1], p)
         + if TakesPart(objs[|objs| - 1], p) then [objs[|objs| - 1]] else []
  }

  // ---------------------------------------------------------------------------
  // Grouping by rank
  // ---------------------------------------------------------------------------

  function Group(ms: seq<Member>): map<int, seq<Member>>
  {
    if ms == [] then map[] else Add(Group(ms[..|ms| - 1]), ms[|ms| - 1].rank, ms[|ms| - 1])
  }

  /** The members of one rank, in order. */
  function OfRank(ms: seq<Member>, r: int): seq<Member>
  {
    if ms == [] then []
    else OfRank(ms[..|ms| - 1], r) + if ms[|ms| - 1].rank == r then [ms[|ms| - 1]] else []
  }

  /** The group of a rank is the subsequence of the members of that rank, in the order they came. */
  lemma {:induction false} GroupIsOfRank(ms: seq<Member>, r: int)
    ensures At(Group(ms), r) == OfRank(ms, r)
    ensures r in Group(ms) <==> OfRank(ms, r) != []
    decreases |ms|
  {
    if ms != [] { GroupIsOfRank(ms[..|ms| - 1], r); }
  }

  lemma {:induction false} OfRankHasRank(ms: seq<Member>, r: int)
    ensures forall k :: 0 <= k < |OfRank(ms, r)| ==> OfRank(ms, r)[k].rank == r
    decreases |ms|
  {
    if ms != [] { OfRankHasRank(ms[..|ms| - 1], r); }
  }

  predicate AllRanksAtLeast(ms: seq<Member>, lo: int) { forall k :: 0 <= k < |ms| ==> lo <= ms[k].rank }

  predicate AllRanksAtMost(ms: seq<Member>, hi: int) { forall k :: 0 <= k < |ms| ==> ms[k].rank <= hi }

  /** firstUsed and lastUsed after inserting the members into an index created with FIRST and LAST. */
  function LowUsed(ms: seq<Member>): int
  {
    if ms == [] then LAST
    else if ms[|ms| - 1].rank < LowUsed(ms[..|ms| - 1]) then ms[|ms| - 1].rank
    else LowUsed(ms[..|ms| - 1])
  }

  function HighUsed(ms: seq<Member>): int
  {
    if ms == [] then FIRST
    else if ms[|ms| - 1].rank > HighUsed(ms[..|ms| - 1]) then ms[|ms| - 1].rank
    else HighUsed(ms[..|ms| - 1])
  }

  lemma {:induction false} UsedCoversAll(ms: seq<Member>)
    ensures AllRanksAtLeast(ms, LowUsed(ms)) && AllRanksAtMost(ms, HighUsed(ms))
    ensures LowUsed(ms) == LAST || exists k :: 0 <= k < |ms| && ms[k].rank == LowUsed(ms)
    ensures HighUsed(ms) == FIRST || exists k :: 0 <= k < |ms| && ms[k].rank == HighUsed(ms)
    ensures LowUsed(ms) <= LAST && FIRST <= HighUsed(ms)
    decreases |ms|
  {
    if ms != [] {
      var init := ms[..|ms| - 1];
      UsedCoversAll(init);
      assert forall k :: 0 <= k < |init| ==> ms[k] == init[k];
      assert ms[|ms| - 1].rank == ms[|ms| - 1].rank;
    }
  }

  /** The smallest rank in use. */
  ghost predicate IsLowest(r: int, ms: seq<Member>)
  {
    AllRanksAtLeast(ms, r) && exists k :: 0 <= k < |ms| && ms[k].rank == r
  }

  ghost predicate IsHighest(r: int, ms: seq<Member>)
  {
    AllRanksAtMost(ms, r) && exists k :: 0 <= k < |ms| && ms[k].rank == r
  }

  /** lastUsed is always the highest rank in use. firstUsed is the lowest exactly when some rank does
      not exceed the initial last ordinal: it starts there and only ever goes down. */
  lemma UsedTightIff(ms: seq<Member>)
    requires ms != [] && AllRanksAtLeast(ms, FIRST)
    ensures IsHighest(HighUsed(ms), ms)
    ensures IsLowest(LowUsed(ms), ms) <==> !AllRanksAtLeast(ms, LAST + 1)
  {
    UsedCoversAll(ms);
    if HighUsed(ms) == FIRST { assert ms[0].rank == FIRST; }
  }

  /** One object of rank 11 is enough for firstUsed to be wrong. */
  lemma UsedNotTight()
    ensures LowUsed([Member(0, 11, 1)]) == 10 && !IsLowest(10, [Member(0, 11, 1)])
  {
    assert [Member(0, 11, 1)][..0] == [];
  }

  // ---------------------------------------------------------------------------
  // Building the index of a pass
  // ---------------------------------------------------------------------------

  lemma {:induction false} RanksOfPrefix(ms: seq<Member>, o: Member)
    ensures AllRanksAtLeast(ms + [o], FIRST) <==> AllRanksAtLeast(ms, FIRST) && FIRST <= o.rank
    ensures Group(ms + [o]) == Add(Group(ms), o.rank, o)
    ensures LowUsed(ms + [o]) == if o.rank < LowUsed(ms) then o.rank else LowUsed(ms)
    ensures HighUsed(ms + [o]) == if o.rank > HighUsed(ms) then o.rank else HighUsed(ms)
  {
    var t := ms + [o];
    assert t[..|t| - 1] == ms && t[|t| - 1] == o;
    assert forall k :: 0 <= k < |ms| ==> t[k] == ms[k];
  }

  /** The index holds the members, grouped by rank in order, and its used range is that of the ranks. */
  ghost predicate Represents(ranks: Index, ms: seq<Member>)
    reads ranks, ranks.ordinal, ranks.parts
  {
    && ranks.Valid() && ranks.firstOrdinal == FIRST < ranks.lastOrdinal
    && AllRanksAtLeast(ms, FIRST)
    && ranks.Content() == Group(ms)
    && ranks.firstUsed == LowUsed(ms) && ranks.lastUsed == HighUsed(ms)
  }

  method InsertRanked(ranks: Index, o: Member, ghost ms: seq<Member>) returns (ok: bool)
    requires Represents(ranks, ms)
    modifies ranks.Repr()
    ensures fresh(ranks.Repr() - old(ranks.Repr())) && ranks.Valid()
    ensures ok <==> FIRST <= o.rank
    ensures ok ==> Represents(ranks, ms + [o])
  {
    RanksOfPrefix(ms, o);
    ok := ranks.Insert(o, o.rank);
  }

  /** The index of pass p groups exactly the objects that use the pass, by rank, in creation order. It
      fails exactly when one of them has a negative rank. */
  method BuildRanks(objs: seq<Member>, p: nat) returns (ok: bool, ranks: Index)
    requires p < 3
    ensures ok <==> AllRanksAtLeast(Participants(objs, p), FIRST)
    ensures fresh(ranks.Repr())
    ensures ok ==> Represents(ranks, Participants(objs, p))
  {
    ranks := EmptyRanks();
    ok := true;
    for i := 0 to |objs|
      invariant fresh(ranks.Repr()) && Represents(ranks, Participants(objs[..i], p))
    {
      ok := ConsiderNext(ranks, objs, p, i);
      if !ok { return; }
    }
    assert objs[..|objs|] == objs;
    OnlyRanked(ranks, Participants(objs, p));
  }

  method EmptyRanks() returns (ranks: Index)
    ensures fresh(ranks) && fresh(ranks.Repr()) && Represents(ranks, [])
  {
    ranks := new Index(FIRST, LAST);
  }

  lemma OnlyRanked(ranks: Index, ms: seq<Member>)
    requires Represents(ranks, ms)
    ensures AllRanksAtLeast(ms, FIRST)
  {
  }

  /** One object: inserted if it uses the pass. */
  method Consider(ranks: Index, o: Member, takesPart: bool, ghost ms: seq<Member>) returns (ok: bool)
    requires Represents(ranks, ms)
    modifies ranks.Repr()
    ensures fresh(ranks.Repr() - old(ranks.Repr()))
    ensures ok <==> !takesPart || FIRST <= o.rank
    ensures ok ==> Represents(ranks, if takesPart then ms + [o] else ms)
  {
    ok := true;
    if takesPart { ok := InsertRanked(ranks, o, ms); }
  }

  method ConsiderNext(ranks: Index, objs: seq<Member>, p: nat, i: nat) returns (ok: bool)
    requires p < 3 && i < |objs| && Represents(ranks, Participants(objs[..i], p))
    modifies ranks.Repr()
    ensures fresh(ranks.Repr() - old(ranks.Repr()))
    ensures if ok then Represents(ranks, Participants(objs[..i + 1], p))
            else !AllRanksAtLeast(Participants(objs, p), FIRST)
  {
    ParticipantsStep(objs, p, i);
    ok := Consider(ranks, objs[i], TakesPart(objs[i], p), Participants(objs[..i], p));
    if !ok { NegativeRankStays(objs, p, i); }
  }

  /** The index holds the members, grouped by rank, each group in some order. */
  ghost predicate Groups(ranks: Index, ms: seq<Member>)
    reads ranks, ranks.ordinal, ranks.parts
  {
    && ranks.Valid() && ranks.firstOrdinal == FIRST < ranks.lastOrdinal
    && AllRanksAtLeast(ms, FIRST)
    && SameGrouping(ranks.Content(), Group(ms))
    && ranks.firstUsed == LowUsed(ms) && ranks.lastUsed == HighUsed(ms)
  }

  /** Setting up the ranks of a pass, shuffled unless the debugger or the locks are off: the index groups
      exactly the objects that use the pass by rank. It fails exactly when one of them has a negative
      rank. */
  method SetupRanks(objs: seq<Member>, p: nat, shuffle: bool, draws: (nat, nat) -> nat) returns (ok: bool, ranks: Index)
    requires p < 3
    ensures ok <==> AllRanksAtLeast(Participants(objs, p), FIRST)
    ensures ok ==> Groups(ranks, Participants(objs, p))
    ensures ok && !shuffle ==> ranks.Content() == Group(Participants(objs, p))
  {
    ok, ranks := BuildRanks(objs, p);
    if ok && shuffle { ranks.Shuffle(draws); }
  }

  lemma NegativeRankStays(objs: seq<Member>, p: nat, i: nat)
    requires p < 3 && i < |objs| && TakesPart(objs[i], p) && objs[i].rank < FIRST
    ensures !AllRanksAtLeast(Participants(objs, p), FIRST)
  {
    ParticipantsStep(objs, p, i);
    ParticipantsPrefix(objs, p, i + 1);
    var ms := Participants(objs[..i + 1], p);
    assert ms[|ms| - 1] == Participants(objs, p)[|ms| - 1] == objs[i];
  }

  lemma ParticipantsStep(objs: seq<Member>, p: nat, i: nat)
    requires p < 3 && i < |objs|
    ensures Participants(objs[..i + 1], p)
            == if TakesPart(objs[i], p) then Participants(objs[..i], p) + [objs[i]] else Participants(objs[..i], p)
  {
    assert objs[..i + 1][..i] == objs[..i];
    assert Participants(objs[..i], p) + [] == Participants(objs[..i], p);
  }

  lemma {:induction false} ParticipantsPrefix(objs: seq<Member>, p: nat, i: nat)
    requires p < 3 && i <= |objs|
    ensures Participants(objs[..i], p) <= Participants(objs, p)
    decreases |objs| - i
  {
    if i < |objs| {
      ParticipantsPrefix(objs, p, i + 1);
      assert objs[..i + 1][..i] == objs[..i];
    } else {
      assert objs[..i] == objs;
    }
  }

  // ---------------------------------------------------------------------------
  // Visiting
  // ---------------------------------------------------------------------------

  /** Ranks lo to hi, upwards. */
  function Up(m: map<int, seq<Member>>, lo: int, hi: int): seq<Member>
    decreases hi - lo
  {
    if hi < lo then [] else Up(m, lo, hi - 1) + At(m, hi)
  }

  /** Ranks hi to lo, downwards. */
  function Down(m: map<int, seq<Member>>, lo: int, hi: int): seq<Member>
    decreases hi - lo
  {
    if hi < lo then [] else Down(m, lo + 1, hi) + At(m, lo)
  }

  /** The order of pass p: the bottom-up pass goes up, the two top-down passes go down. */
  function Visit(m: map<int, seq<Member>>, p: nat, lo: int, hi: int): seq<Member>
  {
    if p % 2 == 1 then Up(m, lo, hi) else Down(m, lo, hi)
  }

  function PassInit(ranks: Index, p: nat): int
    reads ranks
  {
    if p % 2 == 1 then ranks.firstUsed else ranks.lastUsed
  }

  predicate PassCmp(ranks: Index, i: int, p: nat)
    reads ranks
  {
    if p % 2 == 1 then i <= ranks.lastUsed else i >= ranks.firstUsed
  }

  function PassInc(p: nat): int { if p % 2 == 1 then 1 else -1 }

  /** What is read at an ordinal: its list, or nothing. */
  method ReadOrdinal(ranks: Index, i: int, ghost m: map<int, seq<Member>>) returns (items: seq<Member>)
    requires ranks.Valid() && ranks.firstOrdinal == 0 <= i < ranks.lastOrdinal && m == ranks.Content()
    ensures items == At(m, i)
  {
    var list := ranks.ordinal[i];
    assert ranks.Slots()[i].Some? <==> list != null;
    assert Stored(0, ranks.Slots(), i) <==> list != null;
    if list == null { return []; }
    items := list.Read();
  }

  /** Walking the used range of the index visits the grouping in pass order, stays inside the block and
      skips ordinals without a list. */
  method Walk(ranks: Index, p: nat) returns (visited: seq<Member>)
    requires ranks.Valid() && ranks.firstOrdinal == 0 < ranks.lastOrdinal
    ensures visited == Visit(ranks.Content(), p, ranks.firstUsed, ranks.lastUsed)
  {
    visited := WalkUsed(ranks, p, ranks.Content());
  }

  /** What has been visited when ordinal i is next. */
  function SoFar(m: map<int, seq<Member>>, p: nat, lo: int, hi: int, i: int): seq<Member>
  {
    if p % 2 == 1 then Up(m, lo, i - 1) else Down(m, i + 1, hi)
  }

  lemma SoFarStep(m: map<int, seq<Member>>, p: nat, lo: int, hi: int, i: int)
    requires lo <= i <= hi
    ensures SoFar(m, p, lo, hi, i + PassInc(p)) == SoFar(m, p, lo, hi, i) + At(m, i)
  {
  }

  method WalkUsed(ranks: Index, p: nat, ghost m: map<int, seq<Member>>) returns (visited: seq<Member>)
    requires ranks.Valid() && ranks.firstOrdinal == 0 < ranks.lastOrdinal && m == ranks.Content()
    ensures visited == Visit(m, p, ranks.firstUsed, ranks.lastUsed)
  {
    ghost var lo, hi := ranks.firstUsed, ranks.lastUsed;
    visited := [];
    var i := PassInit(ranks, p);
    while PassCmp(ranks, i, p)
      invariant ranks.Valid() && m == ranks.Content()
      invariant if p % 2 == 1 then lo <= i <= hi + 1 || i == lo else lo - 1 <= i <= hi || i == hi
      invariant visited == SoFar(m, p, lo, hi, i)
      decreases if p % 2 == 1 then hi - i else i - lo
    {
      var items := ReadOrdinal(ranks, i, m);
      SoFarStep(m, p, lo, hi, i);
      visited := visited + items;
      i := i + PassInc(p);
    }
  }

  ghost predicate RanksAgree(m: map<int, seq<Member>>)
  {
    forall r, k :: r in m && 0 <= k < |m[r]| ==> m[r][k].rank == r
  }

  lemma {:induction false} UpSorted(m: map<int, seq<Member>>, lo: int, hi: int)
    requires RanksAgree(m)
    ensures forall i, j :: 0 <= i < j < |Up(m, lo, hi)| ==> Up(m, lo, hi)[i].rank <= Up(m, lo, hi)[j].rank
    ensures forall i :: 0 <= i < |Up(m, lo, hi)| ==> Up(m, lo, hi)[i].rank <= hi
    decreases hi - lo
  {
    if lo <= hi { UpSorted(m, lo, hi - 1); }
  }

  lemma {:induction false} DownSorted(m: map<int, seq<Member>>, lo: int, hi: int)
    requires RanksAgree(m)
    ensures forall i, j :: 0 <= i < j < |Down(m, lo, hi)| ==> Down(m, lo, hi)[j].rank <= Down(m, lo, hi)[i].rank
    ensures forall i :: 0 <= i < |Down(m, lo, hi)| ==> lo <= Down(m, lo, hi)[i].rank
    decreases hi - lo
  {
    if lo <= hi { DownSorted(m, lo + 1, hi); }
  }

  /** Members with ranks in the range, counted rank by rank. */
  function Within(ms: seq<Member>, lo: int, hi: int): multiset<Member>
  {
    if ms == [] then multiset{}
    else Within(ms[..|ms| - 1], lo, hi)
         + if lo <= ms[|ms| - 1].rank <= hi then multiset{ms[|ms| - 1]} else multiset{}
  }

  lemma {:induction false} WithinSplits(ms: seq<Member>, lo: int, mid: int, hi: int)
    requires lo <= mid <= hi
    ensures Within(ms, lo, hi) == Within(ms, lo, mid - 1) + multiset(OfRank(ms, mid)) + Within(ms, mid + 1, hi)
    decreases |ms|
  {
    if ms != [] { WithinSplits(ms[..|ms| - 1], lo, mid, hi); }
  }

  lemma {:induction false} WithinEmpty(ms: seq<Member>, lo: int, hi: int)
    requires hi < lo
    ensures Within(ms, lo, hi) == multiset{}
    decreases |ms|
  {
    if ms != [] { WithinEmpty(ms[..|ms| - 1], lo, hi); }
  }

  lemma {:induction false} WithinAll(ms: seq<Member>, lo: int, hi: int)
    requires AllRanksAtLeast(ms, lo) && AllRanksAtMost(ms, hi)
    ensures Within(ms, lo, hi) == multiset(ms)
    decreases |ms|
  {
    if ms != [] {
      var init := ms[..|ms| - 1];
      WithinAll(init, lo, hi);
      assert ms == init + [ms[|ms| - 1]];
    }
  }

  lemma {:induction false} UpCounts(ms: seq<Member>, m: map<int, seq<Member>>, lo: int, hi: int)
    requires SameGrouping(m, Group(ms))
    ensures multiset(Up(m, lo, hi)) == Within(ms, lo, hi)
    decreases hi - lo
  {
    if hi < lo {
      WithinEmpty(ms, lo, hi);
    } else {
      UpCounts(ms, m, lo, hi - 1);
      WithinSplits(ms, lo, hi, hi);
      WithinEmpty(ms, hi + 1, hi);
      GroupIsOfRank(ms, hi);
    }
  }

  lemma {:induction false} DownCounts(ms: seq<Member>, m: map<int, seq<Member>>, lo: int, hi: int)
    requires SameGrouping(m, Group(ms))
    ensures multiset(Down(m, lo, hi)) == Within(ms, lo, hi)
    decreases hi - lo
  {
    if hi < lo {
      WithinEmpty(ms, lo, hi);
    } else {
      DownCounts(ms, m, lo + 1, hi);
      WithinSplits(ms, lo, lo, hi);
      WithinEmpty(ms, lo, lo - 1);
      GroupIsOfRank(ms, lo);
    }
  }

  lemma GroupRanksAgree(ms: seq<Member>, m: map<int, seq<Member>>)
    requires SameGrouping(m, Group(ms))
    ensures RanksAgree(m)
  {
    forall r, k | r in m && 0 <= k < |m[r]| ensures m[r][k].rank == r {
      GroupIsOfRank(ms, r);
      OfRankHasRank(ms, r);
      assert m[r][k] in multiset(m[r]) && m[r][k] in multiset(OfRank(ms, r));
      assert m[r][k] in OfRank(ms, r);
    }
  }

  ghost predicate InPassOrder(v: seq<Member>, p: nat)
  {
    forall i, j :: 0 <= i < j < |v| ==> if p % 2 == 1 then v[i].rank <= v[j].rank else v[j].rank <= v[i].rank
  }

  /** Whether or not its lists were shuffled, walking the index of pass p visits every object that uses
      the pass exactly once, and no other, in non-decreasing rank on the bottom-up pass and in
      non-increasing rank on the two top-down passes. */
  lemma VisitsOnceInRankOrder(objs: seq<Member>, p: nat, m: map<int, seq<Member>>)
    requires p < 3 && SameGrouping(m, Group(Participants(objs, p)))
    ensures var ms := Participants(objs, p); var v := Visit(m, p, LowUsed(ms), HighUsed(ms));
            multiset(v) == multiset(ms) && InPassOrder(v, p)
  {
    var ms := Participants(objs, p);
    UsedCoversAll(ms);
    GroupRanksAgree(ms, m);
    WithinAll(ms, LowUsed(ms), HighUsed(ms));
    UpCounts(ms, m, LowUsed(ms), HighUsed(ms));
    DownCounts(ms, m, LowUsed(ms), HighUsed(ms));
    UpSorted(m, LowUsed(ms), HighUsed(ms));
    DownSorted(m, LowUsed(ms), HighUsed(ms));
  }

  /** A pass as a whole: its index is set up, shuffled or not, and walked. Unless a rank is negative, every
      object that uses the pass is visited exactly once, in pass order. */
  method VisitPass(objs: seq<Member>, p: nat, shuffle: bool, draws: (nat, nat) -> nat)
    returns (ok: bool, visited: seq<Member>)
    requires p < 3
    ensures ok <==> AllRanksAtLeast(Participants(objs, p), FIRST)
    ensures ok ==> multiset(visited) == multiset(Participants(objs, p)) && InPassOrder(visited, p)
  {
    var ranks;
    ok, ranks := SetupRanks(objs, p, shuffle, draws);
    if !ok { return false, []; }
    visited := Walk(ranks, p);
    VisitsOnceInRankOrder(objs, p, ranks.Content());
  }

  // ---------------------------------------------------------------------------
  // Parents and children
  // ---------------------------------------------------------------------------

  ghost predicate ParentsOutrank(parent: map<Member, Member>)
  {
    forall o :: o in parent ==> parent[o].rank > o.rank
  }

  /** a is reached from o by following n + 1 parent links. */
  ghost predicate Ancestor(parent: map<Member, Member>, o: Member, a: Member, n: nat)
    decreases n
  {
    o in parent && if n == 0 then parent[o] == a else Ancestor(parent, parent[o], a, n - 1)
  }

  lemma {:induction false} AncestorsOutrank(parent: map<Member, Member>, o: Member, a: Member, n: nat)
    requires ParentsOutrank(parent) && Ancestor(parent, o, a, n)
    ensures a.rank > o.rank
    decreases n
  {
    if n > 0 { AncestorsOutrank(parent, parent[o], a, n - 1); }
  }

  /** If parents outrank children, an object is visited after all its ancestors on the top-down passes
      and before all of them on the bottom-up pass. */
  lemma AncestorsInOrder(parent: map<Member, Member>, v: seq<Member>, p: nat, i: nat, j: nat, n: nat)
    requires ParentsOutrank(parent) && InPassOrder(v, p)
    requires i < |v| && j < |v| && Ancestor(parent, v[i], v[j], n)
    ensures if p % 2 == 1 then i < j else j < i
  {
    AncestorsOutrank(parent, v[i], v[j], n);
  }
}
