/** Cutting a rank list into one slice per thread, and merging what the threads collected. */
module Slices {
  import opened Sync

  // ---------------------------------------------------------------------------
  // Slices of a list of n objects
  // ---------------------------------------------------------------------------

  /** A thread's share: the position of its first object and how many it handles. */
  datatype Slice = Slice(first: nat, nObj: nat)
  {
    function End(): nat { first + nObj }
    predicate Has(i: int) { first <= i < End() }
  }

  /** Non-empty slices that follow each other from position 0 to n. */
  ghost predicate IsSlicing(ss: seq<Slice>, n: nat)
  {
    && |ss| > 0
    && ss[0].first == 0
    && ss[|ss| - 1].End() == n
    && (forall k :: 0 <= k < |ss| ==> ss[k].nObj > 0)
    && (forall k :: 0 < k < |ss| ==> ss[k].first == ss[k - 1].End())
  }

  /** Slice k when every slice but the last holds `items` objects. */
  function EvenSlice(k: nat, items: nat, n: nat): Slice
    requires k * items <= n
  {
    Slice(k * items, if n - k * items < items then n - k * items else items)
  }

  /** `threads` slices of `items` objects are enough for n objects, and one fewer is not. */
  predicate Fits(n: nat, items: nat, threads: nat)
  {
    0 < threads && 0 < items && (threads - 1) * items < n <= threads * items
  }

  lemma ProductStep(a: int, b: int, m: int)
    requires 0 <= m && a <= b
    ensures a * m <= b * m && (a + 1) * m == a * m + m
  {
    calc {
      b * m - a * m;
    ==
      (b - a) * m;
    >=
      0;
    }
  }

  lemma SliceStartsInside(n: nat, items: nat, threads: nat, k: nat)
    requires Fits(n, items, threads) && k < threads
    ensures k * items < n
    ensures k + 1 < threads ==> EvenSlice(k, items, n).nObj == items
    ensures EvenSlice(k, items, n).nObj > 0
    ensures k + 1 == threads ==> EvenSlice(k, items, n).End() == n
  {
    ProductStep(k, threads - 1, items);
    if k + 1 < threads {
      ProductStep(k + 1, threads - 1, items);
      ProductStep(k, k, items);
    } else {
      ProductStep(threads - 1, threads - 1, items);
    }
  }

  /** The even slices of a fitting thread count form a slicing. */
  lemma EvenSlicing(n: nat, items: nat, threads: nat, ss: seq<Slice>)
    requires Fits(n, items, threads) && |ss| == threads
    requires forall k :: 0 <= k < threads ==> k * items <= n && ss[k] == EvenSlice(k, items, n)
    ensures IsSlicing(ss, n)
  {
    forall k | 0 <= k < threads ensures ss[k].nObj > 0 && (0 < k ==> ss[k].first == ss[k - 1].End()) {
      SliceStartsInside(n, items, threads, k);
      if 0 < k {
        SliceStartsInside(n, items, threads, k - 1);
        ProductStep(k - 1, k, items);
      }
    }
    SliceStartsInside(n, items, threads, threads - 1);
  }

  lemma StartsAscend(ss: seq<Slice>, n: nat, j: nat, k: nat)
    requires IsSlicing(ss, n) && j < k < |ss|
    ensures ss[j].End() <= ss[k].first
    decreases k - j
  {
    if j + 1 < k { StartsAscend(ss, n, j, k - 1); }
  }

  /** Every position of the list belongs to exactly one slice. */
  lemma CoveredExactlyOnce(ss: seq<Slice>, n: nat, i: nat)
    requires IsSlicing(ss, n) && i < n
    ensures exists k :: 0 <= k < |ss| && ss[k].Has(i)
    ensures forall j, k :: 0 <= j < |ss| && 0 <= k < |ss| && ss[j].Has(i) && ss[k].Has(i) ==> j == k
  {
    var k := FindSlice(ss, n, i, 0);
    assert ss[k].Has(i);
    forall j, k | 0 <= j < |ss| && 0 <= k < |ss| && ss[j].Has(i) && ss[k].Has(i) ensures j == k {
      if j < k { StartsAscend(ss, n, j, k); } else if k < j { StartsAscend(ss, n, k, j); }
    }
  }

  lemma FindSlice(ss: seq<Slice>, n: nat, i: nat, from: nat) returns (k: nat)
    requires IsSlicing(ss, n) && i < n && from < |ss| && ss[from].first <= i
    ensures k < |ss| && ss[k].Has(i)
    decreases |ss| - from
  {
    if i < ss[from].End() { k := from; } else { k := FindSlice(ss, n, i, from + 1); }
  }

  // ---------------------------------------------------------------------------
  // Assigning objects to threads
  // ---------------------------------------------------------------------------

  /** The loop both thread pools use: walk the list, opening the next thread's slice when the current
      one is full. It stays inside the array it was given and leaves a slicing of the whole list. */
  method Assign(n: nat, items: nat, threads: nat) returns (thread: array<Slice>)
    requires Fits(n, items, threads)
    ensures thread.Length == threads && IsSlicing(thread[..], n)
    ensures forall k :: 0 <= k < threads ==> k * items <= n && thread[k] == EvenSlice(k, items, n)
  {
    thread := new Slice[threads](_ => Slice(0, 0));
    var objn := 0;
    var i := 0;
    while i < n
      invariant 0 <= i <= n && 0 <= objn < threads
      invariant forall k :: 0 <= k < objn ==> k * items <= n && thread[k] == EvenSlice(k, items, n)
      invariant forall k :: objn < k < threads ==> thread[k] == Slice(0, 0)
      invariant thread[objn].nObj <= items && objn * items + thread[objn].nObj == i
      invariant i > 0 ==> thread[objn].nObj > 0 && thread[objn].first == objn * items
      invariant i == 0 ==> thread[objn].nObj == 0
    {
      if thread[objn].nObj == items {
        ProductStep(objn, objn, items);
        if objn + 1 == threads { assert false; }
        SliceStartsInside(n, items, threads, objn);
        objn := objn + 1;
      }
      if thread[objn].nObj == 0 {
        thread[objn] := thread[objn].(first := i);
      }
      thread[objn] := thread[objn].(nObj := thread[objn].nObj + 1);
      i := i + 1;
    }
    if objn + 1 < threads {
      ProductStep(objn + 1, threads - 1, items);
      ProductStep(objn, objn, items);
      assert false;
    }
    SliceStartsInside(n, items, threads, objn);
    ProductStep(objn, objn, items);
    EvenSlicing(n, items, threads, thread[..]);
  }

  function CeilDiv(a: nat, b: nat): nat
    requires 0 < b
  {
    (a + b - 1) / b
  }

  lemma CeilDivFits(a: nat, b: nat)
    requires 0 < a && 0 < b
    ensures Fits(a, b, CeilDiv(a, b))
  {
    var c := CeilDiv(a, b);
    assert a + b - 1 == c * b + (a + b - 1) % b;
    ProductStep(c - 1, c - 1, b);
    if c == 0 { assert false; }
  }

  /** With ceil(n/t) objects each, no more than t threads are needed. */
  lemma CeilDivSwap(n: nat, t: nat)
    requires 0 < n && 0 < t
    ensures 0 < CeilDiv(n, t) && CeilDiv(n, CeilDiv(n, t)) <= t
  {
    var c := CeilDiv(n, t);
    CeilDivFits(n, t);
    CeilDivFits(n, c);
    var d := CeilDiv(n, c);
    assert n <= t * c;
    if d > t { ProductStep(t, d - 1, c); }
  }

  /** How many objects each thread of the pool takes, and how many threads that makes. */
  function ItemsPerThread(n: nat, threadCount: nat): nat
    requires 0 < threadCount
  {
    if CeilDiv(n, threadCount) <= 1 then 1 else CeilDiv(n, threadCount)
  }

  function ThreadsUsed(n: nat, threadCount: nat): nat
    requires 0 < threadCount
  {
    if CeilDiv(n, threadCount) <= 1 then n else CeilDiv(n, CeilDiv(n, threadCount))
  }

  /** The pool never needs more threads than it was allowed, so the executive's emergency exit is
      unreachable, and its slices fit the list. */
  lemma PoolFits(n: nat, threadCount: nat)
    requires 0 < n && 0 < threadCount
    ensures Fits(n, ItemsPerThread(n, threadCount), ThreadsUsed(n, threadCount))
    ensures 1 <= ThreadsUsed(n, threadCount) <= threadCount
  {
    var c := CeilDiv(n, threadCount);
    CeilDivFits(n, threadCount);
    if c <= 1 {
      assert n <= threadCount * c <= threadCount;
    } else {
      CeilDivFits(n, c);
      CeilDivSwap(n, threadCount);
    }
  }

  /** Setting up the pool of one rank list. */
  method SetupPool(n: nat, threadCount: nat) returns (thread: array<Slice>)
    requires 0 < n && 0 < threadCount
    ensures 1 <= thread.Length <= threadCount
    ensures IsSlicing(thread[..], n)
    ensures forall j, k :: 0 <= j < k < thread.Length ==> thread[k].nObj <= thread[j].nObj <= CeilDiv(n, threadCount)
  {
    var incr := CeilDiv(n, threadCount);
    var nThreads, nItems;
    if incr <= 1 {
      nThreads := n;
      nItems := 1;
    } else {
      nThreads := CeilDiv(n, incr);
      nItems := incr;
    }
    PoolFits(n, threadCount);
    CeilDivFits(n, threadCount);
    thread := Assign(n, nItems, nThreads);
    forall j, k | 0 <= j < k < thread.Length ensures thread[k].nObj <= thread[j].nObj <= incr {
      SliceStartsInside(n, nItems, nThreads, j);
    }
  }

  // ---------------------------------------------------------------------------
  // Folding objects into records, and merging records
  // ---------------------------------------------------------------------------

  /** What one thread collects when it synchronises the given objects in order. */
  function Fold(env: Env, objs: seq<Obj>): SyncData
  {
    if objs == [] then Fresh
    else Join(Fold(env, objs[..|objs| - 1]), Contribution(env, objs[|objs| - 1]))
  }

  /** The merge of all thread slots. */
  function JoinAll(slots: seq<SyncData>): SyncData
  {
    if slots == [] then Fresh
    else Join(JoinAll(slots[..|slots| - 1]), slots[|slots| - 1])
  }

  lemma {:induction false} FoldConcat(env: Env, a: seq<Obj>, b: seq<Obj>)
    ensures Fold(env, a + b) == Join(Fold(env, a), Fold(env, b))
    decreases |b|
  {
    if b == [] {
      assert a + b == a;
    } else {
      var c := b[..|b| - 1];
      FoldConcat(env, a, c);
      assert (a + b)[..|a + b| - 1] == a + c;
    }
  }

  /** The objects of slice s. */
  function Part(objs: seq<Obj>, s: Slice): seq<Obj>
    requires s.End() <= |objs|
  {
    objs[s.first..s.End()]
  }

  /** Merging what the threads collected from their slices gives the sequential result: same earliest
      time, same count of hard events, same failure, whatever the slicing. */
  lemma {:induction false} ParallelRefinesSequential(env: Env, objs: seq<Obj>, ss: seq<Slice>, slots: seq<SyncData>)
    requires IsSlicing(ss, |objs|) && |slots| == |ss|
    requires forall k :: 0 <= k < |ss| ==> ss[k].End() <= |objs| && slots[k] == Fold(env, Part(objs, ss[k]))
    ensures JoinAll(slots) == Fold(env, objs)
  {
    assert forall k :: 0 <= k < |ss| ==> Collected(env, objs, ss, slots, k);
    PrefixRefines(env, objs, ss, slots, |ss|);
    assert slots[..|ss|] == slots;
    assert objs[..|objs|] == objs;
  }

  /** Slot k holds what thread k collects from its slice. */
  ghost predicate Collected(env: Env, objs: seq<Obj>, ss: seq<Slice>, slots: seq<SyncData>, k: nat)
    requires k < |ss| == |slots|
  {
    ss[k].End() <= |objs| && slots[k] == Fold(env, Part(objs, ss[k]))
  }

  lemma {:induction false} PrefixRefines(env: Env, objs: seq<Obj>, ss: seq<Slice>, slots: seq<SyncData>, k: nat)
    requires IsSlicing(ss, |objs|) && |slots| == |ss| && 0 < k <= |ss|
    requires forall j :: 0 <= j < |ss| ==> Collected(env, objs, ss, slots, j)
    ensures ss[k - 1].End() <= |objs| && JoinAll(slots[..k]) == Fold(env, objs[..ss[k - 1].End()])
    decreases k
  {
    var s := ss[k - 1];
    assert Collected(env, objs, ss, slots, k - 1);
    assert slots[..k][..k - 1] == slots[..k - 1];
    if k == 1 {
      assert slots[..0] == [] && objs[..s.End()] == Part(objs, s);
      JoinFresh(slots[0]);
    } else {
      PrefixRefines(env, objs, ss, slots, k - 1);
      FoldConcat(env, objs[..s.first], Part(objs, s));
      assert objs[..s.first] + Part(objs, s) == objs[..s.End()];
    }
  }

  lemma JoinFresh(d: SyncData)
    ensures Join(Fresh, d) == d
  {
  }

  /** Slots that collect over several rank lists merge list by list. */
  lemma {:induction false} JoinAllPointwise(a: seq<SyncData>, b: seq<SyncData>, c: seq<SyncData>)
    requires |a| == |b| == |c| && forall k :: 0 <= k < |a| ==> c[k] == Join(a[k], b[k])
    ensures JoinAll(c) == Join(JoinAll(a), JoinAll(b))
    decreases |a|
  {
    if a != [] {
      JoinAllPointwise(a[..|a| - 1], b[..|b| - 1], c[..|c| - 1]);
    }
  }

  lemma {:induction false} JoinAllFresh(slots: seq<SyncData>)
    requires forall k :: 0 <= k < |slots| ==> slots[k] == Fresh
    ensures JoinAll(slots) == Fresh
    decreases |slots|
  {
    if slots != [] { JoinAllFresh(slots[..|slots| - 1]); }
  }

  // ---------------------------------------------------------------------------
  // Failures
  // ---------------------------------------------------------------------------

  predicate AllSucceeded(slots: seq<SyncData>) { forall m :: 0 <= m < |slots| ==> slots[m].status.SUCCESS? }

  ghost predicate NoneStopped(env: Env, objs: seq<Obj>)
  {
    forall k :: 0 <= k < |objs| ==> !Stopped(env, objs[k])
  }

  lemma NoneStoppedSnoc(env: Env, objs: seq<Obj>)
    requires objs != []
    ensures NoneStopped(env, objs) <==> NoneStopped(env, objs[..|objs| - 1]) && !Stopped(env, objs[|objs| - 1])
  {
    if NoneStopped(env, objs[..|objs| - 1]) && !Stopped(env, objs[|objs| - 1]) {
      forall k | 0 <= k < |objs| ensures !Stopped(env, objs[k]) {
        if k < |objs| - 1 { assert objs[k] == objs[..|objs| - 1][k]; }
      }
    }
  }

  lemma {:induction false} FoldFails(env: Env, objs: seq<Obj>)
    ensures Fold(env, objs).status.SUCCESS? <==> NoneStopped(env, objs)
    decreases |objs|
  {
    if objs != [] {
      FoldFails(env, objs[..|objs| - 1]);
      NoneStoppedSnoc(env, objs);
    }
  }

  lemma {:induction false} AllSucceededJoins(slots: seq<SyncData>)
    ensures AllSucceeded(slots) <==> JoinAll(slots).status.SUCCESS?
    decreases |slots|
  {
    if slots != [] { AllSucceededJoins(slots[..|slots| - 1]); }
  }

  /** The main loop looks for a failure in any slot. */
  method CheckStatus(slots: array<SyncData>) returns (ok: bool)
    ensures ok <==> AllSucceeded(slots[..])
  {
    for j := 0 to slots.Length
      invariant forall k :: 0 <= k < j ==> slots[k].status.SUCCESS?
    {
      if slots[j].status.FAILED? { return false; }
    }
    ok := true;
  }

  /** The main loop's merge of the thread slots into its own record; it never looks at the statuses,
      which were checked after every rank list. */
  method MergeThreads(sync: SyncData, slots: array<SyncData>) returns (merged: SyncData)
    ensures merged.stepTo == Join(sync, JoinAll(slots[..])).stepTo
    ensures merged.hardEvent == Join(sync, JoinAll(slots[..])).hardEvent
    ensures merged.status == sync.status
  {
    merged := sync;
    for j := 0 to slots.Length
      invariant merged.stepTo == Join(sync, JoinAll(slots[..j])).stepTo
      invariant merged.hardEvent == Join(sync, JoinAll(slots[..j])).hardEvent
      invariant merged.status == sync.status
    {
      assert slots[..j + 1][..j] == slots[..j];
      merged := merged.(hardEvent := merged.hardEvent + slots[j].hardEvent);
      if slots[j].stepTo < merged.stepTo {
        merged := merged.(stepTo := slots[j].stepTo);
      }
    }
    assert slots[..] == slots[..slots.Length];
  }

  /** One thread works through its slice: its slot ends up with the fold over its objects joined to
      what it held before, and no other slot changes. */
  method SyncSlice(data: array<SyncData>, thread: nat, env: Env, objs: seq<Obj>, s: Slice)
    requires thread < data.Length && s.End() <= |objs|
    modifies data
    ensures data[..] == old(data[..])[thread := Join(old(data[thread]), Fold(env, Part(objs, s)))]
  {
    ghost var was := data[..];
    for n := 0 to s.nObj
      invariant data[..] == was[thread := Join(was[thread], Fold(env, objs[s.first..s.first + n]))]
    {
      assert objs[s.first..s.first + n + 1][..n] == objs[s.first..s.first + n];
      DoObjectSync(data, thread, env, objs[s.first + n]);
    }
  }
}
