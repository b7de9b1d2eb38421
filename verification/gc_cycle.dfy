/**
 A collection as a whole: `singlestep` in every phase, the full collection, and what
 one collection frees.
 */
module GcCycle {
  import opened GcHeap
  import opened GcState
  import opened GcInvariant
  import opened GcMarkPhase
  import opened GcSweepPhase
  import opened Sequences

  // ------------------------------------------------------------- resizing the string table

  ghost predicate BucketsOk(h: Heap, buckets: seq<seq<Id>>) {
    forall i :: 0 <= i < |buckets| ==> BucketOk(h, buckets[i], i, |buckets|)
  }

  ghost predicate InSome(strt: seq<seq<Id>>, x: Id) {
    exists i :: 0 <= i < |strt| && x in strt[i]
  }

  lemma ChainChains(h: Heap, buckets: seq<seq<Id>>, x: Id)
    requires |buckets| > 0 && BucketsOk(h, buckets) && IsStr(h, x) && !InSome(buckets, x)
    ensures BucketsOk(h, Chain(h, buckets, x))
    ensures forall y :: InSome(Chain(h, buckets, x), y) <==> y == x || InSome(buckets, y)
  {
    var i0, b := Bucket(h, x, |buckets|), Chain(h, buckets, x);
    forall i | 0 <= i < |b|
      ensures BucketOk(h, b[i], i, |b|)
    {
      assert BucketOk(h, buckets[i], i, |buckets|);
      NoDupConcat([x], buckets[i]);
    }
    forall y
      ensures InSome(b, y) <==> y == x || InSome(buckets, y)
    {
      assert x in b[i0];
      if y != x && InSome(buckets, y) {
        var i :| 0 <= i < |buckets| && y in buckets[i];
        assert y in b[i];
      }
    }
  }

  lemma {:induction false} MoveBucketMoves(h: Heap, list: seq<Id>, buckets: seq<seq<Id>>)
    requires |buckets| > 0 && BucketsOk(h, buckets)
    requires NoDup(list) && forall x :: x in list ==> IsStr(h, x) && !InSome(buckets, x)
    ensures var r := MoveBucket(h, list, buckets);
            BucketsOk(h, r) && forall y :: InSome(r, y) <==> y in list || InSome(buckets, y)
    decreases |list|
  {
    hide BucketsOk, InSome, IsStr, Chain;
    if list != [] {
      assert list == [list[0]] + list[1..] && list[0] in list;
      ChainChains(h, buckets, list[0]);
      assert forall x :: x in list[1..] ==> x in list && x != list[0];
      MoveBucketMoves(h, list[1..], Chain(h, buckets, list[0]));
    }
  }

  ghost predicate Apart(strt: seq<seq<Id>>) {
    (forall i :: 0 <= i < |strt| ==> NoDup(strt[i])) &&
    forall i, j, x :: 0 <= i < j < |strt| && x in strt[i] ==> x !in strt[j]
  }

  lemma FirstAndRest(strt: seq<seq<Id>>)
    requires strt != [] && Apart(strt)
    ensures Apart(strt[1..]) && NoDup(strt[0])
    ensures forall x :: InSome(strt, x) <==> x in strt[0] || InSome(strt[1..], x)
    ensures forall x :: x in strt[0] ==> !InSome(strt[1..], x)
  {
    var rest := strt[1..];
    forall x
      ensures InSome(strt, x) <==> x in strt[0] || InSome(rest, x)
      ensures x in strt[0] ==> !InSome(rest, x)
    {
      if InSome(strt, x) && x !in strt[0] {
        var i :| 0 <= i < |strt| && x in strt[i];
        assert x in rest[i - 1];
      }
      if InSome(rest, x) {
        var i :| 0 <= i < |rest| && x in rest[i];
        assert x in strt[i + 1];
      }
    }
    forall i, j, x | 0 <= i < j < |rest| && x in rest[i]
      ensures x !in rest[j]
    {
      assert x in strt[i + 1];
    }
  }

  lemma {:induction false} MoveBucketsMoves(h: Heap, strt: seq<seq<Id>>, buckets: seq<seq<Id>>)
    requires |buckets| > 0 && Apart(strt) && BucketsOk(h, buckets)
    requires forall x :: InSome(strt, x) ==> IsStr(h, x) && !InSome(buckets, x)
    ensures var r := MoveBuckets(h, strt, buckets);
            BucketsOk(h, r) && forall y :: InSome(r, y) <==> InSome(strt, y) || InSome(buckets, y)
    decreases |strt|
  {
    if strt != [] {
      hide BucketsOk, InSome, IsStr, MoveBucket;
      FirstAndRest(strt);
      MoveBucketMoves(h, strt[0], buckets);
      MoveBucketsMoves(h, strt[1..], MoveBucket(h, strt[0], buckets));
    } else {
      assert forall y :: !InSome(strt, y);
    }
  }

  lemma StringsApart(h: Heap, strt: seq<seq<Id>>)
    requires StringsOk(h, strt)
    ensures Apart(strt) && forall x :: InSome(strt, x) <==> IsStr(h, x)
  {
    forall i | 0 <= i < |strt|
      ensures NoDup(strt[i]) && forall x :: x in strt[i] ==> IsStr(h, x) && Bucket(h, x, |strt|) == i
    {
      assert BucketOk(h, strt[i], i, |strt|);
    }
    forall x | IsStr(h, x)
      ensures InSome(strt, x)
    {
      assert x in strt[Bucket(h, x, |strt|)];
    }
  }

  /** Resizing moves every string to the bucket of its hash in the new table. */
  lemma ResizeKeepsStrings(h: Heap, strt: seq<seq<Id>>, size: nat)
    requires StringsOk(h, strt) && size > 0
    ensures StringsOk(h, MoveBuckets(h, strt, EmptyBuckets(size)))
    ensures forall x :: InSome(MoveBuckets(h, strt, EmptyBuckets(size)), x) <==> InSome(strt, x)
  {
    StringsApart(h, strt);
    var r := MoveBuckets(h, strt, EmptyBuckets(size));
    MoveBucketsMoves(h, strt, EmptyBuckets(size));
    forall x | IsStr(h, x)
      ensures x in r[Bucket(h, x, |r|)]
    {
      var i :| 0 <= i < |r| && x in r[i];
      assert BucketOk(h, r[i], i, |r|);
    }
  }

  lemma ResizeStringsKeepsInv(s: State, size: nat)
    requires Inv(s) && size > 0
    ensures Inv(ResizeStrings(s, size)) && ResizeStrings(s, size).heap == s.heap
  {
    hide StringsOk, OpenOk, RootListOk, ThreadOk, MoveBuckets, UpvalsNotBlack, Closed;
    if s.phase != SweepString {
      SameLiveClosed(s, ResizeStrings(s, size));
      ResizeKeepsStrings(s.heap, s.strt, size);
      var s' := ResizeStrings(s, size);
      if s.phase == Sweep {
        forall i | 0 <= i < |s'.strt|
          ensures ListCurrent(s'.heap, s.white, s'.strt[i])
        {
          forall x | x in s'.strt[i] && x in s.heap
            ensures s.heap[x].color == s.white
          {
            assert InSome(s'.strt, x);
            var j :| 0 <= j < |s.strt| && x in s.strt[j];
            assert ListCurrent(s.heap, s.white, s.strt[j]);
          }
        }
      } else if s.phase == Propagate {
        forall x | x in s.heap
          ensures ColorOk(s', x)
        {
          assert ColorOk(s, x);
        }
      }
    }
  }

  // ------------------------------------------------------------- singlestep

  /** `sweeplist(L, g->sweepgc, count)`. */
  function SweepObjs(s: State, count: nat): (s': State)
    requires Inv(s) && s.phase == Sweep
    ensures Inv(s') && s'.phase == Sweep
    decreases count
  {
    if count == 0 || s.sweepGc >= |s.rootGc| then s
    else
      NextIsThere(s);
      SweepNextKeepsInv(s);
      SweepObjs(SweepNext(s), count - 1)
  }

  lemma NextIsThere(s: State)
    requires Inv(s) && s.sweepGc < |s.rootGc|
    ensures s.rootGc[s.sweepGc] in s.heap
  {
    assert s.rootGc[s.sweepGc] in s.rootGc;
  }

  /** `singlestep`, with no userdata waiting for finalization. */
  function SingleStep(s: State): State
    requires Inv(s)
  {
    match s.phase
    case Pause => MarkRoot(s)
    case Propagate =>
      GrayIsThere(s);
      if s.gray != [] then PropagateMark(s) else Atomic(s)
    case SweepString => SweepStringStep(s)
    case Sweep =>
      var s1 := SweepObjs(s, GCSWEEPMAX);
      if s1.sweepGc >= |s1.rootGc| then CheckSizes(s1).(phase := Finalize) else s1
    case Finalize => s.(phase := Pause)
  }

  lemma GrayIsThere(s: State)
    requires Inv(s) && s.phase == Propagate
    ensures MarksOk(s) && (s.gray != [] ==> s.gray[0] in s.heap)
  {
    assert s.gray != [] ==> s.gray[0] in s.gray;
  }

  lemma OnlyGarbageGoneRefl(s: State)
    ensures OnlyGarbageGone(s, s)
  {
  }

  lemma {:induction false} SweepObjsSweeps(s: State, count: nat)
    requires Inv(s) && s.phase == Sweep
    ensures OnlyGarbageGone(s, SweepObjs(s, count)) && SweepObjs(s, count).white == s.white
    ensures count > 0 && s.sweepGc < |s.rootGc| ==>
              Remaining(SweepObjs(s, count)) < Remaining(s)
    ensures Remaining(SweepObjs(s, count)) <= Remaining(s)
    decreases count
  {
    hide Inv, OnlyGarbageGone;
    if count == 0 || s.sweepGc >= |s.rootGc| {
      OnlyGarbageGoneRefl(s);
    } else {
      NextIsThere(s);
      SweepNextKeepsInv(s);
      SweepObjsSweeps(SweepNext(s), count - 1);
      OnlyGarbageGoneTrans(s, SweepNext(s), SweepObjs(s, count));
    }
  }

  function Remaining(s: State): int {
    |s.rootGc| - s.sweepGc
  }

  /** Once the sweep is over everything is back to the current white. */
  lemma SweepOverAllCurrent(s: State)
    requires Inv(s) && s.phase == Sweep && s.sweepGc >= |s.rootGc|
    ensures AllCurrent(s)
  {
    assert s.rootGc[..s.sweepGc] == s.rootGc;
    forall x | x in s.heap
      ensures s.heap[x].color == s.white
    {
      if s.heap[x].body.Str? {
        var i := Bucket(s.heap, x, |s.strt|);
        assert x in s.strt[i] && ListCurrent(s.heap, s.white, s.strt[i]);
      } else if s.heap[x].body.OpenUpval() {
        assert x in s.openUpval && s.main in s.rootGc;
      } else {
        assert x in s.rootGc;
      }
    }
  }

  lemma EndSweepKeepsInv(s: State)
    requires Inv(s) && s.phase == Sweep && s.sweepGc >= |s.rootGc|
    ensures Inv(CheckSizes(s).(phase := Finalize)) && CheckSizes(s).heap == s.heap && CheckSizes(s).white == s.white
  {
    hide StringsOk, OpenOk, RootListOk, ThreadOk, MoveBuckets, StringCount, SweptPart;
    SweepOverAllCurrent(s);
    ResizeStringsKeepsInv(s, if |s.strt| / 2 > 0 then |s.strt| / 2 else 1);
    SameLiveClosed(s, CheckSizes(s).(phase := Finalize));
  }

  /** One collector step: what leaves the heap was condemned, what stays keeps its contents
      (a traversed table drops its dead keys). */
  ghost predicate StepOk(s: State, s': State) {
    && (forall x :: x in s'.heap ==> x in s.heap && s'.heap[x].fixed == s.heap[x].fixed &&
                                     SameKind(s.heap[x].body, s'.heap[x].body))
    && (forall x :: x in s.heap && x !in s'.heap ==> Garbage(s.heap, s.white, x))
    && s'.roots == s.roots && s'.main == s.main && s'.registry == s.registry && s'.mt == s.mt
  }

  lemma OnlyGarbageGoneStepOk(s: State, s': State)
    requires OnlyGarbageGone(s, s')
    requires s'.roots == s.roots && s'.main == s.main && s'.registry == s.registry && s'.mt == s.mt
    ensures StepOk(s, s')
  {
  }

  lemma SameKindsStepOk(s: State, s': State)
    requires SameKinds(s.heap, s'.heap)
    requires s'.roots == s.roots && s'.main == s.main && s'.registry == s.registry && s'.mt == s.mt
    ensures StepOk(s, s')
  {
  }

  lemma {:induction false} SweepObjsFrame(s: State, count: nat)
    requires Inv(s) && s.phase == Sweep
    ensures var s' := SweepObjs(s, count);
            s'.roots == s.roots && s'.main == s.main && s'.registry == s.registry && s'.mt == s.mt
    decreases count
  {
    hide Inv;
    if count != 0 && s.sweepGc < |s.rootGc| {
      NextIsThere(s);
      SweepNextKeepsInv(s);
      SweepObjsFrame(SweepNext(s), count - 1);
    }
  }

  /** Every step of the collector keeps the invariant and frees condemned objects only. */
  lemma SingleStepKeepsInv(s: State)
    requires Inv(s)
    ensures Inv(SingleStep(s)) && StepOk(s, SingleStep(s))
  {
    hide Lists, Closed, UpvalsNotBlack, TriColor, SweptPart, OnlyGarbageGone, SameKinds, StepOk, SweepObjs,
         MarkRoot, PropagateMark, CheckSizes;
    match s.phase {
      case Pause =>
        MarkRootKeepsInv(s);
        MarkRootFrame(s);
        SameKindsStepOk(s, MarkRoot(s));
      case Propagate =>
        GrayIsThere(s);
        if s.gray != [] {
          PropagateMarkKeepsInv(s);
          PropagateMarkFrame(s);
          SameKindsStepOk(s, PropagateMark(s));
        } else {
          AtomicKeepsInv(s);
          SameKindsStepOk(s, Atomic(s));
        }
      case SweepString =>
        BucketIsThere(s);
        SweepStringKeepsInv(s);
        OnlyGarbageGoneStepOk(s, SweepStringStep(s));
      case Sweep =>
        SweepStep(s);
      case Finalize =>
        FinalizeStep(s);
    }
  }

  lemma BucketIsThere(s: State)
    requires Inv(s) && s.phase == SweepString
    ensures s.sweepStrGc < |s.strt|
  {
  }

  lemma MarkRootFrame(s: State)
    ensures MarkRoot(s) == s.(heap := MarkRoot(s).heap, gray := MarkRoot(s).gray, grayAgain := [], phase := Propagate)
  {
  }

  lemma PropagateMarkFrame(s: State)
    requires s.gray != [] && s.gray[0] in s.heap
    ensures var s' := PropagateMark(s); s' == s.(heap := s'.heap, gray := s'.gray, grayAgain := s'.grayAgain)
  {
  }

  lemma SweepStep(s: State)
    requires Inv(s) && s.phase == Sweep
    ensures Inv(SingleStep(s)) && StepOk(s, SingleStep(s)) && SingleStep(s).white == s.white
  {
    hide Inv, OnlyGarbageGone, StepOk, SweepObjs, CheckSizes;
    var s1 := SweepObjs(s, GCSWEEPMAX);
    SweepObjsSweeps(s, GCSWEEPMAX);
    SweepObjsFrame(s, GCSWEEPMAX);
    if s1.sweepGc >= |s1.rootGc| {
      EndSweepKeepsInv(s1);
      CheckSizesFrame(s1);
    }
    OnlyGarbageGoneHeap(s, s1, SingleStep(s));
    OnlyGarbageGoneStepOk(s, SingleStep(s));
  }

  lemma CheckSizesFrame(s: State)
    ensures CheckSizes(s) == s.(strt := CheckSizes(s).strt)
  {
    hide MoveBuckets, StringCount;
  }

  lemma OnlyGarbageGoneHeap(s: State, s1: State, s2: State)
    requires OnlyGarbageGone(s, s1) && s2.heap == s1.heap && s2.white == s1.white
    ensures OnlyGarbageGone(s, s2)
  {
    forall x | Live(s, x)
      ensures Live(s2, x)
    {
      assert Live(s1, x);
    }
  }

  lemma FinalizeStep(s: State)
    requires Inv(s) && s.phase == Finalize
    ensures Inv(s.(phase := Pause)) && StepOk(s, s.(phase := Pause))
  {
    hide StringsOk, OpenOk, RootListOk, ThreadOk;
    SameLiveClosed(s, s.(phase := Pause));
  }
}
