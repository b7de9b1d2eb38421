/**
 The sweep phases keep the invariant: dead objects leave their list and the heap,
 everything else goes back to the current white.
 */
module GcSweepPhase {
  import opened GcHeap
  import opened GcState
  import opened GcInvariant
  import opened Sequences

  /** `h'` is `h` after sweeping the objects of `list`. */
  ghost predicate SweptFrom(h: Heap, h': Heap, w: White, list: seq<Id>) {
    && (forall x :: x in h' <==> x in h && !(x in list && Garbage(h, w, x)))
    && (forall x :: x in h' ==>
          h'[x] == if x in list then h[x].(color := w) else h[x])
  }

  /** `list'` is what is left of `list`. */
  ghost predicate Survivors(h': Heap, list: seq<Id>, list': seq<Id>) {
    NoDup(list') && forall x :: x in list' <==> x in list && x in h'
  }

  lemma {:induction false} SweepWholeSweeps(h: Heap, w: White, list: seq<Id>)
    requires NoDup(list) && forall x :: x in list ==> x in h
    ensures var s := SweepWhole(h, w, list);
            SweptFrom(h, s.heap, w, list) && Survivors(s.heap, list, s.list)
    decreases |list|
  {
    if list != [] {
      var o, rest := list[0], list[1..];
      assert list == [o] + rest && o in list;
      forall x | x in rest
        ensures x != o && x in SweepOne(h, w, o)
      {
        assert x in list;
      }
      SweepWholeSweeps(SweepOne(h, w, o), w, rest);
      var r := SweepWhole(SweepOne(h, w, o), w, rest);
      if !Garbage(h, w, o) {
        NoDupConcat([o], r.list);
      }
    }
  }

  lemma {:induction false} SweepWholeDescending(h: Heap, w: White, list: seq<Id>)
    requires NoDup(list) && Descending(h, list)
    ensures Descending(SweepWhole(h, w, list).heap, SweepWhole(h, w, list).list)
    decreases |list|
  {
    if list != [] {
      var o, rest := list[0], list[1..];
      assert list == [o] + rest && o in list;
      assert forall x :: x in rest ==> x in h && x != o;
      var h1 := SweepOne(h, w, o);
      DescendingFrame(h, h1, rest);
      SweepWholeDescending(h1, w, rest);
      SweepWholeSweeps(h1, w, rest);
      if !Garbage(h, w, o) {
        var r := SweepWhole(h1, w, rest);
        assert ([o] + r.list)[1..] == r.list;
      }
    }
  }

  lemma {:induction false} KeepSurvivors(ids: seq<Id>, h: Heap)
    requires NoDup(ids)
    ensures Survivors(h, ids, Keep(ids, h))
  {
    if ids != [] {
      assert ids == [ids[0]] + ids[1..];
      KeepSurvivors(ids[1..], h);
      if ids[0] in h {
        NoDupConcat([ids[0]], Keep(ids[1..], h));
      }
    }
  }

  // ------------------------------------------------------------- the closed heap

  /** A sweeping step frees garbage only, condemns nothing and leaves every object's contents alone. */
  ghost predicate OnlyGarbageGone(s: State, s': State) {
    && (forall x :: x in s'.heap ==> x in s.heap && s'.heap[x].body == s.heap[x].body && s'.heap[x].fixed == s.heap[x].fixed)
    && (forall x :: x in s.heap && x !in s'.heap ==> Garbage(s.heap, s.white, x))
    && (forall x :: Live(s, x) ==> Live(s', x))
    && (forall x :: x in s'.heap && Garbage(s.heap, s.white, x) ==> Garbage(s'.heap, s.white, x))
  }

  lemma OnlyGarbageGoneTrans(s: State, s1: State, s2: State)
    requires OnlyGarbageGone(s, s1) && OnlyGarbageGone(s1, s2) && s1.white == s.white
    ensures OnlyGarbageGone(s, s2)
  {
    forall x | x in s.heap && x !in s2.heap
      ensures Garbage(s.heap, s.white, x)
    {
      if Live(s, x) {
        assert Live(s2, x);
      } else if x in s1.heap {
        assert !s1.heap[x].fixed;
      }
    }
  }

  /** Sweeping takes away nothing that is live, and everything that remains is as it was. */
  lemma SweptStaysClosed(s: State, s': State, list: seq<Id>)
    requires Closed(s) && Lists(s) && SweptFrom(s.heap, s'.heap, s.white, list)
    requires s'.white == s.white && s'.roots == s.roots && s'.main == s.main && s'.registry == s.registry && s'.mt == s.mt
    ensures Closed(s') && OnlyGarbageGone(s, s')
  {
    forall x | Live(s, x)
      ensures Live(s', x)
    {
    }
    forall x, c | Live(s', x) && Child(s'.roots, s'.heap[x].body, c)
      ensures Live(s', c)
    {
      assert Live(s, x) ==> Live(s, c);
    }
    forall v | v in s'.mt
      ensures ValueLive(s', v)
    {
      assert ValueLive(s, v);
    }
    assert ValueLive(s, s.registry);
  }

  // What a sweep of other objects leaves alone.

  lemma SweptThreadOk(h: Heap, h': Heap, w: White, list: seq<Id>, main: Id)
    requires ThreadOk(h, main) && SweptFrom(h, h', w, list)
    ensures ThreadOk(h', main)
  {
  }

  lemma SweptRootListOk(h: Heap, h': Heap, w: White, list: seq<Id>, rootGc: seq<Id>)
    requires RootListOk(h, rootGc) && SweptFrom(h, h', w, list)
    requires forall x :: x in list && x in h ==> h[x].body.Str? || h[x].body.OpenUpval()
    ensures RootListOk(h', rootGc)
    ensures forall x :: x in rootGc ==> x in h && x in h' && h'[x] == h[x]
  {
  }

  lemma SweptOpenOk(h: Heap, h': Heap, w: White, list: seq<Id>, open: seq<Id>, ring: seq<Id>, top: nat)
    requires OpenOk(h, open, ring, top) && SweptFrom(h, h', w, list)
    requires forall x :: x in list && x in h ==> !h[x].body.OpenUpval()
    ensures OpenOk(h', open, ring, top)
    ensures forall x :: x in open ==> x in h && x in h' && h'[x] == h[x]
  {
    DescendingFrame(h, h', open);
  }

  lemma SweptStringsOk(h: Heap, h': Heap, w: White, list: seq<Id>, strt: seq<seq<Id>>)
    requires StringsOk(h, strt) && SweptFrom(h, h', w, list)
    requires forall x :: x in list && x in h ==> !h[x].body.Str?
    ensures StringsOk(h', strt)
    ensures forall i, x :: 0 <= i < |strt| && x in strt[i] ==> x in h && x in h' && h'[x] == h[x]
  {
    forall x | IsStr(h, x)
      ensures x in h' && h'[x] == h[x] && Bucket(h', x, |strt|) == Bucket(h, x, |strt|)
    {
    }
    forall i | 0 <= i < |strt|
      ensures BucketOk(h', strt[i], i, |strt|)
      ensures forall x :: x in strt[i] ==> x in h && x in h' && h'[x] == h[x]
    {
      assert BucketOk(h, strt[i], i, |strt|);
    }
    InternedFrame(h, h');
  }

  lemma SweptUpvalsNotBlack(h: Heap, h': Heap, w: White, list: seq<Id>)
    requires UpvalsNotBlack(h) && SweptFrom(h, h', w, list)
    ensures UpvalsNotBlack(h')
  {
  }

  // ------------------------------------------------------------- strings

  /** The `GCSsweepstring` case of `singlestep`. */
  function SweepStringStep(s: State): State
    requires s.sweepStrGc < |s.strt|
  {
    var w := SweepWhole(s.heap, s.white, s.strt[s.sweepStrGc]);
    s.(heap := w.heap, strt := s.strt[s.sweepStrGc := w.list], sweepStrGc := s.sweepStrGc + 1,
       phase := if s.sweepStrGc + 1 >= |s.strt| then Sweep else s.phase)
  }

  lemma SweptBucket(h: Heap, h': Heap, w: White, i: nat, list': seq<Id>, strt: seq<seq<Id>>)
    requires StringsOk(h, strt) && i < |strt|
    requires SweptFrom(h, h', w, strt[i]) && Survivors(h', strt[i], list')
    ensures StringsOk(h', strt[i := list'])
  {
    var strt' := strt[i := list'];
    forall x | x in h'
      ensures Bucket(h', x, |strt|) == Bucket(h, x, |strt|)
    {
    }
    forall k | 0 <= k < |strt|
      ensures BucketOk(h', strt'[k], k, |strt|)
    {
      assert BucketOk(h, strt[k], k, |strt|);
      assert BucketOk(h, strt[i], i, |strt|);
    }
    forall x | x in h' && h'[x].body.Str?
      ensures x in strt'[Bucket(h', x, |strt|)]
    {
      assert x in strt[Bucket(h, x, |strt|)];
    }
    InternedFrame(h, h');
  }

  lemma SweepStringLists(s: State)
    requires Inv(s) && s.phase == SweepString
    ensures Lists(SweepStringStep(s)) && SweptFrom(s.heap, SweepStringStep(s).heap, s.white, s.strt[s.sweepStrGc])
    ensures Survivors(SweepStringStep(s).heap, s.strt[s.sweepStrGc], SweepStringStep(s).strt[s.sweepStrGc])
  {
    hide ThreadOk, OpenOk, RootListOk, Closed;
    var i, s', list := s.sweepStrGc, SweepStringStep(s), s.strt[s.sweepStrGc];
    assert BucketOk(s.heap, list, i, |s.strt|);
    SweepWholeSweeps(s.heap, s.white, list);
    SweptBucket(s.heap, s'.heap, s.white, i, s'.strt[i], s.strt);
    SweptThreadOk(s.heap, s'.heap, s.white, list, s.main);
    SweptRootListOk(s.heap, s'.heap, s.white, list, s.rootGc);
    SweptOpenOk(s.heap, s'.heap, s.white, list, s.openUpval, s.uvHead, |s.roots.stack|);
  }

  lemma SweepStringKeepsInv(s: State)
    requires Inv(s) && s.phase == SweepString
    ensures Inv(SweepStringStep(s)) && OnlyGarbageGone(s, SweepStringStep(s))
  {
    hide Lists, Closed, OnlyGarbageGone, SweptFrom, SweepWhole, Survivors, UpvalsNotBlack;
    var i, s' := s.sweepStrGc, SweepStringStep(s);
    SweepStringLists(s);
    SweptStaysClosed(s, s', s.strt[i]);
    SweptUpvalsNotBlack(s.heap, s'.heap, s.white, s.strt[i]);
    assert forall k :: 0 <= k < i ==> ListCurrent(s.heap, s.white, s.strt[k]);
    SweptBuckets(s.heap, s'.heap, s.white, s.strt, i, s'.strt[i]);
    assert s'.rootGc[..s'.sweepGc] == [];
  }

  lemma SweptBuckets(h: Heap, h': Heap, w: White, strt: seq<seq<Id>>, i: nat, list': seq<Id>)
    requires i < |strt| && SweptFrom(h, h', w, strt[i]) && Survivors(h', strt[i], list')
    requires forall k :: 0 <= k < i ==> ListCurrent(h, w, strt[k])
    ensures var strt' := strt[i := list'];
            forall k :: 0 <= k <= i ==> ListCurrent(h', w, strt'[k])
  {
    var strt' := strt[i := list'];
    forall k | 0 <= k <= i
      ensures ListCurrent(h', w, strt'[k])
    {
      if k < i {
        assert ListCurrent(h, w, strt[k]);
      }
    }
  }

  // ------------------------------------------------------------- everything else

  lemma SweepOpenSweeps(s: State)
    requires Inv(s)
    ensures var s' := SweepOpen(s);
            && SweptFrom(s.heap, s'.heap, s.white, s.openUpval)
            && OpenOk(s'.heap, s'.openUpval, s'.uvHead, |s.roots.stack|)
            && ListCurrent(s'.heap, s.white, s'.openUpval)
  {
    var s' := SweepOpen(s);
    SweepWholeSweeps(s.heap, s.white, s.openUpval);
    SweepWholeDescending(s.heap, s.white, s.openUpval);
    KeepSurvivors(s.uvHead, s'.heap);
  }

  /** The `openupval` list of the thread is swept when the sweep of `rootgc` meets it. */
  lemma SweepOpenKeepsInv(s: State)
    requires Inv(s) && s.phase == Sweep
    ensures var s' := SweepOpen(s);
            Inv(s') && OnlyGarbageGone(s, s') && ListCurrent(s'.heap, s.white, s'.openUpval) && s.main in s'.heap
  {
    hide Closed, OnlyGarbageGone, SweptFrom, SweepWhole, UpvalsNotBlack, StringsOk, RootListOk;
    var s' := SweepOpen(s);
    SweepOpenSweeps(s);
    SweptStaysClosed(s, s', s.openUpval);
    SweptUpvalsNotBlack(s.heap, s'.heap, s.white, s.openUpval);
    SweptStringsOk(s.heap, s'.heap, s.white, s.openUpval, s.strt);
    SweptThreadOk(s.heap, s'.heap, s.white, s.openUpval, s.main);
    SweptRootListOk(s.heap, s'.heap, s.white, s.openUpval, s.rootGc);
    SweptStillCurrent(s.heap, s'.heap, s.white, s.rootGc[..s.sweepGc]);
    forall i | 0 <= i < |s.strt|
      ensures ListCurrent(s'.heap, s.white, s'.strt[i])
    {
      SweptStillCurrent(s.heap, s'.heap, s.white, s.strt[i]);
    }
  }

  lemma SweptStillCurrent(h: Heap, h': Heap, w: White, list: seq<Id>)
    requires ListCurrent(h, w, list)
    requires forall x :: x in list && x in h' ==> x in h && (h'[x] == h[x] || h'[x].color == w)
    ensures ListCurrent(h', w, list)
  {
  }

  /** `sweeplist` on one object of `rootgc`, the open upvalues of a thread already swept. */
  function SweepAt(s: State): State
    requires s.sweepGc < |s.rootGc| && s.rootGc[s.sweepGc] in s.heap
  {
    var o := s.rootGc[s.sweepGc];
    if Garbage(s.heap, s.white, o) then s.(heap := s.heap - {o}, rootGc := RemoveAt(s.rootGc, s.sweepGc))
    else s.(heap := Recolor(s.heap, o, s.white), sweepGc := s.sweepGc + 1)
  }

  lemma RemoveAtMembers(ids: seq<Id>, i: nat)
    requires NoDup(ids) && i < |ids|
    ensures NoDup(RemoveAt(ids, i)) && (forall x :: x in RemoveAt(ids, i) <==> x in ids && x != ids[i])
    ensures RemoveAt(ids, i)[..i] == ids[..i]
  {
    var r := RemoveAt(ids, i);
    forall x | x in ids && x != ids[i]
      ensures x in r
    {
      var k :| 0 <= k < |ids| && ids[k] == x;
      if k < i { assert r[k] == x; } else { assert r[k - 1] == x; }
    }
  }

  lemma SweepAtSweeps(s: State)
    requires Lists(s) && s.sweepGc < |s.rootGc| && s.rootGc[s.sweepGc] in s.heap
    ensures SweptFrom(s.heap, SweepAt(s).heap, s.white, [s.rootGc[s.sweepGc]])
    ensures RootListOk(SweepAt(s).heap, SweepAt(s).rootGc) && SweepAt(s).sweepGc <= |SweepAt(s).rootGc|
    ensures SweepAt(s).rootGc[..s.sweepGc] == s.rootGc[..s.sweepGc]
    ensures SweepAt(s).sweepGc > s.sweepGc ==> SweepAt(s).rootGc == s.rootGc && SweepAt(s).sweepGc == s.sweepGc + 1
    ensures s.rootGc[s.sweepGc] in s.rootGc
  {
    hide ThreadOk, OpenOk, StringsOk;
    assert s.rootGc[s.sweepGc] in s.rootGc;
    RemoveAtMembers(s.rootGc, s.sweepGc);
  }

  lemma SweepAtLists(s: State)
    requires Lists(s) && s.sweepGc < |s.rootGc| && s.rootGc[s.sweepGc] in s.heap
    ensures Lists(SweepAt(s))
  {
    hide ThreadOk, OpenOk, StringsOk;
    var o, s' := s.rootGc[s.sweepGc], SweepAt(s);
    SweepAtSweeps(s);
    SweptThreadOk(s.heap, s'.heap, s.white, [o], s.main);
    SweptStringsOk(s.heap, s'.heap, s.white, [o], s.strt);
    SweptOpenOk(s.heap, s'.heap, s.white, [o], s.openUpval, s.uvHead, |s.roots.stack|);
  }

  lemma SweepAtKeepsInv(s: State)
    requires Inv(s) && s.phase == Sweep && s.sweepGc < |s.rootGc| && s.rootGc[s.sweepGc] in s.heap
    requires s.rootGc[s.sweepGc] == s.main ==> ListCurrent(s.heap, s.white, s.openUpval)
    ensures Inv(SweepAt(s)) && OnlyGarbageGone(s, SweepAt(s))
  {
    hide Lists, Closed, OnlyGarbageGone, SweptFrom, UpvalsNotBlack;
    var o, i, s' := s.rootGc[s.sweepGc], s.sweepGc, SweepAt(s);
    SweepAtLists(s);
    SweepAtSweeps(s);
    SweptStaysClosed(s, s', [o]);
    SweptUpvalsNotBlack(s.heap, s'.heap, s.white, [o]);
    assert s.rootGc[..i + 1] == s.rootGc[..i] + [o];
    SweepAtSwept(s, s', o);
  }

  lemma SweepAtSwept(s: State, s': State, o: Id)
    requires s.sweepGc <= |s.rootGc| && SweptPart(s) && s.phase == Sweep && SweptFrom(s.heap, s'.heap, s.white, [o])
    requires s'.phase == Sweep && s'.white == s.white && s'.strt == s.strt && s'.openUpval == s.openUpval && s'.main == s.main
    requires s'.sweepGc <= |s'.rootGc|
    requires forall x :: x in s'.rootGc[..s'.sweepGc] ==> x in s.rootGc[..s.sweepGc] + [o]
    requires o == s.main ==> ListCurrent(s.heap, s.white, s.openUpval)
    ensures SweptPart(s')
  {
    forall k | 0 <= k < |s.strt|
      ensures ListCurrent(s'.heap, s.white, s'.strt[k])
    {
      assert ListCurrent(s.heap, s.white, s.strt[k]);
    }
  }

  lemma MainIsTheThread(s: State, o: Id)
    requires Lists(s) && o in s.heap
    ensures s.heap[o].body.Thread? <==> o == s.main
  {
  }

  lemma SweepNextKeepsInv(s: State)
    requires Inv(s) && s.phase == Sweep && s.sweepGc < |s.rootGc| && s.rootGc[s.sweepGc] in s.heap
    ensures Inv(SweepNext(s)) && OnlyGarbageGone(s, SweepNext(s))
  {
    hide Lists, Closed, PhaseInv, OnlyGarbageGone;
    var o := s.rootGc[s.sweepGc];
    MainIsTheThread(s, o);
    if s.heap[o].body.Thread? {
      var s1 := SweepOpen(s);
      SweepOpenKeepsInv(s);
      SweepAtKeepsInv(s1);
      OnlyGarbageGoneTrans(s, s1, SweepAt(s1));
    } else {
      SweepAtKeepsInv(s);
    }
  }
}
