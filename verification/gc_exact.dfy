/**
 A full collection keeps exactly what is reachable. Marking never leaves a set of objects
 that is closed under reference, so what the collector marks is what the roots reach, once
 the keys of empty table entries no longer count.
 */
module GcExact {
  import opened GcHeap
  import opened GcState
  import opened GcInvariant
  import opened GcMarkPhase
  import opened GcSweepPhase
  import opened GcCycle
  import opened GcCollection

  /** The state as it would be had every table been traversed: `removeentry` done everywhere. */
  function Tagged(s: State): State {
    s.(heap := map x | x in s.heap :: s.heap[x].(body := Traversed(s.heap[x].body)))
  }

  /** What the program can still get at: from the roots, by `n` accesses to objects. The key of an
      entry that has no value cannot be got at. */
  ghost predicate NeededIn(s: State, n: nat, x: Id) {
    if n == 0 then IsRoot(s, x)
    else exists y :: NeededIn(s, n - 1, y) && Shows(s, y, x)
  }

  ghost predicate Shows(s: State, y: Id, x: Id) {
    y in s.heap && ShowsRef(s.roots, s.heap[y].body, x)
  }

  ghost predicate Needed(s: State, x: Id) {
    exists n: nat :: NeededIn(s, n, x)
  }

  lemma {:induction false} TagDeadAt(node: seq<Node>, i: nat)
    requires i < |node|
    ensures TagDead(node)[i] == if node[i].val.Nil? && node[i].key.Ref? then node[i].(dead := true) else node[i]
    decreases |node|
  {
    if i > 0 {
      TagDeadAt(node[1..], i - 1);
    }
  }

  /** Traversing a table takes away the keys that cannot be got at, and nothing else. */
  lemma TraversedShows(r: Roots, b: Body, c: Id)
    ensures LeadsTo(r, Traversed(b), c) <==> ShowsRef(r, b, c)
  {
    forall a
      ensures Reads(r, Traversed(b), a, Ref(c)) <==> Shown(b, a) && Reads(r, b, a, Ref(c))
    {
      if b.Table? && (a.EntryKey? || a.EntryValue?) && a.i < |b.node| {
        TagDeadAt(b.node, a.i);
      }
    }
  }

  lemma ShowsIsRefers(s: State, y: Id, x: Id)
    ensures Shows(s, y, x) <==> Refers(Tagged(s), y, x)
  {
    if y in s.heap {
      TraversedShows(s.roots, s.heap[y].body, x);
    }
  }

  lemma {:induction false} NeededInIs(s: State, n: nat, x: Id)
    ensures NeededIn(s, n, x) <==> ReachIn(Tagged(s), n, x)
  {
    if n > 0 {
      forall y
        ensures NeededIn(s, n - 1, y) && Shows(s, y, x) <==> ReachIn(Tagged(s), n - 1, y) && Refers(Tagged(s), y, x)
      {
        NeededInIs(s, n - 1, y);
        ShowsIsRefers(s, y, x);
      }
    } else {
      assert IsRoot(Tagged(s), x) <==> IsRoot(s, x);
    }
  }

  /** Needed is reachable once every empty entry has lost its key. */
  lemma NeededIs(s: State, x: Id)
    ensures Needed(s, x) <==> Reachable(Tagged(s), x)
  {
    hide NeededIn, ReachIn;
    forall n: nat
      ensures NeededIn(s, n, x) <==> ReachIn(Tagged(s), n, x)
    {
      NeededInIs(s, n, x);
    }
  }

  // ------------------------------------------------------------- marking stays inside a closed set

  ghost predicate ClosedSet(h: Heap, r: Roots, region: iset<Id>) {
    forall x, c {:trigger Child(r, h[x].body, c)} {:trigger Child(r, Traversed(h[x].body), c)} ::
      x in region && x in h && Child(r, Traversed(h[x].body), c) ==> c in region
  }

  ghost predicate MarkedIn(h: Heap, region: iset<Id>) {
    forall x :: Marked(h, x) ==> x in region
  }

  ghost predicate ValuesIn(vs: seq<Value>, region: iset<Id>) {
    forall c :: Ref(c) in vs ==> c in region
  }

  lemma ClosedSetSameKinds(h: Heap, h': Heap, r: Roots, region: iset<Id>)
    requires ClosedSet(h, r, region) && SameKinds(h, h')
    ensures ClosedSet(h', r, region)
  {
    forall x, c | x in region && x in h' && Child(r, Traversed(h'[x].body), c)
      ensures c in region
    {
      TraversedTwice(h[x].body);
    }
  }

  lemma SameShapeSameKinds(h: Heap, h': Heap)
    requires SameShape(h, h')
    ensures SameKinds(h, h')
  {
  }

  lemma ChildrenIn(h: Heap, r: Roots, region: iset<Id>, x: Id)
    requires ClosedSet(h, r, region) && x in region && x in h
    ensures ValuesIn(Slots(r, Traversed(h[x].body)), region)
  {
    forall c | Ref(c) in Slots(r, Traversed(h[x].body))
      ensures c in region
    {
      assert Child(r, Traversed(h[x].body), c);
    }
  }

  lemma {:induction false} MarkValueIn(m: Marking, r: Roots, v: Value, region: iset<Id>)
    requires ClosedSet(m.heap, r, region) && MarkedIn(m.heap, region) && (v.Ref? ==> v.id in region)
    ensures MarkedIn(MarkValue(m, r, v).heap, region)
    decreases Whites(m.heap), 2, 0
  {
    if v.Ref? && IsWhite(m.heap, v.id) {
      ReallyMarkIn(m, r, v.id, region);
    }
  }

  lemma {:induction false} ReallyMarkIn(m: Marking, r: Roots, o: Id, region: iset<Id>)
    requires IsWhite(m.heap, o) && o in region
    requires ClosedSet(m.heap, r, region) && MarkedIn(m.heap, region)
    ensures MarkedIn(ReallyMark(m, r, o).heap, region)
    decreases Whites(m.heap), 1, 0
  {
    hide ClosedSet;
    var b := m.heap[o].body;
    var gray := m.(heap := Recolor(m.heap, o, Gray));
    var black := m.(heap := Recolor(m.heap, o, Black));
    assert o in Whites(m.heap) && o !in Whites(gray.heap) && o !in Whites(black.heap);
    SameShapeSameKinds(m.heap, gray.heap);
    SameShapeSameKinds(m.heap, black.heap);
    ClosedSetSameKinds(m.heap, gray.heap, r, region);
    ClosedSetSameKinds(m.heap, black.heap, r, region);
    ChildrenIn(m.heap, r, region, o);
    match b {
      case Udata(mt, env) =>
        assert Slots(r, b) == [mt, env];
        MarkAllIn(black, r, [mt, env], region);
      case Upval(_, _, _) =>
        MarkAllIn(gray, r, Slots(r, b), region);
      case _ =>
    }
  }

  lemma {:induction false} MarkAllIn(m: Marking, r: Roots, vs: seq<Value>, region: iset<Id>)
    requires ClosedSet(m.heap, r, region) && MarkedIn(m.heap, region) && ValuesIn(vs, region)
    ensures MarkedIn(MarkAll(m, r, vs).heap, region)
    decreases Whites(m.heap), 3, |vs|
  {
    if vs != [] {
      hide ClosedSet, MarkedIn, Marks, ReallyMark;
      assert vs[0] in vs;
      var m1 := MarkValue(m, r, vs[0]);
      MarkValueIn(m, r, vs[0], region);
      MarkValueMarks(m, r, vs[0]);
      SameShapeMarks(m, m1, r);
      SameShapeSameKinds(m.heap, m1.heap);
      ClosedSetSameKinds(m.heap, m1.heap, r, region);
      MarkAllIn(m1, r, vs[1..], region);
    }
  }

  ghost predicate Inside(s: State, region: iset<Id>) {
    ClosedSet(s.heap, s.roots, region) && MarkedIn(s.heap, region)
  }

  /** Marking some values of the set, as a step on states. */
  lemma MarkAllInside(s: State, vs: seq<Value>, region: iset<Id>)
    requires Inside(s, region) && ValuesIn(vs, region)
    ensures Inside(WithMarking(s, MarkAll(s.M(), s.roots, vs)), region)
  {
    hide ClosedSet, MarkedIn, Marks;
    MarkAllIn(s.M(), s.roots, vs, region);
    MarkAllMarks(s.M(), s.roots, vs);
    SameShapeMarks(s.M(), MarkAll(s.M(), s.roots, vs), s.roots);
    SameShapeSameKinds(s.heap, MarkAll(s.M(), s.roots, vs).heap);
    ClosedSetSameKinds(s.heap, MarkAll(s.M(), s.roots, vs).heap, s.roots, region);
  }

  lemma TakenInside(s: State, region: iset<Id>)
    requires Inside(s, region) && s.gray != [] && Marked(s.heap, s.gray[0])
    ensures Inside(Taken(s), region) && ValuesIn(Slots(s.roots, Taken(s).heap[s.gray[0]].body), region)
  {
    var o := s.gray[0];
    TraversedTwice(s.heap[o].body);
    assert SameKinds(s.heap, Taken(s).heap);
    ClosedSetSameKinds(s.heap, Taken(s).heap, s.roots, region);
    ChildrenIn(s.heap, s.roots, region, o);
  }

  lemma PropagateInside(s: State, region: iset<Id>)
    requires Inside(s, region) && s.gray != [] && Marked(s.heap, s.gray[0])
    ensures Inside(PropagateMark(s), region)
  {
    hide Inside, ClosedSet, MarkedIn, MarkAll;
    TakenInside(s, region);
    MarkAllInside(Taken(s), Slots(s.roots, Taken(s).heap[s.gray[0]].body), region);
    assert PropagateMark(s) == WithMarking(Taken(s), MarkAll(Taken(s).M(), s.roots, Slots(s.roots, Taken(s).heap[s.gray[0]].body)));
  }

  lemma {:induction false} PropagateAllInside(s: State, region: iset<Id>)
    requires Inside(s, region) && GrayOk(s)
    ensures Inside(PropagateAll(s), region)
    decreases Whites(s.heap), |s.gray|
  {
    hide Inside;
    if s.gray != [] {
      assert s.gray[0] in s.gray;
      PropagateShrinks(s);
      PropagateInside(s, region);
      PropagateAllInside(PropagateMark(s), region);
    }
  }

  lemma {:induction false} RemarkInside(s: State, uvs: seq<Id>, region: iset<Id>)
    requires Inside(s, region) && forall x :: x in uvs && x in s.heap ==> s.heap[x].body.Upval?
    ensures Inside(WithMarking(s, RemarkUpvals(s.M(), s.roots, uvs)), region)
    decreases |uvs|
  {
    if uvs != [] {
      hide ClosedSet, WellMarked, MarkAll;
      if uvs[0] in s.heap && s.heap[uvs[0]].color == Gray {
        var vs := Slots(s.roots, s.heap[uvs[0]].body);
        ChildrenIn(s.heap, s.roots, region, uvs[0]);
        MarkAllInside(s, vs, region);
        MarkAllMarks(s.M(), s.roots, vs);
        RemarkInside(WithMarking(s, MarkAll(s.M(), s.roots, vs)), uvs[1..], region);
      } else {
        RemarkInside(s, uvs[1..], region);
      }
    }
  }

  // ------------------------------------------------------------- through a whole cycle

  /** The set holds the roots. */
  ghost predicate RootsIn(s: State, region: iset<Id>) {
    forall x :: IsRoot(s, x) ==> x in region
  }

  lemma RootValuesIn(s: State, region: iset<Id>)
    requires RootsIn(s, region) && ThreadOk(s.heap, s.main) && ClosedSet(s.heap, s.roots, region)
    ensures ValuesIn([Ref(s.main)] + s.mt, region)
    ensures ValuesIn([Ref(s.main), s.roots.globals, s.registry] + s.mt, region)
  {
    assert IsRoot(s, s.main);
    forall c | Ref(c) in s.mt || s.registry == Ref(c)
      ensures c in region
    {
      assert IsRoot(s, c);
    }
    ChildrenIn(s.heap, s.roots, region, s.main);
  }

  lemma RemarkPassInside(s: State, region: iset<Id>)
    requires MarksOk(s) && Inside(s, region) && forall x :: x in s.uvHead && x in s.heap ==> s.heap[x].body.Upval?
    ensures Inside(RemarkPass(s), region)
  {
    hide Inside, RemarkUpvals, PropagateAll;
    var m := RemarkUpvals(s.M(), s.roots, s.uvHead);
    RemarkInside(s, s.uvHead, region);
    RemarkMarks(s.M(), s.roots, s.uvHead);
    MarksKeepGrayOk(s, m);
    PropagateAllInside(WithMarking(s, m), region);
  }

  lemma RootPassInside(s: State, region: iset<Id>)
    requires MarksOk(s) && Inside(s, region) && ValuesIn([Ref(s.main)] + s.mt, region)
    ensures Inside(RootPass(s), region)
  {
    hide Inside, MarkAll, PropagateAll, ValuesIn;
    var vs := [Ref(s.main)] + s.mt;
    MarkAllInside(s, vs, region);
    MarkAllMarks(s.M(), s.roots, vs);
    MarksKeepGrayOk(s, MarkAll(s.M(), s.roots, vs));
    PropagateAllInside(WithMarking(s, MarkAll(s.M(), s.roots, vs)), region);
  }

  lemma FinishMarkingInside(s: State, region: iset<Id>)
    requires MarksOk(s) && ThreadOk(s.heap, s.main) && Inside(s, region) && RootsIn(s, region)
    requires forall x :: x in s.uvHead && x in s.heap ==> s.heap[x].body.Upval?
    ensures Inside(FinishMarking(s), region)
  {
    RootValuesIn(s, region);
    hide Inside, ClosedSet, ValuesIn, RootsIn, PropagateAll;
    RemarkPassInside(s, region);
    RootPassInside(RemarkPass(s), region);
    PropagateAllInside(Regrayed(RootPass(RemarkPass(s))), region);
  }

  /** Phase by phase: only objects of the set are marked, then only objects outside it are
      condemned and not fixed, then only objects of the set and fixed ones are left. */
  ghost predicate Track(s: State, region: iset<Id>) {
    match s.phase
    case Propagate => Inside(s, region) && RootsIn(s, region)
    case Pause => OnlyKept(s, region)
    case Finalize => OnlyKept(s, region)
    case _ => forall x :: x in s.heap && x !in region && !s.heap[x].fixed ==> s.heap[x].color == Other(s.white)
  }

  ghost predicate OnlyKept(s: State, region: iset<Id>) {
    forall x :: x in s.heap ==> x in region || s.heap[x].fixed
  }

  lemma SweepTracks(s: State, s': State, region: iset<Id>)
    requires Track(s, region) && (s.phase == SweepString || s.phase == Sweep)
    requires OnlyGarbageGone(s, s') && s'.white == s.white
    ensures forall x :: x in s'.heap && x !in region && !s'.heap[x].fixed ==> s'.heap[x].color == Other(s.white)
  {
    forall x | x in s'.heap && x !in region && !s'.heap[x].fixed
      ensures s'.heap[x].color == Other(s.white)
    {
      assert Garbage(s.heap, s.white, x);
    }
  }

  lemma AtomicTracks(s: State, region: iset<Id>)
    requires Inv(s) && s.phase == Propagate && s.gray == [] && Track(s, region)
    ensures Track(Atomic(s), region)
  {
    hide StringsOk, RootListOk, Closed, FinishMarking, ClosedSet, RootsIn;
    GrayIsThere(s);
    FinishMarkingInside(s, region);
    FinishMarkingMarks(s);
    forall x | x in s.heap && x !in region
      ensures Atomic(s).heap[x].color == Other(Atomic(s).white)
    {
      FlipCondemnsWhites(s, x);
    }
  }

  lemma PropagateTracks(s: State, region: iset<Id>)
    requires Inv(s) && s.phase == Propagate && s.gray != [] && s.gray[0] in s.heap && Track(s, region)
    ensures Track(PropagateMark(s), region)
  {
    hide Lists, Closed, Inside, MarkAll, ColorOk;
    assert s.gray[0] in s.gray;
    PropagateInside(s, region);
    PropagateMarkFrame(s);
    RootsInFrame(s, PropagateMark(s), region);
  }

  lemma RootsInFrame(s: State, s': State, region: iset<Id>)
    requires RootsIn(s, region) && s'.main == s.main && s'.registry == s.registry && s'.mt == s.mt
    ensures RootsIn(s', region)
  {
    forall x | IsRoot(s', x)
      ensures x in region
    {
      assert IsRoot(s, x);
    }
  }

  lemma EndSweepTracks(s: State, region: iset<Id>)
    requires AllCurrent(s)
    requires forall x :: x in s.heap && x !in region && !s.heap[x].fixed ==> s.heap[x].color == Other(s.white)
    ensures OnlyKept(s, region)
  {
  }

  lemma SweepStepTracks(s: State, region: iset<Id>)
    requires Inv(s) && s.phase == Sweep && Track(s, region)
    ensures Track(SingleStep(s), region)
  {
    hide Lists, Closed, SweptPart, UpvalsNotBlack, SweepObjs, CheckSizes, OnlyGarbageGone;
    var s1 := SweepObjs(s, GCSWEEPMAX);
    SweepObjsSweeps(s, GCSWEEPMAX);
    SweepTracks(s, s1, region);
    if s1.sweepGc >= |s1.rootGc| {
      SweepOverAllCurrent(s1);
      CheckSizesFrame(s1);
      EndSweepTracks(s1, region);
    }
  }

  lemma StepTracks(s: State, region: iset<Id>)
    requires Inv(s) && s.phase != Pause && Track(s, region)
    ensures Track(SingleStep(s), region)
  {
    hide Lists, Closed, TriColor, SweptPart, UpvalsNotBlack, SweepObjs, CheckSizes, OnlyGarbageGone, PropagateMark, Inside;
    match s.phase {
      case Propagate =>
        GrayIsThere(s);
        if s.gray != [] {
          PropagateTracks(s, region);
        } else {
          AtomicTracks(s, region);
        }
      case SweepString =>
        BucketIsThere(s);
        SweepStringKeepsInv(s);
        SweepTracks(s, SweepStringStep(s), region);
      case Sweep =>
        SweepStepTracks(s, region);
      case Finalize =>
    }
  }

  lemma {:induction false} RunTracks(s: State, region: iset<Id>)
    requires Inv(s) && Track(s, region)
    ensures OnlyKept(RunTo(s, Pause), region)
    decreases Rank(s.phase), ToMark(s), ToVisit(s)
  {
    hide Inv, SingleStep, ToMark, ToVisit, OnlyKept, Inside;
    VisitsLeft(s);
    if s.phase != Pause {
      StepMakesProgress(s);
      SingleStepKeepsInv(s);
      StepTracks(s, region);
      RunTracks(SingleStep(s), region);
    }
  }

  // ------------------------------------------------------------- the theorem

  ghost function NeededSet(s: State): iset<Id> {
    iset x | Needed(s, x)
  }

  lemma NeededClosed(s: State)
    ensures ClosedSet(s.heap, s.roots, NeededSet(s)) && RootsIn(s, NeededSet(s))
  {
    var t := Tagged(s);
    forall x | IsRoot(s, x)
      ensures Needed(s, x)
    {
      assert NeededIn(s, 0, x);
    }
    forall x, c | Needed(s, x) && x in s.heap && Child(s.roots, Traversed(s.heap[x].body), c)
      ensures Needed(s, c)
    {
      NeededIs(s, x);
      NeededIs(s, c);
      ChildIsRead(s.roots, Traversed(s.heap[x].body), c);
      var n: nat :| ReachIn(t, n, x);
      assert Refers(t, x, c);
      assert ReachIn(t, n + 1, c);
    }
  }

  /** What is needed before the collection is still referred to, and alive, at any later point of it. */
  lemma {:induction false} NeededStaysLive(s: State, s': State, n: nat, x: Id)
    requires Kept(s, s') && Closed(s') && ReachIn(Tagged(s), n, x)
    ensures Live(s', x)
    decreases n
  {
    if n == 0 {
      assert IsRoot(s', x);
      assert ReachIn(s', 0, x);
      ReachInLive(s', 0, x);
    } else {
      var y :| ReachIn(Tagged(s), n - 1, y) && Refers(Tagged(s), y, x);
      NeededStaysLive(s, s', n - 1, y);
      ChildIsRead(s.roots, Traversed(s.heap[y].body), x);
      if s'.heap[y].body == s.heap[y].body {
        SameKindSlots(s.roots, s.heap[y].body, Traversed(s.heap[y].body), x);
      }
      assert Child(s'.roots, s'.heap[y].body, x);
    }
  }

  /** Fewer objects, and nothing new among the references of those that are left. */
  lemma {:induction false} NeededShrinks(s: State, s': State, n: nat, x: Id)
    requires Kept(s, s') && ReachIn(Tagged(s'), n, x)
    ensures ReachIn(Tagged(s), n, x)
    decreases n
  {
    if n == 0 {
      assert IsRoot(Tagged(s), x);
    } else {
      var y :| ReachIn(Tagged(s'), n - 1, y) && Refers(Tagged(s'), y, x);
      NeededShrinks(s, s', n - 1, y);
      TraversedTwice(s.heap[y].body);
      assert Refers(Tagged(s), y, x);
    }
  }

  lemma AbandonKeeps(s: State)
    ensures Kept(s, Abandon(s))
  {
  }

  lemma MarkRootKept(s: State)
    requires Inv(s) && (s.phase == Pause || s.phase == Finalize)
    ensures Kept(s, MarkRoot(s))
  {
    MarkRootKeepsInv(s);
    MarkRootFrame(s);
  }

  lemma FullGcKeeps(s: State)
    requires Inv(s)
    ensures Kept(s, FullGc(s))
  {
    hide Inv, MarkRoot, Kept;
    AbandonKeepsInv(s);
    AbandonKeeps(s);
    RunToKeeps(Abandon(s), Finalize);
    var s1 := RunTo(Abandon(s), Finalize);
    MarkRootKeepsInv(s1);
    MarkRootKept(s1);
    RunToKeeps(MarkRoot(s1), Pause);
    StepOkTrans(s, Abandon(s), s1);
    StepOkTrans(s, s1, MarkRoot(s1));
    StepOkTrans(s, MarkRoot(s1), FullGc(s));
  }

  lemma MarkRootTracks(s: State, region: iset<Id>)
    requires Inv(s) && s.phase == Finalize && ClosedSet(s.heap, s.roots, region) && RootsIn(s, region)
    ensures Track(MarkRoot(s), region)
  {
    hide ClosedSet, MarkAll, RootsIn, StringsOk, OpenOk, Closed;
    var s0 := s.(gray := [], grayAgain := []);
    RootValuesIn(s, region);
    MarkAllInside(s0, [Ref(s.main), s.roots.globals, s.registry] + s.mt, region);
    RootsInFrame(s, MarkRoot(s), region);
  }

  /** `luaC_fullgc` leaves exactly the objects the roots reach, and the fixed ones, and does not
      touch their contents. */
  lemma FullGcExact(s: State, x: Id)
    requires Inv(s)
    ensures x in FullGc(s).heap <==> x in s.heap && (Needed(s, x) || s.heap[x].fixed)
    ensures x in FullGc(s).heap ==> SameKind(s.heap[x].body, FullGc(s).heap[x].body)
  {
    hide Inv, MarkRoot, Closed, ClosedSet, Track, AllCurrent;
    var s' := FullGc(s);
    FullGcKeeps(s);
    InvClosed(s');
    NeededIs(s, x);
    if Needed(s, x) {
      var n: nat :| ReachIn(Tagged(s), n, x);
      NeededStaysLive(s, s', n, x);
    }
    AbandonKeepsInv(s);
    AbandonKeeps(s);
    var s1 := RunTo(Abandon(s), Finalize);
    RunToKeeps(Abandon(s), Finalize);
    StepOkTrans(s, Abandon(s), s1);
    MarkRootKeepsInv(s1);
    NeededClosed(s1);
    MarkRootTracks(s1, NeededSet(s1));
    RunTracks(MarkRoot(s1), NeededSet(s1));
    if x in s'.heap && !s.heap[x].fixed {
      assert Needed(s1, x);
      NeededIs(s1, x);
      var n: nat :| ReachIn(Tagged(s1), n, x);
      NeededShrinks(s, s1, n, x);
    }
  }

  lemma InvClosed(s: State)
    requires Inv(s)
    ensures Closed(s)
  {
  }
}
