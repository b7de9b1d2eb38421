/**
 The mark phase keeps the invariant: from the root set through every propagation step
 to the atomic step, after which whatever is still white is garbage.
 */
module GcMarkPhase {
  import opened GcHeap
  import opened GcState
  import opened GcInvariant

  /** While nothing is condemned, being closed only needs the objects to exist. */
  lemma StayClosed(s: State, s': State)
    requires Closed(s) && SameKinds(s.heap, s'.heap)
    requires s'.roots == s.roots && s'.main == s.main && s'.registry == s.registry && s'.mt == s.mt
    requires forall x :: x in s'.heap ==> s'.heap[x].color != Other(s'.white)
    requires forall x :: x in s.heap ==> s.heap[x].color != Other(s.white)
    ensures Closed(s')
  {
    forall x, c | Live(s', x) && Child(s'.roots, s'.heap[x].body, c)
      ensures Live(s', c)
    {
      SameKindSlots(s.roots, s.heap[x].body, s'.heap[x].body, c);
      assert Live(s, x);
      assert Live(s, c);
    }
  }

  lemma TriColorNoneCondemned(s: State)
    requires TriColor(s)
    ensures forall x :: x in s.heap ==> s.heap[x].color != Other(s.white)
    ensures UpvalsNotBlack(s.heap)
  {
    forall x | x in s.heap
      ensures s.heap[x].color != Other(s.white) && (s.heap[x].body.OpenUpval() ==> s.heap[x].color != Black)
    {
      assert ColorOk(s, x);
    }
  }

  lemma MarkRootTriColor(s: State)
    requires Inv(s) && (s.phase == Pause || s.phase == Finalize)
    ensures TriColor(MarkRoot(s)) && SameKinds(s.heap, MarkRoot(s).heap)
  {
    hide Slots, StringsOk, OpenOk, RootListOk, Descending, MarkAll;
    var vs := [Ref(s.main), s.roots.globals, s.registry] + s.mt;
    var s0 := s.(gray := [], grayAgain := []);
    var m := MarkAll(s0.M(), s.roots, vs);
    var s' := MarkRoot(s);
    MarkAllMarks(s0.M(), s.roots, vs);
    forall x | x in s0.heap
      ensures ColorOk(s0, x)
    {
    }
    MarksKeepTriColor(s0, m, {});
    assert s' == WithMarking(s0, m).(phase := Propagate);
    assert Ref(s.main) in vs && s.registry in vs;
    assert TriColor(s') by {
      assert TriColorBut(WithMarking(s0, m), {});
      forall x | x in s'.heap
        ensures ColorOk(s', x)
      {
        assert ColorOk(WithMarking(s0, m), x);
      }
    }
  }

  lemma MarkRootKeepsInv(s: State)
    requires Inv(s) && (s.phase == Pause || s.phase == Finalize)
    ensures Inv(MarkRoot(s)) && SameKinds(s.heap, MarkRoot(s).heap)
  {
    hide Lists, TriColor, MarkAll, SameKinds;
    MarkRootTriColor(s);
    TriColorNoneCondemned(MarkRoot(s));
    StayClosed(s, MarkRoot(s));
    MarkRootSweep(s);
    SameKindsLists(s, MarkRoot(s));
  }

  lemma MarkRootSweep(s: State)
    requires Lists(s)
    ensures MarkRoot(s).sweepGc <= |MarkRoot(s).rootGc|
  {
  }

  lemma PropagateMarkKeepsInv(s: State)
    requires Inv(s) && s.phase == Propagate && s.gray != [] && s.gray[0] in s.heap
    ensures Inv(PropagateMark(s)) && SameKinds(s.heap, PropagateMark(s).heap)
  {
    PropagateKeepsTriColor(s);
    TriColorNoneCondemned(s);
    TriColorNoneCondemned(PropagateMark(s));
    StayClosed(s, PropagateMark(s));
    SameKindsLists(s, PropagateMark(s));
  }

  // ------------------------------------------------------------- the atomic step

  ghost predicate OnlyMain(s: State) {
    forall x :: x in s.grayAgain ==> x == s.main
  }

  /** The thread waits for its traversal or has had it: everything on the stack is marked. */
  ghost predicate ThreadSeen(s: State) {
    s.main in s.gray || ChildrenMarked(s.heap, s.roots, Thread)
  }

  lemma {:induction false} PropagateAllSeesThread(s: State)
    requires TriColor(s) && ThreadOk(s.heap, s.main) && OnlyMain(s) && ThreadSeen(s)
    ensures var s' := PropagateAll(s);
            OnlyMain(s') && ChildrenMarked(s'.heap, s.roots, Thread)
    decreases Whites(s.heap), |s.gray|
  {
    if s.gray != [] {
      assert s.gray[0] in s.gray;
      PropagateShrinks(s);
      PropagateKeepsTriColor(s);
      var s1 := PropagateMark(s);
      assert ThreadOk(s1.heap, s.main) && OnlyMain(s1);
      assert ThreadSeen(s1) by {
        if s.gray[0] != s.main && s.main in s.gray {
          assert s.main in s.gray[1..];
          MainStaysGray(s);
        }
      }
      PropagateAllSeesThread(s1);
    }
  }

  lemma MainStaysGray(s: State)
    requires s.gray != [] && s.gray[0] in s.heap && s.main in s.gray[1..]
    ensures s.main in PropagateMark(s).gray
  {
    var t := Taken(s);
    MarkAllMarks(t.M(), s.roots, Slots(s.roots, t.heap[s.gray[0]].body));
  }

  lemma RemarkPassMarks(s: State)
    requires TriColor(s)
    ensures var s' := RemarkPass(s);
            TriColor(s') && SameKinds(s.heap, s'.heap) && (forall x :: Marked(s.heap, x) ==> Marked(s'.heap, x))
  {
    var m := RemarkUpvals(s.M(), s.roots, s.uvHead);
    RemarkMarks(s.M(), s.roots, s.uvHead);
    MarksKeepTriColor(s, m, {});
    MarksKeepGrayOk(s, m);
    PropagateAllKeepsTriColor(WithMarking(s, m));
    SameKindsTrans(s.heap, m.heap, RemarkPass(s).heap);
  }

  lemma RootPassMarks(s: State)
    requires TriColor(s)
    ensures var s' := RootPass(s);
            TriColor(s') && SameKinds(s.heap, s'.heap) &&
            (forall x :: Marked(s.heap, x) ==> Marked(s'.heap, x)) &&
            (forall v :: v in s.mt && v.Ref? && v.id in s'.heap ==> Marked(s'.heap, v.id))
  {
    var vs := [Ref(s.main)] + s.mt;
    var m := MarkAll(s.M(), s.roots, vs);
    MarkAllMarks(s.M(), s.roots, vs);
    MarksKeepTriColor(s, m, {});
    MarksKeepGrayOk(s, m);
    PropagateAllKeepsTriColor(WithMarking(s, m));
    SameKindsTrans(s.heap, m.heap, RootPass(s).heap);
    forall v | v in s.mt && v.Ref? && v.id in s.heap
      ensures Marked(RootPass(s).heap, v.id)
    {
      assert v in vs && Marked(m.heap, v.id);
    }
  }

  lemma AgainPassMarks(s: State)
    requires TriColor(s) && s.gray == [] && ThreadOk(s.heap, s.main)
    ensures var s' := AgainPass(s);
            TriColor(s') && SameKinds(s.heap, s'.heap) && OnlyMain(s') &&
            ChildrenMarked(s'.heap, s.roots, Thread) &&
            (forall x :: Marked(s.heap, x) ==> Marked(s'.heap, x))
  {
    Regray(s);
    PropagateAllKeepsTriColor(Regrayed(s));
    PropagateAllSeesThread(Regrayed(s));
  }

  /** Moving `grayagain` to an empty `gray` keeps the colours right; the main thread is in it. */
  lemma Regray(s: State)
    requires TriColor(s) && s.gray == [] && ThreadOk(s.heap, s.main)
    ensures TriColor(Regrayed(s)) && ThreadSeen(Regrayed(s))
  {
    assert ColorOk(s, s.main);
    forall x | x in s.heap
      ensures ColorOk(Regrayed(s), x)
    {
      assert ColorOk(s, x);
    }
  }

  /** The three passes end with every marked object's children marked. */
  lemma FinishMarkingMarks(s: State)
    requires TriColor(s) && ThreadOk(s.heap, s.main)
    ensures var s' := FinishMarking(s);
            && s' == s.(heap := s'.heap, gray := [], grayAgain := s'.grayAgain)
            && TriColor(s') && SameKinds(s.heap, s'.heap) && OnlyMain(s')
            && ChildrenMarked(s'.heap, s.roots, Thread)
            && (forall v :: v in s.mt && v.Ref? && v.id in s'.heap ==> Marked(s'.heap, v.id))
            && (forall x :: Marked(s.heap, x) ==> Marked(s'.heap, x))
  {
    var s1 := RemarkPass(s);
    var s2 := RootPass(s1);
    RemarkPassMarks(s);
    RootPassMarks(s1);
    SameKindsTrans(s.heap, s1.heap, s2.heap);
    AgainPassMarks(s2);
    SameKindsTrans(s.heap, s2.heap, AgainPass(s2).heap);
  }

  /** What stays white through `atomic` is what the flip condemns. */
  lemma FlipCondemnsWhites(s: State, x: Id)
    requires TriColor(s) && ThreadOk(s.heap, s.main) && x in s.heap
    ensures Live(Atomic(s), x) <==> Marked(FinishMarking(s).heap, x)
  {
    FinishMarkingMarks(s);
    assert ColorOk(FinishMarking(s), x);
  }

  lemma AtomicKeepsInv(s: State)
    requires Inv(s) && s.phase == Propagate && s.gray == []
    ensures Inv(Atomic(s)) && SameKinds(s.heap, Atomic(s).heap)
  {
    FinishMarkingMarks(s);
    SameKindsLists(s, Atomic(s));
    TriColorNoneCondemned(FinishMarking(s));
    AtomicClosed(s);
  }

  lemma ThreadIsThere(s: State)
    requires Lists(s)
    ensures ThreadOk(s.heap, s.main) && s.sweepGc <= |s.rootGc|
  {
  }

  lemma AtomicClosed(s: State)
    requires Inv(s) && s.phase == Propagate && s.gray == []
    ensures Closed(Atomic(s))
  {
    hide Lists, FinishMarking, SameKinds, Slots, ColorOk;
    var s1, s' := FinishMarking(s), Atomic(s);
    ThreadIsThere(s);
    FinishMarkingMarks(s);
    TriColorNoneCondemned(s);
    TriColorNoneCondemned(s1);
    StayClosed(s, s1);
    SameKindsLists(s, s1);
    forall x | x in s1.heap
      ensures Live(s', x) <==> Marked(s1.heap, x)
    {
      FlipCondemnsWhites(s, x);
    }
    forall x, c | Live(s', x) && Child(s'.roots, s'.heap[x].body, c)
      ensures Live(s', c)
    {
      assert Live(s1, x) && Live(s1, c);
      ChildOfMarked(s1, x, c);
    }
    forall v | v in s'.mt && v.Ref?
      ensures Live(s', v.id)
    {
      assert ValueLive(s1, v);
    }
  }

  /** After the last pass the marked objects are closed under reference. */
  lemma ChildOfMarked(s: State, x: Id, c: Id)
    requires TriColor(s) && s.gray == [] && OnlyMain(s) && Lists(s) && ChildrenMarked(s.heap, s.roots, Thread)
    requires Marked(s.heap, x) && Child(s.roots, s.heap[x].body, c) && c in s.heap
    ensures Marked(s.heap, c)
  {
    assert ColorOk(s, x);
    var b := s.heap[x].body;
    if b.OpenUpval() {
      assert x in s.openUpval;
      assert Child(s.roots, Thread, c) by {
        assert s.roots.stack[b.level] in s.roots.stack;
      }
    } else if s.heap[x].color == Gray {
      assert b.Traversable() ==> x == s.main;
    }
  }
}
