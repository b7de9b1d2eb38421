/**
 What the program does to the heap between two steps of the collector: allocating and
 linking objects, interning strings, writing with a barrier, moving the stack, and
 finding and closing upvalues (lgc.c, lgc.h, lfunc.c, lstring.c).
 */
module GcMutator {
  import opened GcHeap
  import opened GcState
  import opened GcInvariant
  import opened GcMarkPhase
  import opened GcCycle
  import opened Sequences

  // ------------------------------------------------------------- allocation

  function InsertAt(ids: seq<Id>, i: nat, x: Id): seq<Id>
    requires i <= |ids|
  {
    ids[..i] + [x] + ids[i..]
  }

  function IndexOf(ids: seq<Id>, x: Id): (i: nat)
    ensures i <= |ids| && (i < |ids| ==> ids[i] == x) && (x in ids ==> i < |ids|)
  {
    if ids == [] || ids[0] == x then 0 else 1 + IndexOf(ids[1..], x)
  }

  /** `luaC_link` at the head of `rootgc`, or (`luaS_newudata`) right after the main thread.
      A sweep that has passed the place keeps its own place. */
  function Link(s: State, id: Id, body: Body): State {
    var i := if body.Udata? && s.main in s.rootGc then IndexOf(s.rootGc, s.main) + 1 else 0;
    s.(heap := s.heap[id := Obj(s.white, false, body)],
       rootGc := InsertAt(s.rootGc, i, id),
       sweepGc := Shift(i, s.sweepGc))
  }

  ghost predicate ChildrenLive(s: State, b: Body) {
    forall c {:trigger Child(s.roots, b, c)} :: Child(s.roots, b, c) ==> Live(s, c)
  }

  function Shift(i: nat, k: nat): nat {
    if i < k then k + 1 else k
  }

  lemma InsertMembers(ids: seq<Id>, i: nat, x: Id, k: nat)
    requires i <= |ids| && k <= |ids| && NoDup(ids) && x !in ids
    ensures NoDup(InsertAt(ids, i, x)) && (forall y :: y in InsertAt(ids, i, x) <==> y == x || y in ids)
    ensures forall y :: y in InsertAt(ids, i, x)[..Shift(i, k)] ==> y == x || y in ids[..k]
  {
    var r := InsertAt(ids, i, x);
    forall y | y in ids
      ensures y in r
    {
      var k :| 0 <= k < |ids| && ids[k] == y;
      assert if k < i then r[k] == y else r[k + 1] == y;
    }
    if i < k {
      assert r[..k + 1] == ids[..i] + [x] + ids[i..k];
      assert ids[..k] == ids[..i] + ids[i..k];
    } else {
      assert r[..k] == ids[..k];
    }
  }

  ghost predicate Linkable(b: Body) {
    !b.Str? && !b.Thread? && !b.OpenUpval()
  }

  lemma LinkLists(s: State, id: Id, body: Body)
    requires Lists(s) && id !in s.heap && Linkable(body)
    ensures Lists(Link(s, id, body))
    ensures forall x :: x in Link(s, id, body).rootGc[..Link(s, id, body).sweepGc] ==> x == id || x in s.rootGc[..s.sweepGc]
  {
    hide Descending, Interned, OpenOk, StringsOk;
    var i := if body.Udata? && s.main in s.rootGc then IndexOf(s.rootGc, s.main) + 1 else 0;
    InsertMembers(s.rootGc, i, id, s.sweepGc);
    NewObjectOthers(s, id, Obj(s.white, false, body));
  }

  /** An object of another kind is no business of the string table and of the open upvalues. */
  lemma NewObjectOthers(s: State, id: Id, o: Obj)
    requires id !in s.heap
    requires !o.body.Str? && !o.body.OpenUpval()
    requires OpenOk(s.heap, s.openUpval, s.uvHead, |s.roots.stack|) && StringsOk(s.heap, s.strt)
    ensures OpenOk(s.heap[id := o], s.openUpval, s.uvHead, |s.roots.stack|) && StringsOk(s.heap[id := o], s.strt)
    ensures !InSome(s.strt, id) && id !in s.openUpval
  {
    var h := s.heap[id := o];
    DescendingFrame(s.heap, h, s.openUpval);
    StringsFrame(s.heap, h, s.strt);
    StringsApart(s.heap, s.strt);
  }

  lemma StringsFrame(h: Heap, h': Heap, strt: seq<seq<Id>>)
    requires StringsOk(h, strt)
    requires forall x :: IsStr(h', x) <==> IsStr(h, x)
    requires forall x :: IsStr(h, x) ==> x in h' && h'[x].body == h[x].body
    ensures StringsOk(h', strt)
  {
    forall i | 0 <= i < |strt|
      ensures BucketOk(h', strt[i], i, |strt|)
    {
      assert BucketOk(h, strt[i], i, |strt|);
      forall x | x in strt[i]
        ensures IsStr(h', x)
      {
        assert IsStr(h, x);
      }
    }
    forall x | IsStr(h', x)
      ensures x in strt[Bucket(h', x, |strt|)]
    {
      assert Bucket(h', x, |strt|) == Bucket(h, x, |strt|);
    }
    InternedFrame(h, h');
  }

  /** Adding a live object whose children are live. */
  lemma NewObjectClosed(s: State, s': State, id: Id, body: Body)
    requires Closed(s) && id !in s.heap && ChildrenLive(s, body)
    requires s'.heap == s.heap[id := Obj(s.white, false, body)] && s'.white == s.white && s'.roots == s.roots
    requires s'.main == s.main && s'.registry == s.registry && s'.mt == s.mt
    ensures Closed(s')
  {
    forall x, c | Live(s', x) && Child(s'.roots, s'.heap[x].body, c)
      ensures Live(s', c)
    {
      assert x != id ==> Live(s, x);
      assert Live(s, c);
    }
    forall v | v in s'.mt
      ensures ValueLive(s', v)
    {
      assert ValueLive(s, v);
    }
    assert ValueLive(s, s.registry);
  }

  lemma NewObjectTriColor(s: State, s': State, id: Id, body: Body)
    requires TriColor(s) && Closed(s) && id !in s.heap
    requires s'.heap == s.heap[id := Obj(s.white, false, body)] && s'.white == s.white && s'.roots == s.roots
    requires s'.main == s.main && s'.registry == s.registry && s'.gray == s.gray && s'.grayAgain == s.grayAgain
    ensures TriColor(s')
  {
    forall x | x in s'.heap
      ensures ColorOk(s', x)
    {
      if x != id {
        assert ColorOk(s, x);
        if s.heap[x].color == Black {
          forall c | Child(s.roots, s.heap[x].body, c) && c in s'.heap
            ensures Marked(s'.heap, c)
          {
            assert Live(s, x) && Live(s, c);
          }
        }
      }
    }
  }

  lemma LinkKeepsInv(s: State, id: Id, body: Body)
    requires Inv(s) && id !in s.heap && Linkable(body) && ChildrenLive(s, body)
    ensures Inv(Link(s, id, body))
  {
    hide Lists, Closed, TriColor, ChildrenLive;
    var s' := Link(s, id, body);
    LinkLists(s, id, body);
    NewObjectClosed(s, s', id, body);
    BoundsOf(s');
    if s.phase == Propagate {
      NewObjectTriColor(s, s', id, body);
    } else if s.phase == SweepString || s.phase == Sweep {
      NewObjectSwept(s, s', id);
    }
  }

  lemma BoundsOf(s: State)
    requires Lists(s)
    ensures s.sweepGc <= |s.rootGc|
  {
  }

  lemma NewObjectSwept(s: State, s': State, id: Id)
    requires Lists(s) && Lists(s') && SweptPart(s) && id !in s.heap
    requires s'.heap.Keys == s.heap.Keys + {id} && s'.heap[id].color == s.white
    requires forall x :: x in s.heap ==> s'.heap[x] == s.heap[x]
    requires s'.phase == s.phase && s'.white == s.white && s'.main == s.main && s'.sweepStrGc == s.sweepStrGc && s'.strt == s.strt
    requires forall x :: x in s'.openUpval ==> x == id || x in s.openUpval
    requires s.phase == SweepString ==> s'.sweepGc == 0
    requires forall x :: x in s'.rootGc[..s'.sweepGc] ==> x == id || x in s.rootGc[..s.sweepGc]
    ensures SweptPart(s')
  {
    hide StringsOk, OpenOk, RootListOk;
    MainIsOld(s);
    forall i | 0 <= i < |s'.strt| && (s'.phase == SweepString ==> i < s'.sweepStrGc)
      ensures ListCurrent(s'.heap, s'.white, s'.strt[i])
    {
      assert ListCurrent(s.heap, s.white, s.strt[i]);
    }
  }

  lemma MainIsOld(s: State)
    requires Lists(s)
    ensures s.main in s.heap
  {
  }

  // ------------------------------------------------------------- the stack and the roots

  /** The stack changes, or the global table of the thread: neither has a barrier, because the
      thread is never black between steps. */
  lemma RootsChangeKeepsInv(s: State, r: Roots)
    requires Inv(s)
    requires ValueLive(s, r.globals) && forall v :: v in r.stack ==> ValueLive(s, v)
    requires forall x :: x in s.openUpval && HasLevel(s.heap, x) ==> s.heap[x].body.level < |r.stack|
    ensures Inv(s.(roots := r))
  {
    hide StringsOk, RootListOk, Interned;
    var s' := s.(roots := r);
    forall x, c | Live(s', x) && Child(r, s'.heap[x].body, c)
      ensures Live(s', c)
    {
      var b := s.heap[x].body;
      if b.OpenUpval() || b.Thread? {
        assert b.OpenUpval() ==> x in s.openUpval && HasLevel(s.heap, x);
        assert Ref(c) == r.globals || Ref(c) in r.stack;
        assert ValueLive(s, Ref(c));
      } else {
        assert Slots(r, b) == Slots(s.roots, b);
        assert Live(s, x) && Child(s.roots, b, c);
        assert Live(s, c);
      }
    }
    assert Closed(s') by {
      forall v | v in s'.mt
        ensures ValueLive(s', v)
      {
        assert ValueLive(s, v);
      }
      assert ValueLive(s, s.registry);
    }
    if s.phase == Propagate {
      forall x | x in s.heap
        ensures ColorOk(s', x)
      {
        RootsChangeColorOk(s, r, x);
      }
    }
  }

  lemma RootsChangeColorOk(s: State, r: Roots, x: Id)
    requires x in s.heap && ColorOk(s, x)
    ensures ColorOk(s.(roots := r), x)
  {
    var b := s.heap[x].body;
    if s.heap[x].color == Black {
      assert Slots(r, b) == Slots(s.roots, b);
      forall c | Child(r, b, c) && c in s.heap
        ensures Marked(s.heap, c)
      {
        assert Child(s.roots, b, c);
      }
    }
  }

  /** The metatable of a basic type changes: `atomic` marks those again. */
  lemma BasicMetatableKeepsInv(s: State, i: nat, v: Value)
    requires Inv(s) && i < |s.mt| && ValueLive(s, v)
    ensures Inv(s.(mt := s.mt[i := v]))
  {
    hide StringsOk, RootListOk, OpenOk;
    var s' := s.(mt := s.mt[i := v]);
    forall x, c | Live(s', x) && Child(s'.roots, s'.heap[x].body, c)
      ensures Live(s', c)
    {
      assert Live(s, x) && Live(s, c);
    }
    assert Closed(s') by {
      forall w | w in s'.mt
        ensures ValueLive(s', w)
      {
        assert w == v || w in s.mt;
        assert w != v ==> ValueLive(s, w);
      }
      assert ValueLive(s, s.registry);
    }
    if s.phase == Propagate {
      forall x | x in s.heap
        ensures ColorOk(s', x)
      {
        assert ColorOk(s, x);
      }
    }
  }

  // ------------------------------------------------------------- writes and their barriers

  /** `luaC_barrier` and `luaC_objbarrier`: for everything but tables. */
  function Barrier(s: State, o: Id, v: Value): State
    requires o in s.heap
  {
    if v.Ref? && IsWhite(s.heap, v.id) && s.heap[o].color == Black then
      if s.phase == Propagate then WithMarking(s, MarkValue(s.M(), s.roots, v))
      else s.(heap := Recolor(s.heap, o, s.white))
    else s
  }

  /** `luaC_barriert` and `luaC_objbarriert`: a black table goes back to gray. */
  function BarrierBack(s: State, t: Id, v: Value): State
    requires t in s.heap
  {
    if v.Ref? && IsWhite(s.heap, v.id) && s.heap[t].color == Black then
      s.(heap := Recolor(s.heap, t, Gray), grayAgain := [t] + s.grayAgain)
    else s
  }

  /** Another body of the same kind, for the kinds a program can write to. */
  ghost predicate SameSort(b: Body, b': Body) {
    || (b.Udata? && b'.Udata?)
    || (b.Upval? && b'.Upval? && !b.open && !b'.open)
    || (b.Closure? && b'.Closure?)
    || (b.Table? && b'.Table?)
    || (b.Proto? && b'.Proto?)
  }

  function SetBody(s: State, o: Id, b: Body): State
    requires o in s.heap
  {
    s.(heap := s.heap[o := s.heap[o].(body := b)])
  }

  lemma SetBodyLists(s: State, o: Id, b: Body)
    requires Lists(s) && o in s.heap && SameSort(s.heap[o].body, b)
    ensures Lists(SetBody(s, o, b))
  {
    hide Descending, Interned;
    var s' := SetBody(s, o, b);
    StringsFrame(s.heap, s'.heap, s.strt);
    DescendingFrame(s.heap, s'.heap, s.openUpval);
  }

  lemma SetBodyKeepsInv(s: State, o: Id, b: Body)
    requires Inv(s) && o in s.heap && SameSort(s.heap[o].body, b) && ChildrenLive(s, b)
    requires s.phase == Propagate && s.heap[o].color == Black ==> ChildrenMarked(s.heap, s.roots, b)
    ensures Inv(SetBody(s, o, b))
  {
    hide Lists, Descending;
    var s' := SetBody(s, o, b);
    SetBodyLists(s, o, b);
    BoundsOf(s');
    forall x, c | Live(s', x) && Child(s'.roots, s'.heap[x].body, c)
      ensures Live(s', c)
    {
      assert x != o ==> Live(s, x);
      assert Live(s, c);
    }
    assert Closed(s') by {
      forall v | v in s'.mt
        ensures ValueLive(s', v)
      {
        assert ValueLive(s, v);
      }
      assert ValueLive(s, s.registry);
    }
    if s.phase == Propagate {
      SetBodyTriColor(s, o, b);
    } else if s.phase == SweepString || s.phase == Sweep {
      forall i | 0 <= i < |s.strt| && (s.phase == SweepString ==> i < s.sweepStrGc)
        ensures ListCurrent(s'.heap, s.white, s.strt[i])
      {
        assert ListCurrent(s.heap, s.white, s.strt[i]);
      }
    }
  }

  lemma SetBodyTriColor(s: State, o: Id, b: Body)
    requires TriColor(s) && o in s.heap && SameSort(s.heap[o].body, b)
    requires s.heap[o].color == Black ==> ChildrenMarked(s.heap, s.roots, b)
    ensures TriColor(SetBody(s, o, b))
  {
    var s' := SetBody(s, o, b);
    forall x | x in s'.heap
      ensures ColorOk(s', x)
    {
      assert ColorOk(s, x);
    }
  }

  lemma SameShapeKinds(h: Heap, h': Heap)
    ensures SameShape(h, h') ==> SameKinds(h, h')
  {
  }

  /** The forward barrier: while marking, the value is marked, so that the owner may stay black;
      while sweeping, the owner goes back to white, so that no more barriers are needed. */
  lemma BarrierKeepsInv(s: State, o: Id, v: Value)
    requires Inv(s) && Live(s, o) && ValueLive(s, v)
    ensures Inv(Barrier(s, o, v))
    ensures s.phase == Propagate && Barrier(s, o, v).heap[o].color == Black && v.Ref? ==> Marked(Barrier(s, o, v).heap, v.id)
    ensures SameShape(s.heap, Barrier(s, o, v).heap)
    ensures forall x :: Live(s, x) ==> Live(Barrier(s, o, v), x)
  {
    hide Lists, MarkValue, Closed;
    var s' := Barrier(s, o, v);
    BoundsOf(s);
    SameShapeKinds(s.heap, s'.heap);
    if v.Ref? && IsWhite(s.heap, v.id) && s.heap[o].color == Black {
      if s.phase == Propagate {
        MarkValueMarks(s.M(), s.roots, v);
        SameShapeMarks(s.M(), s'.M(), s.roots);
        MarksKeepTriColor(s, s'.M(), {});
        TriColorNoneCondemned(s);
        TriColorNoneCondemned(s');
        StayClosed(s, s');
        SameKindsLists(s, s');
      } else {
        SameKindsLists(s, s');
        WhitenKeeps(s, o);
      }
    }
  }

  lemma WhitenKeeps(s: State, o: Id)
    requires Inv(s) && Live(s, o) && s.heap[o].color == Black && s.phase != Propagate
    ensures var s' := s.(heap := Recolor(s.heap, o, s.white));
            Closed(s') && UpvalsNotBlack(s'.heap) && PhaseInv(s') && forall x :: Live(s', x) <==> Live(s, x)
  {
    hide StringsOk, RootListOk, OpenOk;
    var s' := s.(heap := Recolor(s.heap, o, s.white));
    forall x
      ensures Live(s', x) <==> Live(s, x)
    {
    }
    SameLiveClosed(s, s');
    forall i | 0 <= i < |s.strt| && (s.phase == SweepString ==> i < s.sweepStrGc)
      ensures s.phase == SweepString || s.phase == Sweep ==> ListCurrent(s'.heap, s.white, s.strt[i])
    {
      if s.phase == SweepString || s.phase == Sweep {
        assert ListCurrent(s.heap, s.white, s.strt[i]);
      }
    }
  }

  /** The backward barrier: the table waits for a second traversal in `atomic`. */
  lemma BarrierBackKeepsInv(s: State, t: Id, v: Value)
    requires Inv(s) && Live(s, t) && s.heap[t].body.Table? && ValueLive(s, v)
    ensures Inv(BarrierBack(s, t, v))
    ensures BarrierBack(s, t, v).heap[t].color == Black && v.Ref? ==> Marked(BarrierBack(s, t, v).heap, v.id)
    ensures SameShape(s.heap, BarrierBack(s, t, v).heap)
    ensures forall x :: Live(s, x) ==> Live(BarrierBack(s, t, v), x)
  {
    hide Lists, Closed;
    var s' := BarrierBack(s, t, v);
    BoundsOf(s);
    SameShapeKinds(s.heap, s'.heap);
    if v.Ref? && IsWhite(s.heap, v.id) && s.heap[t].color == Black {
      SameKindsLists(s, s');
      if s.phase == Propagate {
        RegrayTable(s, t);
        TriColorNoneCondemned(s);
        TriColorNoneCondemned(s');
        StayClosed(s, s');
      } else {
        GrayKeeps(s, t);
      }
    }
  }

  lemma RegrayTable(s: State, t: Id)
    requires TriColor(s) && t in s.heap && s.heap[t].body.Table? && s.heap[t].color == Black
    ensures TriColor(s.(heap := Recolor(s.heap, t, Gray), grayAgain := [t] + s.grayAgain))
  {
    var s' := s.(heap := Recolor(s.heap, t, Gray), grayAgain := [t] + s.grayAgain);
    forall x | x in s'.heap
      ensures ColorOk(s', x)
    {
      assert ColorOk(s, x);
    }
  }

  lemma GrayKeeps(s: State, t: Id)
    requires Inv(s) && Live(s, t) && s.heap[t].color == Black && s.phase != Propagate
    ensures var s' := s.(heap := Recolor(s.heap, t, Gray), grayAgain := [t] + s.grayAgain);
            Closed(s') && UpvalsNotBlack(s'.heap) && PhaseInv(s') && forall x :: Live(s', x) <==> Live(s, x)
  {
    hide StringsOk, RootListOk, OpenOk;
    var s' := s.(heap := Recolor(s.heap, t, Gray), grayAgain := [t] + s.grayAgain);
    forall x
      ensures Live(s', x) <==> Live(s, x)
    {
    }
    SameLiveClosed(s, s');
    forall i | 0 <= i < |s.strt| && (s.phase == SweepString ==> i < s.sweepStrGc)
      ensures s.phase == SweepString || s.phase == Sweep ==> ListCurrent(s'.heap, s.white, s.strt[i])
    {
      if s.phase == SweepString || s.phase == Sweep {
        assert ListCurrent(s.heap, s.white, s.strt[i]);
      }
    }
  }
}
