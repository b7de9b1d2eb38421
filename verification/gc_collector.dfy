/**
 The collector as it runs: one object whose fields are those of `global_State` and of the
 main thread, and whose methods change them in place. Every method is proved to do what the
 step function of the same name says.
 */
module GcCollector {
  import opened GcHeap
  import opened GcState
  import opened GcInvariant
  import opened GcMarkPhase
  import opened GcSweepPhase
  import opened GcCycle
  import opened GcCollection
  import opened GcMutator
  import opened GcUpvalues

  class Collector {
    var heap: Heap
    var white: White
    var phase: Phase
    var gray: seq<Id>
    var grayAgain: seq<Id>
    var rootGc: seq<Id>
    var sweepGc: nat
    var strt: seq<seq<Id>>
    var sweepStrGc: nat
    var main: Id
    var registry: Value
    var mt: seq<Value>
    var roots: Roots
    var openUpval: seq<Id>
    var uvHead: seq<Id>

    ghost function S(): State
      reads this
    {
      State(heap, white, phase, gray, grayAgain, rootGc, sweepGc, strt, sweepStrGc, main, registry, mt, roots,
            openUpval, uvHead)
    }

    // ----------------------------------------------------------- marking

    method MarkValue(v: Value)
      modifies this`heap, this`gray
      ensures S() == WithMarking(old(S()), GcHeap.MarkValue(old(S().M()), roots, v))
      decreases Whites(heap), 2, 0
    {
      if v.Ref? && IsWhite(heap, v.id) {
        ReallyMark(v.id);
      }
    }

    /** `reallymarkobject` */
    method ReallyMark(o: Id)
      requires IsWhite(heap, o)
      modifies this`heap, this`gray
      ensures S() == WithMarking(old(S()), GcHeap.ReallyMark(old(S().M()), roots, o))
      decreases Whites(heap), 1, 0
    {
      ghost var h0 := heap;
      heap := Recolor(heap, o, Gray);
      assert o in Whites(h0) && o !in Whites(heap);
      match heap[o].body {
        case Str(_) =>
        case Udata(mt, env) =>
          heap := Recolor(heap, o, Black);
          assert heap == Recolor(h0, o, Black);
          assert Whites(heap) < Whites(h0);
          MarkAll([mt, env]);
        case Upval(open, _, _) =>
          MarkAll(Slots(roots, heap[o].body));
          if !open && o in heap {
            heap := Recolor(heap, o, Black);
          }
        case _ =>
          gray := [o] + gray;
      }
    }

    /** The loops of the traversals: mark every value of a run. */
    method MarkAll(vs: seq<Value>)
      modifies this`heap, this`gray
      ensures S() == WithMarking(old(S()), GcHeap.MarkAll(old(S().M()), roots, vs))
      ensures Whites(heap) <= Whites(old(heap))
      decreases Whites(heap), 3, |vs|
    {
      var i := 0;
      while i < |vs|
        invariant i <= |vs|
        invariant Whites(heap) <= Whites(old(heap))
        invariant GcHeap.MarkAll(old(S().M()), roots, vs) == GcHeap.MarkAll(S().M(), roots, vs[i..])
      {
        MarkValue(vs[i]);
        assert vs[i..][1..] == vs[i + 1..];
        i := i + 1;
      }
    }

    /** `removeentry` for the entries of a table that have no value. */
    static method RemoveEntries(node: seq<Node>) returns (r: seq<Node>)
      ensures r == TagDead(node)
    {
      r := [];
      var i := 0;
      while i < |node|
        invariant i <= |node|
        invariant r + TagDead(node[i..]) == TagDead(node)
      {
        var n := node[i];
        if n.val.Nil? && n.key.Ref? {
          n := n.(dead := true);
        }
        assert node[i..][1..] == node[i + 1..];
        r := r + [n];
        i := i + 1;
      }
    }

    /** `propagatemark` */
    method PropagateMark()
      requires gray != [] && gray[0] in heap
      modifies this`heap, this`gray, this`grayAgain
      ensures S() == GcState.PropagateMark(old(S()))
    {
      var o := gray[0];
      gray := gray[1..];
      match heap[o].body {
        case Table(mt, arr, node) =>
          heap := Recolor(heap, o, Black);
          var kept := RemoveEntries(node);
          heap := heap[o := heap[o].(body := Table(mt, arr, kept))];
          assert heap == Blacken(old(heap), o);
        case Thread =>
          grayAgain := [o] + grayAgain;
          heap := Recolor(heap, o, Gray);
          assert heap == Blacken(old(heap), o);
        case _ =>
          heap := Recolor(heap, o, Black);
          assert heap == Blacken(old(heap), o);
      }
      MarkAll(Slots(roots, heap[o].body));
    }

    /** `propagateall` */
    method PropagateAll()
      requires GrayOk(S())
      modifies this`heap, this`gray, this`grayAgain
      ensures S() == GcState.PropagateAll(old(S()))
    {
      while gray != []
        invariant GrayOk(S()) && GcState.PropagateAll(S()) == GcState.PropagateAll(old(S()))
        decreases Whites(heap), |gray|
      {
        assert gray[0] in gray;
        PropagateShrinks(S());
        PropagateMark();
      }
    }

    /** `markroot` */
    method MarkRoot()
      modifies this`heap, this`gray, this`grayAgain, this`phase
      ensures S() == GcState.MarkRoot(old(S()))
    {
      gray := [];
      grayAgain := [];
      MarkAll([Ref(main), roots.globals, registry] + mt);
      phase := Propagate;
    }

    /** `remarkupvals` */
    method RemarkUpvals()
      modifies this`heap, this`gray
      ensures S() == WithMarking(old(S()), GcState.RemarkUpvals(old(S().M()), roots, uvHead))
    {
      var i := 0;
      while i < |uvHead|
        invariant i <= |uvHead|
        invariant GcState.RemarkUpvals(old(S().M()), roots, uvHead) == GcState.RemarkUpvals(S().M(), roots, uvHead[i..])
      {
        if uvHead[i] in heap && heap[uvHead[i]].color == Gray {
          MarkAll(Slots(roots, heap[uvHead[i]].body));
        }
        assert uvHead[i..][1..] == uvHead[i + 1..];
        i := i + 1;
      }
    }

    /** `atomic` */
    method Atomic()
      requires MarksOk(S())
      modifies this`heap, this`gray, this`grayAgain, this`white, this`sweepStrGc, this`sweepGc, this`phase
      ensures S() == GcState.Atomic(old(S()))
    {
      hide GcHeap.MarkAll, GcState.RemarkUpvals, GcState.PropagateAll, Marks, GrayOk, GrayAgainOk;
      ghost var s := S();
      RemarkUpvals();
      assert S() == WithMarking(s, S().M());
      RemarkMarks(s.M(), s.roots, s.uvHead);
      MarksKeepGrayOk(s, S().M());
      PropagateAll();
      assert S() == RemarkPass(s);
      ghost var s1 := S();
      MarkAll([Ref(main)] + mt);
      MarkAllMarks(s1.M(), s1.roots, [Ref(main)] + mt);
      MarksKeepGrayOk(s1, S().M());
      PropagateAll();
      assert S() == RootPass(s1);
      RegrayedOk(S());
      gray := grayAgain;
      grayAgain := [];
      PropagateAll();
      assert S() == FinishMarking(s);
      white := Other(white);
      sweepStrGc, sweepGc := 0, 0;
      phase := SweepString;
    }

    // ----------------------------------------------------------- sweeping

    /** `sweepwholelist` on a list that is not `rootgc`: what is left of the list. */
    method SweepWhole(list: seq<Id>) returns (rest: seq<Id>)
      modifies this`heap
      ensures heap == GcState.SweepWhole(old(heap), white, list).heap
      ensures rest == GcState.SweepWhole(old(heap), white, list).list
    {
      rest := [];
      var i := 0;
      while i < |list|
        invariant i <= |list|
        invariant GcState.SweepWhole(heap, white, list[i..]).heap == GcState.SweepWhole(old(heap), white, list).heap
        invariant rest + GcState.SweepWhole(heap, white, list[i..]).list == GcState.SweepWhole(old(heap), white, list).list
      {
        var o := list[i];
        assert list[i..][1..] == list[i + 1..];
        if o in heap {
          if Garbage(heap, white, o) {
            heap := heap - {o};
          } else {
            heap := Recolor(heap, o, white);
            rest := rest + [o];
          }
        }
        i := i + 1;
      }
    }

    /** The open upvalues of the thread. Freeing one unlinks it from the ring as well. */
    method SweepOpen()
      modifies this`heap, this`openUpval, this`uvHead
      ensures S() == GcState.SweepOpen(old(S()))
    {
      openUpval := SweepWhole(openUpval);
      var ring := [];
      var i := 0;
      while i < |uvHead|
        invariant i <= |uvHead|
        invariant ring + Keep(uvHead[i..], heap) == Keep(uvHead, heap)
      {
        assert uvHead[i..][1..] == uvHead[i + 1..];
        if uvHead[i] in heap {
          ring := ring + [uvHead[i]];
        }
        i := i + 1;
      }
      uvHead := ring;
    }

    /** One turn of the loop of `sweeplist` */
    method SweepNext()
      requires sweepGc < |rootGc| && rootGc[sweepGc] in heap
      modifies this`heap, this`openUpval, this`uvHead, this`rootGc, this`sweepGc
      ensures S() == GcState.SweepNext(old(S()))
    {
      hide GcState.SweepOpen, Garbage;
      var o := rootGc[sweepGc];
      if heap[o].body.Thread? {
        SweepOpen();
      }
      if o !in heap || Garbage(heap, white, o) {
        heap := heap - {o};
        rootGc := RemoveAt(rootGc, sweepGc);
      } else {
        heap := Recolor(heap, o, white);
        sweepGc := sweepGc + 1;
      }
    }

    /** `sweeplist` on `rootgc`, at most `count` objects from where the sweep stopped. */
    method SweepList(count: nat)
      requires Inv(S()) && phase == Sweep
      modifies this`heap, this`openUpval, this`uvHead, this`rootGc, this`sweepGc
      ensures S() == SweepObjs(old(S()), count)
    {
      hide Inv, GcState.SweepNext, OnlyGarbageGone;
      var left := count;
      while left > 0 && sweepGc < |rootGc|
        invariant Inv(S()) && phase == Sweep
        invariant SweepObjs(S(), left) == SweepObjs(old(S()), count)
        decreases left
      {
        NextIsThere(S());
        SweepNextKeepsInv(S());
        SweepNext();
        left := left - 1;
      }
    }

    /** `luaS_resize` */
    method ResizeStrings(size: nat)
      modifies this`strt
      ensures S() == GcState.ResizeStrings(old(S()), size)
    {
      if phase != SweepString {
        var buckets := EmptyBuckets(size);
        var i := 0;
        while i < |strt|
          invariant i <= |strt|
          invariant |buckets| == size
          invariant MoveBuckets(heap, strt[i..], buckets) == MoveBuckets(heap, strt, EmptyBuckets(size))
        {
          var j := 0;
          ghost var b0 := buckets;
          while j < |strt[i]| && size > 0
            invariant j <= |strt[i]|
            invariant |buckets| == size
            invariant MoveBucket(heap, strt[i][j..], buckets) == MoveBucket(heap, strt[i], b0)
          {
            assert strt[i][j..][1..] == strt[i][j + 1..];
            buckets := Chain(heap, buckets, strt[i][j]);
            j := j + 1;
          }
          assert buckets == MoveBucket(heap, strt[i], b0);
          assert strt[i..][1..] == strt[i + 1..];
          i := i + 1;
        }
        strt := buckets;
      }
    }

    /** `singlestep` */
    method SingleStep()
      requires Inv(S())
      modifies this
      ensures S() == GcCycle.SingleStep(old(S())) && Inv(S())
    {
      hide Inv, StepOk, GcState.MarkRoot, GcState.PropagateMark, GcState.SweepWhole, GcState.Atomic, SweepObjs,
           StringCount, GcState.ResizeStrings, MarksOk;
      SingleStepKeepsInv(S());
      match phase {
        case Pause =>
          MarkRoot();
        case Propagate =>
          GrayIsThere(S());
          if gray != [] {
            PropagateMark();
          } else {
            Atomic();
          }
        case SweepString =>
          BucketIsThere(S());
          var rest := SweepWhole(strt[sweepStrGc]);
          strt := strt[sweepStrGc := rest];
          sweepStrGc := sweepStrGc + 1;
          if sweepStrGc >= |strt| {
            phase := Sweep;
          }
        case Sweep =>
          SweepList(GCSWEEPMAX);
          if sweepGc >= |rootGc| {
            if StringCount(strt) < |strt| / 4 && |strt| > MINSTRTABSIZE * 2 {
              ResizeStrings(|strt| / 2);
            }
            phase := Finalize;
          }
        case Finalize =>
          phase := Pause;
      }
    }

    /** `luaC_fullgc` */
    method FullGc()
      requires Inv(S())
      modifies this
      ensures S() == GcCollection.FullGc(old(S())) && Inv(S())
    {
      hide Inv, GcState.MarkRoot, GcCollection.RunTo, SameKinds;
      AbandonKeepsInv(S());
      if phase == Pause || phase == Propagate {
        sweepStrGc, sweepGc := 0, 0;
        gray, grayAgain := [], [];
        phase := SweepString;
      }
      assert S() == Abandon(old(S()));
      RunTo(Finalize);
      MarkRootKeepsInv(S());
      MarkRoot();
      RunTo(Pause);
    }

    /** The loops of `luaC_fullgc` */
    method RunTo(stop: Phase)
      requires Inv(S()) && (stop == Pause || (stop == Finalize && Rank(phase) >= 1))
      modifies this
      ensures S() == GcCollection.RunTo(old(S()), stop) && Inv(S()) && phase == stop
    {
      hide Inv, StepOk, GcCycle.SingleStep, ToMark, ToVisit;
      while phase != stop
        invariant Inv(S()) && (stop == Pause || Rank(phase) >= 1)
        invariant GcCollection.RunTo(S(), stop) == GcCollection.RunTo(old(S()), stop)
        decreases Rank(phase), ToMark(S()), ToVisit(S())
      {
        VisitsLeft(S());
        StepMakesProgress(S());
        StaysBefore(S(), stop);
        SingleStep();
      }
    }

    // ----------------------------------------------------------- the program's side

    /** `luaC_link` and the linking in `luaS_newudata` */
    method Link(id: Id, body: Body)
      modifies this`heap, this`rootGc, this`sweepGc
      ensures S() == GcMutator.Link(old(S()), id, body)
    {
      var i := 0;
      if body.Udata? && main in rootGc {
        i := IndexOf(rootGc, main) + 1;
      }
      heap := heap[id := Obj(white, false, body)];
      rootGc := InsertAt(rootGc, i, id);
      if i < sweepGc {
        sweepGc := sweepGc + 1;
      }
    }

    /** `luaC_barrier`, with `luaC_barrierf` */
    method Barrier(o: Id, v: Value)
      requires o in heap
      modifies this`heap, this`gray
      ensures S() == GcMutator.Barrier(old(S()), o, v)
    {
      if v.Ref? && IsWhite(heap, v.id) && heap[o].color == Black {
        if phase == Propagate {
          MarkValue(v);
        } else {
          heap := Recolor(heap, o, white);
        }
      }
    }

    /** `luaC_barriert`, with `luaC_barrierback` */
    method BarrierBack(t: Id, v: Value)
      requires t in heap
      modifies this`heap, this`grayAgain
      ensures S() == GcMutator.BarrierBack(old(S()), t, v)
    {
      if v.Ref? && IsWhite(heap, v.id) && heap[t].color == Black {
        heap := Recolor(heap, t, Gray);
        grayAgain := [t] + grayAgain;
      }
    }

    /** `luaF_findupval` */
    method FindUpval(level: nat, id: Id) returns (u: Id)
      modifies this`heap, this`openUpval, this`uvHead
      ensures (S(), u) == GcUpvalues.FindUpval(old(S()), level, id)
    {
      var i := 0;
      while i < |openUpval| && HasLevel(heap, openUpval[i]) && heap[openUpval[i]].body.level > level
        invariant i <= |openUpval|
        invariant i + FindOpen(heap, openUpval[i..], level) == FindOpen(heap, openUpval, level)
      {
        assert openUpval[i..][1..] == openUpval[i + 1..];
        i := i + 1;
      }
      if i < |openUpval| && HasLevel(heap, openUpval[i]) && heap[openUpval[i]].body.level == level {
        u := openUpval[i];
        if heap[u].color == Other(white) {
          heap := Recolor(heap, u, white);
        }
      } else {
        u := id;
        heap := heap[id := Obj(white, false, Upval(true, level, Nil))];
        openUpval := InsertAt(openUpval, i, id);
        uvHead := [id] + uvHead;
      }
    }

    /** `luaF_close` */
    method Close(level: nat)
      requires Inv(S())
      modifies this
      ensures S() == GcUpvalues.Close(old(S()), level) && Inv(S())
    {
      while openUpval != [] && HasLevel(heap, openUpval[0]) && heap[openUpval[0]].body.level >= level
        invariant Inv(S()) && GcUpvalues.Close(S(), level) == GcUpvalues.Close(old(S()), level)
        decreases |openUpval|
      {
        CloseOneKeepsInv(S());
        CloseOneShortens(S());
        CloseTop();
      }
    }

    /** One turn of the loop of `luaF_close` */
    method CloseTop()
      requires openUpval != [] && HasLevel(heap, openUpval[0])
      modifies this
      ensures S() == CloseOne(old(S()))
    {
      hide GcUpvalues.LinkUpval, Unlink, Linked, GcMutator.Barrier;
      ghost var s := S();
      var x := openUpval[0];
      var o := heap[x];
      openUpval := openUpval[1..];
      uvHead := Unlink(uvHead, x);
      if o.color == Other(white) {
        heap := heap - {x};
      } else {
        var v := SlotValue(roots, o.body);
        heap := heap[x := o.(body := Upval(false, o.body.level, v))];
        CloseOneLinks(s, S());
        LinkUpval(x, v);
      }
    }

    /** `luaC_linkupval` */
    method LinkUpval(x: Id, v: Value)
      requires x in heap
      modifies this`heap, this`gray, this`rootGc, this`sweepGc
      ensures S() == GcUpvalues.LinkUpval(old(S()), x, v)
    {
      rootGc := InsertAt(rootGc, 0, x);
      sweepGc := Shift(0, sweepGc);
      if heap[x].color == Gray {
        if phase == Propagate {
          heap := Recolor(heap, x, Black);
          Barrier(x, v);
        } else {
          heap := Recolor(heap, x, white);
        }
      }
    }

    /** `luaS_newlstr` */
    method NewString(text: Text, id: Id) returns (u: Id)
      requires |strt| > 0
      modifies this`heap, this`strt
      ensures (S(), u) == GcUpvalues.NewString(old(S()), text, id)
    {
      var b := text.hash % |strt|;
      var list := strt[b];
      var i := 0;
      while i < |list| && !(list[i] in heap && heap[list[i]].body.Str? && heap[list[i]].body.text == text)
        invariant i <= |list|
        invariant i + FindText(heap, list[i..], text) == FindText(heap, list, text)
      {
        assert list[i..][1..] == list[i + 1..];
        i := i + 1;
      }
      if i < |list| {
        u := list[i];
        if heap[u].color == Other(white) {
          heap := Recolor(heap, u, white);
        }
      } else {
        u := id;
        heap := heap[id := Obj(white, false, Str(text))];
        strt := strt[b := [id] + strt[b]];
        if StringCount(strt) > |strt| && |strt| <= MAX_INT / 2 {
          ResizeStrings(2 * |strt|);
        }
      }
    }
  }
}
