/**
 The collector's state and its steps as functions (lgc.c): marking the root set,
 propagating one gray object, the atomic step, and the two sweeps.
 */
module GcState {
  import opened GcHeap

  /** `gcstate`. */
  datatype Phase = Pause | Propagate | SweepString | Sweep | Finalize

  type White = c: Color | c.IsWhite() witness White0

  const GCSWEEPMAX := 40
  const MINSTRTABSIZE := 32

  datatype State = State(
    heap: Heap,
    white: White,
    phase: Phase,
    gray: seq<Id>,
    grayAgain: seq<Id>,
    rootGc: seq<Id>,        // every object but strings and open upvalues
    sweepGc: nat,           // index in rootGc of the next object to sweep
    strt: seq<seq<Id>>,     // the string table
    sweepStrGc: nat,        // next bucket of the string table to sweep
    main: Id,
    registry: Value,
    mt: seq<Value>,         // metatables of the basic types
    roots: Roots,
    openUpval: seq<Id>,     // open upvalues, highest stack level first
    uvHead: seq<Id>)        // the ring of all open upvalues, newest first
  {
    function M(): Marking {
      Marking(heap, gray)
    }
  }

  // ------------------------------------------------------------- marking

  /** `removeentry` on every entry without a value. */
  function TagDead(node: seq<Node>): (r: seq<Node>)
    ensures |r| == |node|
  {
    if node == [] then []
    else [if node[0].val.Nil? && node[0].key.Ref? then node[0].(dead := true) else node[0]] + TagDead(node[1..])
  }

  predicate GrayOk(s: State) {
    forall x :: x in s.gray ==> Marked(s.heap, x) && s.heap[x].body.Traversable()
  }

  /** The body with which `propagatemark` leaves an object: a table loses its dead keys. */
  function Traversed(b: Body): Body {
    if b.Table? then b.(node := TagDead(b.node)) else b
  }

  /** The heap in which the children of the gray object `o` get marked. */
  function Blacken(h: Heap, o: Id): Heap
    requires o in h
  {
    h[o := Obj(if h[o].body.Thread? then Gray else Black, h[o].fixed, Traversed(h[o].body))]
  }

  /** `propagatemark`. The thread goes to `grayagain` and stays gray. */
  function PropagateMark(s: State): State
    requires s.gray != [] && s.gray[0] in s.heap
  {
    var o := s.gray[0];
    var h := Blacken(s.heap, o);
    var m := MarkAll(Marking(h, s.gray[1..]), s.roots, Slots(s.roots, h[o].body));
    s.(heap := m.heap, gray := m.gray,
       grayAgain := if h[o].body.Thread? then [o] + s.grayAgain else s.grayAgain)
  }

  lemma PropagateShrinks(s: State)
    requires s.gray != [] && GrayOk(s) && s.gray[0] in s.heap
    ensures var s' := PropagateMark(s);
            GrayOk(s') && Whites(s'.heap) <= Whites(s.heap) &&
            (Whites(s'.heap) == Whites(s.heap) ==> |s'.gray| < |s.gray|)
  {
    hide MarkAll, Slots, Marks, TagDead;
    var o := s.gray[0];
    var h := Blacken(s.heap, o);
    var m0 := Marking(h, s.gray[1..]);
    var vs := Slots(s.roots, h[o].body);
    assert o in s.gray && Whites(h) == Whites(s.heap);
    MarkAllMarks(m0, s.roots, vs);
    MarksShrink(m0, MarkAll(m0, s.roots, vs), s.roots);
    SameShapeMarks(m0, MarkAll(m0, s.roots, vs), s.roots);
  }

  /** `propagateall`. */
  function PropagateAll(s: State): State
    requires GrayOk(s)
    decreases Whites(s.heap), |s.gray|
  {
    if s.gray == [] then s
    else
      assert s.gray[0] in s.gray;
      PropagateShrinks(s);
      PropagateAll(PropagateMark(s))
  }

  /** Propagation changes the heap and the two gray lists only. */
  lemma {:induction false} PropagateAllFrame(s: State)
    requires GrayOk(s)
    ensures var s' := PropagateAll(s);
            s' == s.(heap := s'.heap, gray := s'.gray, grayAgain := s'.grayAgain)
    decreases Whites(s.heap), |s.gray|
  {
    if s.gray != [] {
      assert s.gray[0] in s.gray;
      PropagateShrinks(s);
      PropagateAllFrame(PropagateMark(s));
    }
  }

  function WithMarking(s: State, m: Marking): State {
    s.(heap := m.heap, gray := m.gray)
  }

  /** `markroot`. */
  function MarkRoot(s: State): State {
    var m := MarkAll(Marking(s.heap, []), s.roots, [Ref(s.main), s.roots.globals, s.registry] + s.mt);
    WithMarking(s, m).(grayAgain := [], phase := Propagate)
  }

  /** `remarkupvals`. */
  function RemarkUpvals(m: Marking, r: Roots, uvs: seq<Id>): Marking
    decreases |uvs|
  {
    if uvs == [] then m
    else if uvs[0] in m.heap && m.heap[uvs[0]].color == Gray then
      RemarkUpvals(MarkAll(m, r, Slots(r, m.heap[uvs[0]].body)), r, uvs[1..])
    else RemarkUpvals(m, r, uvs[1..])
  }

  /** Marked traversable objects wait on both gray lists. */
  predicate GrayAgainOk(s: State) {
    forall x :: x in s.grayAgain ==> Marked(s.heap, x) && s.heap[x].body.Traversable()
  }

  lemma MarksKeepGrayOk(s: State, m: Marking)
    requires GrayOk(s) && GrayAgainOk(s) && Marks(s.M(), m, s.roots)
    ensures GrayOk(WithMarking(s, m)) && GrayAgainOk(WithMarking(s, m))
  {
    var pre: seq<Id> :| GrayPrefix(s.M(), m, pre);
  }

  lemma {:induction false} RemarkMarks(m: Marking, r: Roots, uvs: seq<Id>)
    ensures Marks(m, RemarkUpvals(m, r, uvs), r)
    decreases |uvs|
  {
    if uvs == [] {
      MarksRefl(m, r);
    } else if uvs[0] in m.heap && m.heap[uvs[0]].color == Gray {
      var m1 := MarkAll(m, r, Slots(r, m.heap[uvs[0]].body));
      MarkAllMarks(m, r, Slots(r, m.heap[uvs[0]].body));
      RemarkMarks(m1, r, uvs[1..]);
      MarksTrans(m, m1, RemarkUpvals(m, r, uvs), r);
    } else {
      RemarkMarks(m, r, uvs[1..]);
    }
  }

  lemma {:induction false} PropagateAllKeepsGrayAgainOk(s: State)
    requires GrayOk(s) && GrayAgainOk(s)
    ensures PropagateAll(s).gray == [] && GrayAgainOk(PropagateAll(s))
    decreases Whites(s.heap), |s.gray|
  {
    hide MarkAll, Slots, ChildrenMarked, TagDead;
    if s.gray != [] {
      assert s.gray[0] in s.gray;
      PropagateShrinks(s);
      var h := Blacken(s.heap, s.gray[0]);
      MarkAllMarks(Marking(h, s.gray[1..]), s.roots, Slots(s.roots, h[s.gray[0]].body));
      PropagateAllKeepsGrayAgainOk(PropagateMark(s));
    }
  }

  predicate MarksOk(s: State) {
    GrayOk(s) && GrayAgainOk(s)
  }

  /** `atomic`, first pass: the gray open upvalues, and what the barriers left on `gray`. */
  function RemarkPass(s: State): (s': State)
    requires MarksOk(s)
    ensures MarksOk(s') && s' == s.(heap := s'.heap, gray := [], grayAgain := s'.grayAgain)
  {
    var m := RemarkUpvals(s.M(), s.roots, s.uvHead);
    RemarkMarks(s.M(), s.roots, s.uvHead);
    MarksKeepGrayOk(s, m);
    PropagateAllKeepsGrayAgainOk(WithMarking(s, m));
    PropagateAllFrame(WithMarking(s, m));
    PropagateAll(WithMarking(s, m))
  }

  /** Second pass: the running thread and the basic metatables (again). */
  function RootPass(s: State): (s': State)
    requires MarksOk(s)
    ensures MarksOk(s') && s' == s.(heap := s'.heap, gray := [], grayAgain := s'.grayAgain)
  {
    var m := MarkAll(s.M(), s.roots, [Ref(s.main)] + s.mt);
    MarkAllMarks(s.M(), s.roots, [Ref(s.main)] + s.mt);
    MarksKeepGrayOk(s, m);
    PropagateAllKeepsGrayAgainOk(WithMarking(s, m));
    PropagateAllFrame(WithMarking(s, m));
    PropagateAll(WithMarking(s, m))
  }

  function Regrayed(s: State): State {
    s.(gray := s.grayAgain, grayAgain := [])
  }

  lemma RegrayedOk(s: State)
    requires MarksOk(s)
    ensures MarksOk(Regrayed(s))
  {
  }

  /** Third pass: `grayagain`. */
  function AgainPass(s: State): (s': State)
    requires MarksOk(s)
    ensures MarksOk(s') && s' == s.(heap := s'.heap, gray := [], grayAgain := s'.grayAgain)
  {
    PropagateAllKeepsGrayAgainOk(Regrayed(s));
    PropagateAllFrame(Regrayed(s));
    PropagateAll(Regrayed(s))
  }

  function FinishMarking(s: State): (s': State)
    requires MarksOk(s)
    ensures MarksOk(s') && s' == s.(heap := s'.heap, gray := [], grayAgain := s'.grayAgain)
  {
    AgainPass(RootPass(RemarkPass(s)))
  }

  /** `atomic`: finish marking, then flip the current white and start sweeping. */
  function Atomic(s: State): State
    requires MarksOk(s)
  {
    FinishMarking(s).(white := Other(s.white), sweepStrGc := 0, sweepGc := 0, phase := SweepString)
  }

  // ------------------------------------------------------------- sweeping

  /** The test of `sweeplist`: white of the other kind, and not fixed. */
  predicate Garbage(h: Heap, w: White, x: Id) {
    x in h && h[x].color == Other(w) && !h[x].fixed
  }

  /** What one object becomes when it is swept. */
  function SweepOne(h: Heap, w: White, x: Id): Heap
    requires x in h
  {
    if Garbage(h, w, x) then h - {x} else Recolor(h, x, w)
  }

  datatype Swept = Swept(heap: Heap, list: seq<Id>)

  /** `sweepwholelist`, on a list without threads. */
  function SweepWhole(h: Heap, w: White, list: seq<Id>): Swept {
    if list == [] then Swept(h, [])
    else if list[0] !in h then SweepWhole(h, w, list[1..])
    else
      var rest := SweepWhole(SweepOne(h, w, list[0]), w, list[1..]);
      if Garbage(h, w, list[0]) then rest else Swept(rest.heap, [list[0]] + rest.list)
  }

  function Keep(ids: seq<Id>, h: Heap): seq<Id> {
    if ids == [] then []
    else (if ids[0] in h then [ids[0]] else []) + Keep(ids[1..], h)
  }

  /** The sweep of the open upvalues of the thread; a freed one also leaves the `uvhead` ring. */
  function SweepOpen(s: State): State {
    var w := SweepWhole(s.heap, s.white, s.openUpval);
    s.(heap := w.heap, openUpval := w.list, uvHead := Keep(s.uvHead, w.heap))
  }

  function RemoveAt(ids: seq<Id>, i: nat): seq<Id>
    requires i < |ids|
  {
    ids[..i] + ids[i + 1..]
  }

  /** One turn of the loop of `sweeplist` over `rootgc`. */
  function SweepNext(s: State): State
    requires s.sweepGc < |s.rootGc| && s.rootGc[s.sweepGc] in s.heap
  {
    var o := s.rootGc[s.sweepGc];
    var s1 := if s.heap[o].body.Thread? then SweepOpen(s) else s;
    if o !in s1.heap || Garbage(s1.heap, s.white, o) then
      s1.(heap := s1.heap - {o}, rootGc := RemoveAt(s.rootGc, s.sweepGc))
    else s1.(heap := Recolor(s1.heap, o, s.white), sweepGc := s.sweepGc + 1)
  }

  function StringCount(strt: seq<seq<Id>>): nat {
    if strt == [] then 0 else |strt[0]| + StringCount(strt[1..])
  }

  /** The bucket of a string in a table of `n` buckets (`lmod`; sizes are powers of two). */
  function Bucket(h: Heap, x: Id, n: nat): nat
    requires n > 0
    ensures Bucket(h, x, n) < n
  {
    if x in h && h[x].body.Str? then h[x].body.text.hash % n else 0
  }

  function EmptyBuckets(size: nat): (r: seq<seq<Id>>)
    ensures |r| == size && forall i :: 0 <= i < size ==> r[i] == []
  {
    seq(size, _ => [])
  }

  function Chain(h: Heap, buckets: seq<seq<Id>>, x: Id): (r: seq<seq<Id>>)
    requires |buckets| > 0
    ensures |r| == |buckets|
  {
    var i := Bucket(h, x, |buckets|);
    buckets[i := [x] + buckets[i]]
  }

  /** The inner loop of `luaS_resize`: the nodes of one list move to the new buckets. */
  function MoveBucket(h: Heap, list: seq<Id>, buckets: seq<seq<Id>>): (r: seq<seq<Id>>)
    ensures |r| == |buckets|
  {
    if list == [] || buckets == [] then buckets
    else MoveBucket(h, list[1..], Chain(h, buckets, list[0]))
  }

  function MoveBuckets(h: Heap, strt: seq<seq<Id>>, buckets: seq<seq<Id>>): (r: seq<seq<Id>>)
    ensures |r| == |buckets|
  {
    if strt == [] then buckets
    else MoveBuckets(h, strt[1..], MoveBucket(h, strt[0], buckets))
  }

  /** `luaS_resize`: nothing happens while the string table is being swept. */
  function ResizeStrings(s: State, size: nat): State {
    if s.phase == SweepString then s
    else s.(strt := MoveBuckets(s.heap, s.strt, EmptyBuckets(size)))
  }

  /** The string half of `checkSizes`. */
  function CheckSizes(s: State): State {
    if StringCount(s.strt) < |s.strt| / 4 && |s.strt| > MINSTRTABSIZE * 2
    then ResizeStrings(s, |s.strt| / 2) else s
  }
}
