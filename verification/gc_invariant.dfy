/**
 The invariant of the collector: which list holds which object, and in each phase what
 the colours promise. `Inv` holds before and after every step of the collector and of
 the program it serves.
 */
module GcInvariant {
  import opened GcHeap
  import opened GcState
  import opened Sequences

  // ------------------------------------------------------------- lists

  /** Only the main thread and strings are ever fixed. Every object sits in exactly one list: strings in the bucket of their hash, each text
      once; open upvalues on `openupval` in strictly descending stack order and on the
      `uvhead` ring; everything else, the fixed main thread included, on `rootgc`. */
  ghost predicate Lists(s: State) {
    && ThreadOk(s.heap, s.main)
    && RootListOk(s.heap, s.rootGc)
    && s.sweepGc <= |s.rootGc|
    && OpenOk(s.heap, s.openUpval, s.uvHead, |s.roots.stack|)
    && StringsOk(s.heap, s.strt)
  }

  ghost predicate ThreadOk(h: Heap, main: Id) {
    && main in h && h[main].fixed
    && (forall x :: x in h ==> (h[x].body.Thread? <==> x == main))
    && (forall x :: x in h && h[x].fixed ==> h[x].body.Thread? || h[x].body.Str?)
  }

  ghost predicate RootListOk(h: Heap, rootGc: seq<Id>) {
    && NoDup(rootGc)
    && (forall x :: x in rootGc <==> x in h && !h[x].body.Str? && !h[x].body.OpenUpval())
  }

  ghost predicate OpenOk(h: Heap, open: seq<Id>, ring: seq<Id>, top: nat) {
    && NoDup(open) && NoDup(ring)
    && (forall x :: x in open <==> x in h && h[x].body.OpenUpval())
    && (forall x :: x in ring <==> x in h && h[x].body.OpenUpval())
    && Descending(h, open)
    && (forall x :: x in open ==> h[x].body.level < top)
  }

  predicate HasLevel(h: Heap, x: Id) {
    x in h && h[x].body.Upval?
  }

  /** Strictly descending stack levels. */
  ghost predicate Descending(h: Heap, list: seq<Id>) {
    list != [] ==>
      && HasLevel(h, list[0])
      && (forall x :: x in list[1..] ==> HasLevel(h, x) && h[x].body.level < h[list[0]].body.level)
      && Descending(h, list[1..])
  }

  lemma {:induction false} DescendingFrame(h: Heap, h': Heap, list: seq<Id>)
    requires Descending(h, list)
    requires forall x :: x in list && x in h ==> x in h' && h'[x].body == h[x].body
    ensures Descending(h', list)
  {
    if list != [] {
      DescendingFrame(h, h', list[1..]);
    }
  }

  ghost predicate StringsOk(h: Heap, strt: seq<seq<Id>>) {
    && |strt| > 0
    && (forall i :: 0 <= i < |strt| ==> BucketOk(h, strt[i], i, |strt|))
    && (forall x {:trigger Bucket(h, x, |strt|)} :: IsStr(h, x) ==> x in strt[Bucket(h, x, |strt|)])
    && Interned(h)
  }

  ghost predicate IsStr(h: Heap, x: Id) {
    x in h && h[x].body.Str?
  }

  ghost function TextOf(h: Heap, x: Id): Text
    requires IsStr(h, x)
  {
    h[x].body.text
  }

  /** No two strings have the same text. */
  ghost predicate Interned(h: Heap) {
    forall x, y {:trigger TextOf(h, x), TextOf(h, y)} ::
      IsStr(h, x) && IsStr(h, y) && TextOf(h, x) == TextOf(h, y) ==> x == y
  }

  /** Strings that stay what they were stay interned. */
  lemma InternedFrame(h: Heap, h': Heap)
    requires Interned(h)
    requires forall x :: IsStr(h', x) ==> IsStr(h, x) && h'[x].body == h[x].body
    ensures Interned(h')
  {
    forall x, y | IsStr(h', x) && IsStr(h', y) && TextOf(h', x) == TextOf(h', y)
      ensures x == y
    {
      assert TextOf(h', x) == TextOf(h, x) && TextOf(h', y) == TextOf(h, y);
    }
  }

  ghost predicate BucketOk(h: Heap, list: seq<Id>, i: nat, n: nat)
    requires n > 0
  {
    NoDup(list) && forall x :: x in list ==> x in h && h[x].body.Str? && Bucket(h, x, n) == i
  }

  // ------------------------------------------------------------- colours

  /** Not condemned: `!isdead`. */
  predicate Live(s: State, x: Id) {
    x in s.heap && s.heap[x].color != Other(s.white)
  }

  predicate ValueLive(s: State, v: Value) {
    v.Ref? ==> Live(s, v.id)
  }

  /** Live objects refer to live objects only, and so do the roots. */
  ghost predicate Closed(s: State) {
    && (forall x, c {:trigger Child(s.roots, s.heap[x].body, c)} :: Live(s, x) && Child(s.roots, s.heap[x].body, c) ==> Live(s, c))
    && Live(s, s.main)
    && ValueLive(s, s.registry)
    && (forall v :: v in s.mt ==> ValueLive(s, v))
  }

  ghost predicate AllCurrent(s: State) {
    forall x :: x in s.heap ==> s.heap[x].color == s.white
  }

  ghost predicate UpvalsNotBlack(h: Heap) {
    forall x :: x in h && h[x].body.OpenUpval() ==> h[x].color != Black
  }

  ghost predicate ColorOk(s: State, x: Id)
    requires x in s.heap
  {
    var o := s.heap[x];
    && o.color != Other(s.white)
    && (o.color == Black ==>
          !o.body.Thread? && !o.body.OpenUpval() && !o.body.Str? && ChildrenMarked(s.heap, s.roots, o.body))
    && (o.color == Gray ==>
          !o.body.Udata? && (o.body.Upval? ==> o.body.open) &&
          (o.body.Traversable() ==> x in s.gray || x in s.grayAgain))
  }

  /** The tri-colour invariant of the propagate phase. */
  ghost predicate TriColor(s: State) {
    && TriColorBut(s, {})
    && Marked(s.heap, s.main)
    && (s.registry.Ref? ==> Marked(s.heap, s.registry.id))
  }

  /** The same while the objects of `busy` are in the middle of their traversal. */
  ghost predicate TriColorBut(s: State, busy: set<Id>) {
    && GrayOk(s) && GrayAgainOk(s)
    && NoDup(s.gray) && NoDup(s.grayAgain) && (forall x :: x in s.gray ==> x !in s.grayAgain)
    && (forall x :: x in s.gray || x in s.grayAgain ==> x in s.heap && s.heap[x].color == Gray)
    && (forall x :: x in s.heap && x !in busy ==> ColorOk(s, x))
  }

  ghost predicate ListCurrent(h: Heap, w: White, list: seq<Id>) {
    forall x :: x in list && x in h ==> h[x].color == w
  }

  /** What has been swept so far is back to the current white. */
  ghost predicate SweptPart(s: State)
    requires s.sweepGc <= |s.rootGc|
  {
    && (s.phase == SweepString ==> s.sweepGc == 0 && s.sweepStrGc < |s.strt|)
    && (forall i :: 0 <= i < |s.strt| && (s.phase == SweepString ==> i < s.sweepStrGc) ==>
          ListCurrent(s.heap, s.white, s.strt[i]))
    && ListCurrent(s.heap, s.white, s.rootGc[..s.sweepGc])
    && (s.main in s.rootGc[..s.sweepGc] ==> ListCurrent(s.heap, s.white, s.openUpval))
  }

  ghost predicate PhaseInv(s: State)
    requires s.sweepGc <= |s.rootGc|
  {
    match s.phase
    case Pause => AllCurrent(s)
    case Finalize => AllCurrent(s)
    case Propagate => TriColor(s)
    case _ => SweptPart(s)
  }

  ghost predicate Inv(s: State) {
    Lists(s) && Closed(s) && UpvalsNotBlack(s.heap) && PhaseInv(s)
  }

  lemma StringsThere(s: State)
    requires Lists(s)
    ensures |s.strt| > 0
  {
  }

  /** The same objects are live and refer to the same ones. */
  lemma SameLiveClosed(s: State, s': State)
    requires Closed(s) && SameShape(s.heap, s'.heap)
    requires s'.roots == s.roots && s'.main == s.main && s'.registry == s.registry && s'.mt == s.mt
    requires forall x :: Live(s', x) <==> Live(s, x)
    ensures Closed(s')
  {
    forall x, c | Live(s', x) && Child(s'.roots, s'.heap[x].body, c)
      ensures Live(s', c)
    {
      assert Live(s, x) && Live(s, c);
    }
    forall v | v in s'.mt
      ensures ValueLive(s', v)
    {
      assert ValueLive(s, v);
    }
    assert ValueLive(s, s.registry);
  }

  // ------------------------------------------------------------- marking steps

  /** The collector changes a body only by tagging the dead keys of a table. */
  ghost predicate SameKind(b: Body, b': Body) {
    b' == b || b' == Traversed(b)
  }

  ghost predicate SameKinds(h: Heap, h': Heap) {
    h'.Keys == h.Keys &&
    (forall x :: x in h ==> h'[x].fixed == h[x].fixed && SameKind(h[x].body, h'[x].body))
  }

  lemma SameKindsStrings(h: Heap, h': Heap, strt: seq<seq<Id>>)
    requires StringsOk(h, strt) && SameKinds(h, h')
    ensures StringsOk(h', strt)
  {
    forall x | x in h
      ensures h[x].body.Str? <==> h'[x].body.Str?
      ensures h[x].body.Str? ==> h'[x].body == h[x].body && Bucket(h', x, |strt|) == Bucket(h, x, |strt|)
    {
    }
    forall i | 0 <= i < |strt|
      ensures BucketOk(h', strt[i], i, |strt|)
    {
      assert BucketOk(h, strt[i], i, |strt|);
    }
    InternedFrame(h, h');
  }

  lemma SameKindsOpen(h: Heap, h': Heap, open: seq<Id>, ring: seq<Id>, top: nat)
    requires OpenOk(h, open, ring, top) && SameKinds(h, h')
    ensures OpenOk(h', open, ring, top)
  {
    forall x | x in h
      ensures h[x].body.OpenUpval() <==> h'[x].body.OpenUpval()
      ensures h[x].body.OpenUpval() ==> h'[x].body == h[x].body
    {
    }
    DescendingFrame(h, h', open);
  }

  /** A step that only recolours and traverses keeps the lists. */
  lemma SameKindsLists(s: State, s': State)
    requires Lists(s) && SameKinds(s.heap, s'.heap)
    requires s'.main == s.main && s'.rootGc == s.rootGc && s'.strt == s.strt && s'.openUpval == s.openUpval
    requires s'.uvHead == s.uvHead && s'.roots == s.roots
    requires s'.sweepGc <= |s'.rootGc|
    ensures Lists(s')
  {
    SameKindsStrings(s.heap, s'.heap, s.strt);
    SameKindsOpen(s.heap, s'.heap, s.openUpval, s.uvHead, |s.roots.stack|);
    forall x | x in s.heap
      ensures s.heap[x].body.Thread? <==> s'.heap[x].body.Thread?
      ensures s.heap[x].body.Str? <==> s'.heap[x].body.Str?
      ensures s.heap[x].body.OpenUpval() <==> s'.heap[x].body.OpenUpval()
    {
    }
  }

  lemma {:induction false} TagDeadSlots(node: seq<Node>, v: Value)
    requires v in NodeSlots(TagDead(node))
    ensures v in NodeSlots(node)
  {
    if node != [] && v in NodeSlots(TagDead(node)[1..]) {
      assert TagDead(node)[1..] == TagDead(node[1..]);
      TagDeadSlots(node[1..], v);
    }
  }

  lemma SameKindSlots(r: Roots, b: Body, b': Body, c: Id)
    requires SameKind(b, b') && Child(r, b', c)
    ensures Child(r, b, c)
  {
    if b.Table? && Ref(c) in NodeSlots(TagDead(b.node)) {
      TagDeadSlots(b.node, Ref(c));
    }
  }

  lemma {:induction false} TagDeadTwice(node: seq<Node>)
    ensures TagDead(TagDead(node)) == TagDead(node)
  {
    if node != [] {
      TagDeadTwice(node[1..]);
      assert TagDead(node)[1..] == TagDead(node[1..]);
    }
  }

  lemma TraversedTwice(b: Body)
    ensures Traversed(Traversed(b)) == Traversed(b)
  {
    if b.Table? {
      TagDeadTwice(b.node);
    }
  }

  /** Marking keeps the tri-colour invariant. */
  lemma MarksKeepTriColor(s: State, m: Marking, busy: set<Id>)
    requires TriColorBut(s, busy) && Marks(s.M(), m, s.roots)
    requires forall x :: x in busy && x in m.heap ==> ColorOk(WithMarking(s, m), x)
    ensures TriColorBut(WithMarking(s, m), {})
    ensures forall x :: Marked(s.heap, x) ==> Marked(m.heap, x)
  {
    var s' := WithMarking(s, m);
    MarksKeepGrayOk(s, m);
    var pre: seq<Id> :| GrayPrefix(s.M(), m, pre);
    NoDupConcat(pre, s.gray);
    forall x | x in s'.heap
      ensures ColorOk(s', x)
    {
      if x !in busy {
        assert ColorOk(s, x);
        if s'.heap[x].color != s.heap[x].color {
          assert WellMarked(m, s.roots, x);
        }
      }
    }
  }

  /** The state between taking `o` off the gray list and marking its children. */
  function Taken(s: State): State
    requires s.gray != [] && s.gray[0] in s.heap
  {
    var o := s.gray[0];
    s.(heap := Blacken(s.heap, o), gray := s.gray[1..],
       grayAgain := if s.heap[o].body.Thread? then [o] + s.grayAgain else s.grayAgain)
  }

  lemma TakenColorOk(s: State, x: Id)
    requires s.gray != [] && s.gray[0] in s.heap && Marked(s.heap, s.gray[0])
    requires x in s.heap && x != s.gray[0] && ColorOk(s, x)
    ensures ColorOk(Taken(s), x)
  {
    hide Slots, TagDead;
    assert s.gray == [s.gray[0]] + s.gray[1..];
    assert forall c :: Marked(s.heap, c) ==> Marked(Taken(s).heap, c);
  }

  lemma TakenTriColor(s: State)
    requires TriColor(s) && s.gray != [] && s.gray[0] in s.heap
    ensures TriColorBut(Taken(s), {s.gray[0]}) && SameKinds(s.heap, Taken(s).heap)
    ensures forall x :: Marked(s.heap, x) ==> Marked(Taken(s).heap, x)
  {
    hide Slots, TagDead, ColorOk;
    var o, t := s.gray[0], Taken(s);
    assert o in s.gray && s.gray == [o] + s.gray[1..];
    assert forall x :: x in s.heap ==> t.heap[x].color.IsWhite() == s.heap[x].color.IsWhite();
    forall x | x in t.heap && x != o
      ensures ColorOk(t, x)
    {
      TakenColorOk(s, x);
    }
  }

  lemma {:induction false} PropagateKeepsTriColor(s: State)
    requires TriColor(s) && s.gray != [] && s.gray[0] in s.heap
    ensures var s' := PropagateMark(s);
            TriColor(s') && SameKinds(s.heap, s'.heap) &&
            (forall x :: Marked(s.heap, x) ==> Marked(s'.heap, x)) &&
            (s.heap[s.gray[0]].body.Thread? ==> ChildrenMarked(s'.heap, s.roots, Thread))
  {
    hide Slots, TagDead, MarkAll;
    var o, t, s' := s.gray[0], Taken(s), PropagateMark(s);
    TakenTriColor(s);
    MarkAllMarks(t.M(), s.roots, Slots(s.roots, t.heap[o].body));
    assert ColorOk(s, o) by { assert o in s.heap; }
    assert o in s.gray;
    assert ColorOk(s', o);
    MarksKeepTriColor(t, s'.M(), {o});
  }

  lemma SameKindsTrans(h0: Heap, h1: Heap, h2: Heap)
    requires SameKinds(h0, h1) && SameKinds(h1, h2)
    ensures SameKinds(h0, h2)
  {
    forall x | x in h0
      ensures h2[x].fixed == h0[x].fixed && SameKind(h0[x].body, h2[x].body)
    {
      TraversedTwice(h0[x].body);
    }
  }

  lemma {:induction false} PropagateAllKeepsTriColor(s: State)
    requires TriColor(s)
    ensures var s' := PropagateAll(s);
            TriColor(s') && s'.gray == [] && SameKinds(s.heap, s'.heap) &&
            (forall x :: Marked(s.heap, x) ==> Marked(s'.heap, x))
    decreases Whites(s.heap), |s.gray|
  {
    if s.gray != [] {
      assert s.gray[0] in s.gray;
      PropagateShrinks(s);
      PropagateKeepsTriColor(s);
      PropagateAllKeepsTriColor(PropagateMark(s));
      SameKindsTrans(s.heap, PropagateMark(s).heap, PropagateAll(s).heap);
    }
  }
}
