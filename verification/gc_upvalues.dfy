/**
 Upvalues (lfunc.c) and interned strings (lstring.c): the two places where the program can
 bring a condemned object back, and where an open upvalue moves between lists.
 */
module GcUpvalues {
  import opened GcHeap
  import opened GcState
  import opened GcInvariant
  import opened GcMarkPhase
  import opened GcSweepPhase
  import opened GcCycle
  import opened GcMutator
  import opened Sequences

  const MAX_INT := 0x7fff_ffff

  // ------------------------------------------------------------- resurrection

  /** `if (isdead(g, o)) changewhite(o)`. */
  function Revive(s: State, x: Id): State
    requires x in s.heap
  {
    if s.heap[x].color == Other(s.white) then s.(heap := Recolor(s.heap, x, s.white)) else s
  }

  lemma NoneDeadWhileMarking(s: State, x: Id)
    requires Inv(s) && x in s.heap && s.heap[x].color == Other(s.white)
    ensures s.phase == SweepString || s.phase == Sweep
  {
    if s.phase == Propagate {
      TriColorNoneCondemned(s);
    }
  }

  /** A condemned string, or a condemned open upvalue, can come back to life: what it refers to
      is alive. */
  lemma ReviveKeepsInv(s: State, x: Id)
    requires Inv(s) && x in s.heap && ChildrenLive(s, s.heap[x].body)
    ensures Inv(Revive(s, x)) && Live(Revive(s, x), x) && SameShape(s.heap, Revive(s, x).heap)
    ensures forall y :: Live(s, y) ==> Live(Revive(s, x), y)
  {
    hide Lists;
    var s' := Revive(s, x);
    if s.heap[x].color == Other(s.white) {
      NoneDeadWhileMarking(s, x);
      BoundsOf(s);
      SameShapeKinds(s.heap, s'.heap);
      SameKindsLists(s, s');
      ReviveClosed(s, x);
      forall i | 0 <= i < |s.strt| && (s.phase == SweepString ==> i < s.sweepStrGc)
        ensures ListCurrent(s'.heap, s.white, s.strt[i])
      {
        assert ListCurrent(s.heap, s.white, s.strt[i]);
      }
    }
  }

  lemma ReviveClosed(s: State, x: Id)
    requires Closed(s) && x in s.heap && ChildrenLive(s, s.heap[x].body)
    ensures Closed(Revive(s, x)) && forall y :: Live(s, y) ==> Live(Revive(s, x), y)
  {
    var s' := Revive(s, x);
    forall y, c | Live(s', y) && Child(s'.roots, s'.heap[y].body, c)
      ensures Live(s', c)
    {
      assert y != x ==> Live(s, y);
      assert Live(s, c);
    }
    forall v | v in s'.mt
      ensures ValueLive(s', v)
    {
      assert ValueLive(s, v);
    }
    assert ValueLive(s, s.registry);
  }

  // ------------------------------------------------------------- luaF_findupval

  /** The first open upvalue at or below `level`. */
  function FindOpen(h: Heap, list: seq<Id>, level: nat): (i: nat)
    ensures i <= |list|
  {
    if list == [] || !HasLevel(h, list[0]) || h[list[0]].body.level <= level then 0
    else 1 + FindOpen(h, list[1..], level)
  }

  predicate IsOpenAt(s: State, i: nat, level: nat) {
    i < |s.openUpval| && HasLevel(s.heap, s.openUpval[i]) && s.heap[s.openUpval[i]].body.level == level
  }

  /** `luaF_findupval`: the upvalue for a stack slot, new (under the name `id`) if there is none. */
  function FindUpval(s: State, level: nat, id: Id): (State, Id) {
    var i := FindOpen(s.heap, s.openUpval, level);
    if IsOpenAt(s, i, level) then (Revive(s, s.openUpval[i]), s.openUpval[i])
    else (s.(heap := s.heap[id := Obj(s.white, false, Upval(true, level, Nil))],
             openUpval := InsertAt(s.openUpval, i, id), uvHead := [id] + s.uvHead), id)
  }

  lemma {:induction false} FindOpenFinds(h: Heap, list: seq<Id>, level: nat)
    requires Descending(h, list)
    ensures var i := FindOpen(h, list, level);
            && (forall k :: 0 <= k < i ==> HasLevel(h, list[k]) && h[list[k]].body.level > level)
            && (forall k :: i <= k < |list| ==> HasLevel(h, list[k]) && h[list[k]].body.level <= level)
            && (forall k :: i < k < |list| ==> h[list[k]].body.level < level)
    decreases |list|
  {
    if list != [] {
      var i := FindOpen(h, list, level);
      if i > 0 {
        FindOpenFinds(h, list[1..], level);
        forall k | 0 < k < |list|
          ensures list[k] == list[1..][k - 1]
        {
        }
      } else {
        forall k | 0 < k < |list|
          ensures HasLevel(h, list[k]) && h[list[k]].body.level < level
        {
          assert list[k] == list[1..][k - 1];
        }
      }
    }
  }

  lemma {:induction false} InsertDescending(h: Heap, list: seq<Id>, level: nat, id: Id)
    requires Descending(h, list) && HasLevel(h, id) && h[id].body.level == level
    requires forall x :: x in list && HasLevel(h, x) ==> h[x].body.level != level
    ensures Descending(h, InsertAt(list, FindOpen(h, list, level), id))
    decreases |list|
  {
    var i := FindOpen(h, list, level);
    if i > 0 {
      var rest := InsertAt(list[1..], i - 1, id);
      InsertDescending(h, list[1..], level, id);
      assert InsertAt(list, i, id) == [list[0]] + rest;
      assert ([list[0]] + rest)[1..] == rest;
    } else {
      assert InsertAt(list, 0, id) == [id] + list;
      assert ([id] + list)[1..] == list;
      if list != [] {
        assert list[0] in list && HasLevel(h, list[0]);
        forall x | x in list
          ensures HasLevel(h, x) && h[x].body.level < level
        {
          assert x != list[0] ==> x in list[1..];
        }
      }
    }
  }

  lemma NoneAtLevel(h: Heap, list: seq<Id>, level: nat)
    requires Descending(h, list)
    requires var i := FindOpen(h, list, level);
             i < |list| && HasLevel(h, list[i]) ==> h[list[i]].body.level != level
    ensures forall x :: x in list ==> HasLevel(h, x) && h[x].body.level != level
  {
    FindOpenFinds(h, list, level);
    forall x | x in list
      ensures HasLevel(h, x) && h[x].body.level != level
    {
      var k :| 0 <= k < |list| && list[k] == x;
    }
  }

  lemma NewUpvalOpen(h: Heap, h': Heap, open: seq<Id>, ring: seq<Id>, top: nat, level: nat, id: Id)
    requires OpenOk(h, open, ring, top) && level < top && id !in h
    requires var i := FindOpen(h, open, level);
             i < |open| && HasLevel(h, open[i]) ==> h[open[i]].body.level != level
    requires h'.Keys == h.Keys + {id} && h'[id].body == Upval(true, level, Nil)
    requires forall x :: x in h ==> h'[x] == h[x]
    ensures OpenOk(h', InsertAt(open, FindOpen(h, open, level), id), [id] + ring, top)
    ensures forall x :: x in InsertAt(open, FindOpen(h, open, level), id) <==> x == id || x in open
  {
    NoneAtLevel(h, open, level);
    DescendingFrame(h, h', open);
    FindOpenFrame(h, h', open, level);
    InsertDescending(h', open, level, id);
    InsertMembers(open, FindOpen(h, open, level), id, 0);
    NoDupConcat([id], ring);
  }

  lemma NewUpvalLists(s: State, level: nat, id: Id)
    requires Lists(s) && id !in s.heap && level < |s.roots.stack|
    requires !IsOpenAt(s, FindOpen(s.heap, s.openUpval, level), level)
    ensures Lists(FindUpval(s, level, id).0)
    ensures forall x :: x in FindUpval(s, level, id).0.openUpval <==> x == id || x in s.openUpval
  {
    hide Interned, Descending, OpenOk, FindOpen;
    var s' := FindUpval(s, level, id).0;
    NewUpvalOpen(s.heap, s'.heap, s.openUpval, s.uvHead, |s.roots.stack|, level, id);
    StringsFrame(s.heap, s'.heap, s.strt);
  }

  lemma {:induction false} FindOpenFrame(h: Heap, h': Heap, list: seq<Id>, level: nat)
    requires forall x :: x in list ==> x in h && x in h' && h'[x].body == h[x].body
    ensures FindOpen(h', list, level) == FindOpen(h, list, level)
  {
    if list != [] {
      FindOpenFrame(h, h', list[1..], level);
    }
  }

  lemma SlotLive(s: State, level: nat)
    requires Inv(s) && level < |s.roots.stack|
    ensures ValueLive(s, s.roots.stack[level])
    ensures forall b: Body :: b.OpenUpval() && b.level == level ==> ChildrenLive(s, b)
  {
    hide StringsOk, OpenOk, RootListOk, PhaseInv;
    var v := s.roots.stack[level];
    if v.Ref? {
      assert Child(s.roots, s.heap[s.main].body, v.id);
    }
  }

  lemma OpenBody(s: State, x: Id)
    requires Lists(s) && x in s.openUpval
    ensures x in s.heap && s.heap[x].body.OpenUpval() && s.heap[x].body.level < |s.roots.stack|
  {
  }

  /** One cell for each stack slot: closures that capture the same slot share it. */
  lemma FindUpvalKeepsInv(s: State, level: nat, id: Id)
    requires Inv(s) && id !in s.heap && level < |s.roots.stack|
    ensures var (s', u) := FindUpval(s, level, id);
            && Inv(s') && Live(s', u)
            && s'.heap[u].body.OpenUpval() && s'.heap[u].body.level == level
            && (u != id ==> u in s.openUpval)
            && (forall x :: x in s.heap ==> x in s'.heap && s'.heap[x].body == s.heap[x].body && s'.heap[x].fixed == s.heap[x].fixed)
            && (forall x :: Live(s, x) ==> Live(s', x))
            && s'.roots == s.roots
  {
    hide Lists, Closed, PhaseInv, UpvalsNotBlack, FindOpen, ChildrenLive;
    var i := FindOpen(s.heap, s.openUpval, level);
    var (s', u) := FindUpval(s, level, id);
    SlotLive(s, level);
    if IsOpenAt(s, i, level) {
      OpenBody(s, s.openUpval[i]);
      ReviveKeepsInv(s, s.openUpval[i]);
    } else {
      NewUpvalLists(s, level, id);
      NewObjectClosed(s, s', id, Upval(true, level, Nil));
      NewUpvalPhase(s, level, id);
    }
  }

  lemma NewUpvalPhase(s: State, level: nat, id: Id)
    requires Inv(s) && id !in s.heap && Lists(FindUpval(s, level, id).0)
    requires !IsOpenAt(s, FindOpen(s.heap, s.openUpval, level), level)
    requires forall x :: x in FindUpval(s, level, id).0.openUpval <==> x == id || x in s.openUpval
    ensures var s' := FindUpval(s, level, id).0;
            s'.sweepGc <= |s'.rootGc| && PhaseInv(s') && UpvalsNotBlack(s'.heap)
  {
    hide Lists, TriColor, SweptPart, FindOpen, Closed;
    var s' := FindUpval(s, level, id).0;
    BoundsOf(s);
    if s.phase == Propagate {
      NewObjectTriColor(s, s', id, Upval(true, level, Nil));
    } else if s.phase == SweepString || s.phase == Sweep {
      if s.phase == SweepString {
        SweepStringAtZero(s);
      }
      NewObjectSwept(s, s', id);
    }
  }

  lemma SweepStringAtZero(s: State)
    requires Inv(s) && s.phase == SweepString
    ensures s.sweepGc == 0
  {
  }

  // ------------------------------------------------------------- luaF_close

  /** `unlinkupval`. */
  function Unlink(ids: seq<Id>, x: Id): seq<Id> {
    var i := IndexOf(ids, x);
    if i < |ids| then RemoveAt(ids, i) else ids
  }

  /** The value in the stack slot of an open upvalue. */
  function SlotValue(r: Roots, b: Body): Value
    requires b.Upval?
  {
    if b.level < |r.stack| then r.stack[b.level] else Nil
  }

  /** The colour with which `luaC_linkupval` links a closed upvalue. */
  function ClosedColor(s: State, c: Color): Color {
    if c != Gray then c else if s.phase == Propagate then Black else s.white
  }

  /** The highest open upvalue takes its value along and becomes an ordinary object. */
  function Linked(s: State): State
    requires s.openUpval != [] && HasLevel(s.heap, s.openUpval[0])
  {
    var x := s.openUpval[0];
    var o := s.heap[x];
    s.(openUpval := s.openUpval[1..], uvHead := Unlink(s.uvHead, x),
       heap := s.heap[x := Obj(ClosedColor(s, o.color), o.fixed, Upval(false, o.body.level, SlotValue(s.roots, o.body)))],
       rootGc := InsertAt(s.rootGc, 0, x), sweepGc := Shift(0, s.sweepGc))
  }

  /** `luaC_linkupval`, on an upvalue that has just been closed with value `v`. */
  function LinkUpval(s: State, x: Id, v: Value): State
    requires x in s.heap
  {
    var s1 := s.(rootGc := InsertAt(s.rootGc, 0, x), sweepGc := Shift(0, s.sweepGc));
    if s.heap[x].color != Gray then s1
    else if s.phase == Propagate then Barrier(s1.(heap := Recolor(s.heap, x, Black)), x, v)
    else s1.(heap := Recolor(s.heap, x, s.white))
  }

  lemma CloseOneLinks(s: State, s1: State)
    requires s.openUpval != [] && HasLevel(s.heap, s.openUpval[0]) && s.heap[s.openUpval[0]].color != Other(s.white)
    requires var x := s.openUpval[0];
             var b := s.heap[x].body;
             s1 == s.(openUpval := s.openUpval[1..], uvHead := Unlink(s.uvHead, x),
                      heap := s.heap[x := s.heap[x].(body := Upval(false, b.level, SlotValue(s.roots, b)))])
    ensures CloseOne(s) == LinkUpval(s1, s.openUpval[0], SlotValue(s.roots, s.heap[s.openUpval[0]].body))
  {
    hide MarkValue, Unlink, InsertAt, Shift;
    var x := s.openUpval[0];
    assert Linked(s).heap == Recolor(s1.heap, x, ClosedColor(s, s.heap[x].color));
    assert s.heap[x].color != Gray ==> Linked(s).heap == s1.heap;
  }

  /** One turn of the loop of `luaF_close`: a condemned upvalue is freed, any other is closed,
      and one that was gray while marking goes through the barrier. */
  function CloseOne(s: State): State
    requires s.openUpval != [] && HasLevel(s.heap, s.openUpval[0])
  {
    var x := s.openUpval[0];
    var o := s.heap[x];
    if o.color == Other(s.white) then
      s.(openUpval := s.openUpval[1..], uvHead := Unlink(s.uvHead, x), heap := s.heap - {x})
    else if o.color == Gray && s.phase == Propagate then
      Barrier(Linked(s), x, SlotValue(s.roots, o.body))
    else Linked(s)
  }

  /** `luaF_close`. */
  function Close(s: State, level: nat): State
    decreases |s.openUpval|
  {
    if s.openUpval == [] || !HasLevel(s.heap, s.openUpval[0]) || s.heap[s.openUpval[0]].body.level < level then s
    else
      CloseOneShortens(s);
      Close(CloseOne(s), level)
  }

  lemma CloseOneShortens(s: State)
    requires s.openUpval != [] && HasLevel(s.heap, s.openUpval[0])
    ensures CloseOne(s).openUpval == s.openUpval[1..] && CloseOne(s).roots == s.roots && CloseOne(s).phase == s.phase
    ensures CloseOne(s).main == s.main && CloseOne(s).mt == s.mt && CloseOne(s).registry == s.registry
    ensures CloseOne(s).white == s.white
  {
    hide MarkValue;
  }

  lemma UnlinkMembers(ids: seq<Id>, x: Id)
    requires NoDup(ids) && x in ids
    ensures NoDup(Unlink(ids, x)) && forall y :: y in Unlink(ids, x) <==> y in ids && y != x
  {
    RemoveAtMembers(ids, IndexOf(ids, x));
  }

  lemma TailOpenOk(h: Heap, h': Heap, open: seq<Id>, ring: seq<Id>, top: nat)
    requires OpenOk(h, open, ring, top) && open != []
    requires forall y :: y in h' && h'[y].body.OpenUpval() <==> y in h && h[y].body.OpenUpval() && y != open[0]
    requires forall y :: y in h && y != open[0] ==> y in h' && h'[y].body == h[y].body
    ensures OpenOk(h', open[1..], Unlink(ring, open[0]), top)
  {
    assert open == [open[0]] + open[1..] && open[0] in open;
    UnlinkMembers(ring, open[0]);
    DescendingFrame(h, h', open[1..]);
  }

  lemma TopOpen(s: State)
    requires Lists(s) && s.openUpval != []
    ensures var x := s.openUpval[0];
            x in s.openUpval && HasLevel(s.heap, x) && s.heap[x].body.open && s.heap[x].body.level < |s.roots.stack| &&
            !s.heap[x].fixed && x !in s.rootGc && x != s.main
  {
    hide StringsOk, Descending;
    assert s.openUpval[0] in s.openUpval;
  }

  lemma LinkedLists(s: State)
    requires Lists(s) && s.openUpval != [] && HasLevel(s.heap, s.openUpval[0])
    ensures Lists(Linked(s))
    ensures forall y :: y in Linked(s).rootGc[..Linked(s).sweepGc] ==> y == s.openUpval[0] || y in s.rootGc[..s.sweepGc]
  {
    hide Descending, Interned, OpenOk, StringsOk, RootListOk;
    TopOpen(s);
    var s' := Linked(s);
    TailOpenOk(s.heap, s'.heap, s.openUpval, s.uvHead, |s.roots.stack|);
    LinkedRootList(s.heap, s'.heap, s.rootGc, s.openUpval[0], s.sweepGc);
    StringsFrame(s.heap, s'.heap, s.strt);
  }

  lemma LinkedRootList(h: Heap, h': Heap, rootGc: seq<Id>, x: Id, k: nat)
    requires RootListOk(h, rootGc) && x in h && h[x].body.OpenUpval() && k <= |rootGc|
    requires h'.Keys == h.Keys && h'[x].body.Upval? && !h'[x].body.open
    requires forall y :: y in h && y != x ==> h'[y] == h[y]
    ensures RootListOk(h', InsertAt(rootGc, 0, x))
    ensures forall y :: y in InsertAt(rootGc, 0, x)[..Shift(0, k)] ==> y == x || y in rootGc[..k]
  {
    InsertMembers(rootGc, 0, x, k);
  }

  /** Closing moves the value, so the upvalue refers to what it referred to before. */
  lemma LinkedClosed(s: State)
    requires Inv(s) && s.openUpval != [] && HasLevel(s.heap, s.openUpval[0]) && Live(s, s.openUpval[0])
    ensures Closed(Linked(s)) && forall y :: Live(Linked(s), y) <==> Live(s, y)
  {
    hide StringsOk, OpenOk, RootListOk, PhaseInv;
    TopOpen(s);
    var s', x := Linked(s), s.openUpval[0];
    forall y
      ensures Live(s', y) <==> Live(s, y)
    {
    }
    forall y, c | Live(s', y) && Child(s'.roots, s'.heap[y].body, c)
      ensures Live(s', c)
    {
      if y == x {
        assert Slots(s.roots, s'.heap[x].body) == Slots(s.roots, s.heap[x].body);
      }
      assert Live(s, y) && Child(s.roots, s.heap[y].body, c);
      assert Live(s, c);
    }
    forall v | v in s'.mt
      ensures ValueLive(s', v)
    {
      assert ValueLive(s, v);
    }
    assert ValueLive(s, s.registry);
  }

  lemma LinkedTriColor(s: State)
    requires TriColor(s) && s.openUpval != [] && HasLevel(s.heap, s.openUpval[0])
    requires s.heap[s.openUpval[0]].body.open && s.phase == Propagate
    ensures TriColorBut(Linked(s), if s.heap[s.openUpval[0]].color == Gray then {s.openUpval[0]} else {})
    ensures forall y :: Marked(s.heap, y) ==> Marked(Linked(s).heap, y)
  {
    var s', x := Linked(s), s.openUpval[0];
    assert ColorOk(s, x);
    forall y | y in s'.heap && (y == x ==> s.heap[x].color != Gray)
      ensures ColorOk(s', y)
    {
      assert ColorOk(s, y);
    }
  }

  lemma CloseGrayTriColor(s: State)
    requires TriColor(s) && s.phase == Propagate
    requires s.openUpval != [] && HasLevel(s.heap, s.openUpval[0]) && s.heap[s.openUpval[0]].body.open
    requires Closed(Linked(s))
    requires s.heap[s.openUpval[0]].color == Gray
    ensures TriColor(CloseOne(s)) && SameShape(Linked(s).heap, CloseOne(s).heap)
  {
    var x, s1, s' := s.openUpval[0], Linked(s), CloseOne(s);
    var v := SlotValue(s.roots, s.heap[x].body);
    LinkedTriColor(s);
    assert Slots(s.roots, s1.heap[x].body) == [v];
    if v.Ref? && IsWhite(s1.heap, v.id) {
      MarkValueMarks(s1.M(), s.roots, v);
      SameShapeMarks(s1.M(), s'.M(), s.roots);
      assert ColorOk(s', x);
      MarksKeepTriColor(s1, s'.M(), {x});
    } else {
      assert s' == s1;
      assert ColorOk(s1, x);
    }
  }

  lemma LinkedSwept(s: State)
    requires Inv(s) && (s.phase == SweepString || s.phase == Sweep) && s.openUpval != [] && Live(s, s.openUpval[0])
    requires HasLevel(s.heap, s.openUpval[0]) && Lists(Linked(s))
    requires forall y :: y in Linked(s).rootGc[..Linked(s).sweepGc] ==> y == s.openUpval[0] || y in s.rootGc[..s.sweepGc]
    ensures SweptPart(Linked(s))
  {
    hide StringsOk, RootListOk, OpenOk, Closed;
    TopOpen(s);
    var s', x := Linked(s), s.openUpval[0];
    assert s'.heap[x].color == s.white;
    forall i | 0 <= i < |s'.strt| && (s'.phase == SweepString ==> i < s'.sweepStrGc)
      ensures ListCurrent(s'.heap, s'.white, s'.strt[i])
    {
      assert ListCurrent(s.heap, s.white, s.strt[i]);
    }
  }

  ghost function ClosedBody(s: State, y: Id, which: iset<Id>): Body
    requires y in s.heap
  {
    var b := s.heap[y].body;
    if y in which && b.OpenUpval() then Upval(false, b.level, SlotValue(s.roots, b)) else b
  }

  /** What closing did to the heap: the upvalues of `which` that are still there hold the value
      they read through the stack before, and nothing else changed; the ones that are gone were
      condemned. */
  ghost predicate ClosedThem(s: State, s': State, which: iset<Id>) {
    && (forall y :: y in s'.heap ==> y in s.heap && s'.heap[y].fixed == s.heap[y].fixed &&
                                     s'.heap[y].body == ClosedBody(s, y, which))
    && (forall y :: y in s.heap && y !in s'.heap ==>
          y in which && s.heap[y].body.OpenUpval() && Garbage(s.heap, s.white, y))
    && (forall y :: Live(s, y) ==> Live(s', y))
    && (forall y :: y in s'.heap && Garbage(s.heap, s.white, y) ==> Garbage(s'.heap, s.white, y))
    && s'.roots == s.roots && s'.main == s.main && s'.mt == s.mt && s'.registry == s.registry && s'.white == s.white
    && s'.phase == s.phase
  }

  lemma FreeDeadLists(s: State)
    requires Lists(s) && s.openUpval != [] && HasLevel(s.heap, s.openUpval[0])
    requires s.heap[s.openUpval[0]].color == Other(s.white)
    ensures Lists(CloseOne(s))
  {
    hide Descending, Interned, OpenOk, StringsOk;
    TopOpen(s);
    var s' := CloseOne(s);
    TailOpenOk(s.heap, s'.heap, s.openUpval, s.uvHead, |s.roots.stack|);
    StringsFrame(s.heap, s'.heap, s.strt);
  }

  lemma FreeDeadKeepsInv(s: State)
    requires Inv(s) && s.openUpval != [] && HasLevel(s.heap, s.openUpval[0])
    requires s.heap[s.openUpval[0]].color == Other(s.white)
    ensures Inv(CloseOne(s)) && ClosedThem(s, CloseOne(s), iset{s.openUpval[0]})
  {
    hide Lists;
    var x, s' := s.openUpval[0], CloseOne(s);
    TopOpen(s);
    BoundsOf(s);
    NoneDeadWhileMarking(s, x);
    FreeDeadLists(s);
    FreeDeadClosed(s, s', x);
    forall i | 0 <= i < |s.strt| && (s.phase == SweepString ==> i < s.sweepStrGc)
      ensures ListCurrent(s'.heap, s.white, s.strt[i])
    {
      assert ListCurrent(s.heap, s.white, s.strt[i]);
    }
  }

  lemma FreeDeadClosed(s: State, s': State, x: Id)
    requires Closed(s) && !Live(s, x) && s'.heap == s.heap - {x} && s'.white == s.white && s'.roots == s.roots
    requires s'.main == s.main && s'.registry == s.registry && s'.mt == s.mt
    ensures Closed(s')
  {
    forall y, c | Live(s', y) && Child(s'.roots, s'.heap[y].body, c)
      ensures Live(s', c)
    {
      assert Live(s, y) && Live(s, c);
    }
    forall v | v in s'.mt
      ensures ValueLive(s', v)
    {
      assert ValueLive(s, v);
    }
    assert ValueLive(s, s.registry);
  }

  lemma CloseOneKeepsInv(s: State)
    requires Inv(s) && s.openUpval != []
    ensures HasLevel(s.heap, s.openUpval[0])
    ensures Inv(CloseOne(s)) && ClosedThem(s, CloseOne(s), iset{s.openUpval[0]})
  {
    hide Lists, Closed, TriColor, SweptPart, UpvalsNotBlack, ClosedThem;
    TopOpen(s);
    var x := s.openUpval[0];
    if s.heap[x].color == Other(s.white) {
      FreeDeadKeepsInv(s);
    } else {
      LinkedLists(s);
      LinkedClosed(s);
      LinkedThem(s);
      LinkedUpvals(s);
      BoundsOf(Linked(s));
      if s.phase == Propagate {
        if s.heap[x].color == Gray {
          CloseGrayKeepsInv(s);
        } else {
          LinkedMarking(s);
        }
      } else if s.phase == SweepString || s.phase == Sweep {
        LinkedSwept(s);
      } else {
        LinkedCurrent(s);
      }
    }
  }

  lemma LinkedThem(s: State)
    requires Lists(s) && s.openUpval != [] && HasLevel(s.heap, s.openUpval[0]) && Live(s, s.openUpval[0])
    ensures ClosedThem(s, Linked(s), iset{s.openUpval[0]})
  {
    hide StringsOk, RootListOk, Descending;
    TopOpen(s);
  }

  lemma LinkedUpvals(s: State)
    requires UpvalsNotBlack(s.heap) && s.openUpval != [] && HasLevel(s.heap, s.openUpval[0])
    ensures UpvalsNotBlack(Linked(s).heap)
  {
  }

  lemma LinkedCurrent(s: State)
    requires AllCurrent(s) && s.openUpval != [] && HasLevel(s.heap, s.openUpval[0])
    ensures AllCurrent(Linked(s))
  {
  }

  lemma LinkedMarking(s: State)
    requires TriColor(s) && Lists(s) && s.openUpval != [] && HasLevel(s.heap, s.openUpval[0]) && s.phase == Propagate
    requires s.heap[s.openUpval[0]].color != Gray
    ensures TriColor(Linked(s))
  {
    hide StringsOk, RootListOk, Descending, ColorOk;
    TopOpen(s);
    LinkedTriColor(s);
  }

  lemma CloseGrayKeepsInv(s: State)
    requires Inv(s) && s.phase == Propagate && s.openUpval != [] && HasLevel(s.heap, s.openUpval[0])
    requires s.heap[s.openUpval[0]].color == Gray && Lists(Linked(s)) && Closed(Linked(s))
    ensures Inv(CloseOne(s)) && ClosedThem(s, CloseOne(s), iset{s.openUpval[0]})
  {
    hide Lists, TriColor, Closed, ClosedThem, CloseOne, Linked, SameShape, SameKinds;
    TopOpen(s);
    var s1, s' := Linked(s), CloseOne(s);
    CloseGrayTriColor(s);
    CloseGrayFrame(s);
    SameShapeKinds(s1.heap, s'.heap);
    BoundsOf(s1);
    SameKindsLists(s1, s');
    TriColorNoneCondemned(s);
    TriColorNoneCondemned(s');
    NoneCondemnedLinked(s);
    StayClosed(s1, s');
    LinkedThem(s);
    ClosedThemMarked(s, s1, s', iset{s.openUpval[0]});
  }

  lemma CloseGrayFrame(s: State)
    requires s.openUpval != [] && HasLevel(s.heap, s.openUpval[0]) && s.heap[s.openUpval[0]].color == Gray
    ensures var s1, s' := Linked(s), CloseOne(s);
            && s'.main == s1.main && s'.rootGc == s1.rootGc && s'.strt == s1.strt && s'.openUpval == s1.openUpval
            && s'.uvHead == s1.uvHead && s'.roots == s1.roots && s'.sweepGc == s1.sweepGc && s'.white == s1.white
            && s'.registry == s1.registry && s'.mt == s1.mt && s'.phase == s1.phase && s1.white == s.white && s1.phase == s.phase
  {
    hide MarkValue;
  }

  /** While nothing is condemned, marking does not disturb what closing has done. */
  lemma ClosedThemMarked(s: State, s1: State, s': State, which: iset<Id>)
    requires ClosedThem(s, s1, which) && SameShape(s1.heap, s'.heap)
    requires forall x :: x in s.heap ==> s.heap[x].color != Other(s.white)
    requires forall x :: x in s'.heap ==> s'.heap[x].color != Other(s'.white)
    requires s'.roots == s1.roots && s'.main == s1.main && s'.mt == s1.mt && s'.registry == s1.registry
    requires s'.white == s1.white && s'.phase == s1.phase
    ensures ClosedThem(s, s', which)
  {
  }

  lemma NoneCondemnedLinked(s: State)
    requires s.openUpval != [] && HasLevel(s.heap, s.openUpval[0]) && s.phase == Propagate
    requires forall x :: x in s.heap ==> s.heap[x].color != Other(s.white)
    ensures forall x :: x in Linked(s).heap ==> Linked(s).heap[x].color != Other(Linked(s).white)
  {
  }

  ghost function OpenFrom(s: State, level: nat): iset<Id> {
    iset x | x in s.heap && s.heap[x].body.OpenUpval() && s.heap[x].body.level >= level
  }

  lemma ClosedThemTrans(s: State, s1: State, s2: State, level: nat)
    requires s.openUpval != [] && HasLevel(s.heap, s.openUpval[0]) && s.heap[s.openUpval[0]].body.level >= level
    requires s.heap[s.openUpval[0]].body.open
    requires ClosedThem(s, s1, iset{s.openUpval[0]}) && ClosedThem(s1, s2, OpenFrom(s1, level))
    ensures ClosedThem(s, s2, OpenFrom(s, level))
  {
    forall y | y in s.heap && y !in s2.heap
      ensures y in OpenFrom(s, level) && Garbage(s.heap, s.white, y)
    {
      assert Live(s, y) ==> Live(s1, y);
      assert Live(s1, y) ==> Live(s2, y);
    }
  }

  /** `luaF_close` closes or frees exactly the open upvalues at or above `level`; the others stay
      open, in their order, and what an upvalue reads does not change. */
  lemma {:induction false} CloseKeepsInv(s: State, level: nat)
    requires Inv(s)
    ensures var s' := Close(s, level);
            && Inv(s') && ClosedThem(s, s', OpenFrom(s, level))
            && (exists k :: 0 <= k <= |s.openUpval| && s'.openUpval == s.openUpval[k..])
            && (forall x :: x in s'.openUpval <==> x in s.openUpval && HasLevel(s.heap, x) && s.heap[x].body.level < level)
    decreases |s.openUpval|
  {
    hide Inv, ClosedThem, OpenFrom, CloseOne;
    if s.openUpval == [] {
      CloseNothing(s, level);
      assert s.openUpval == s.openUpval[0..];
    } else {
      CloseOneKeepsInv(s);
      var x := s.openUpval[0];
      if s.heap[x].body.level < level {
        CloseNothing(s, level);
        assert s.openUpval == s.openUpval[0..];
      } else {
        CloseOneShortens(s);
        InvTopOpen(s);
        CloseKeepsInv(CloseOne(s), level);
        ClosedThemTrans(s, CloseOne(s), Close(s, level), level);
        CloseRest(s, level);
        var k :| 0 <= k <= |CloseOne(s).openUpval| && Close(s, level).openUpval == CloseOne(s).openUpval[k..];
        assert Close(s, level).openUpval == s.openUpval[k + 1..];
      }
    }
  }

  lemma InvTopOpen(s: State)
    requires Inv(s) && s.openUpval != []
    ensures HasLevel(s.heap, s.openUpval[0]) && s.heap[s.openUpval[0]].body.open
  {
    TopOpen(s);
  }

  lemma CloseNothing(s: State, level: nat)
    requires Inv(s)
    requires s.openUpval != [] && HasLevel(s.heap, s.openUpval[0]) ==> s.heap[s.openUpval[0]].body.level < level
    ensures ClosedThem(s, s, OpenFrom(s, level))
    ensures forall x :: x in s.openUpval ==> HasLevel(s.heap, x) && s.heap[x].body.level < level
  {
    hide StringsOk, RootListOk, Closed, PhaseInv;
    if s.openUpval != [] {
      assert s.openUpval == [s.openUpval[0]] + s.openUpval[1..];
    }
  }

  lemma CloseRest(s: State, level: nat)
    requires Inv(s) && s.openUpval != [] && HasLevel(s.heap, s.openUpval[0]) && s.heap[s.openUpval[0]].body.level >= level
    requires ClosedThem(s, CloseOne(s), iset{s.openUpval[0]}) && Inv(CloseOne(s))
    requires CloseOne(s).openUpval == s.openUpval[1..]
    ensures forall x :: x in CloseOne(s).openUpval && HasLevel(CloseOne(s).heap, x) && CloseOne(s).heap[x].body.level < level
                   <==> x in s.openUpval && HasLevel(s.heap, x) && s.heap[x].body.level < level
  {
    hide StringsOk, RootListOk, Closed, PhaseInv, CloseOne;
    assert s.openUpval == [s.openUpval[0]] + s.openUpval[1..];
    TopOpen(s);
  }

  // ------------------------------------------------------------- luaS_newlstr

  /** The loop over the bucket. */
  function FindText(h: Heap, list: seq<Id>, text: Text): (i: nat)
    ensures i <= |list|
    ensures i < |list| ==> IsStr(h, list[i]) && h[list[i]].body.text == text
    ensures forall k :: 0 <= k < i ==> !(IsStr(h, list[k]) && h[list[k]].body.text == text)
  {
    if list == [] || (list[0] in h && h[list[0]].body.Str? && h[list[0]].body.text == text) then 0
    else 1 + FindText(h, list[1..], text)
  }

  /** `newlstr`: a new string at the head of its bucket; a crowded table doubles. */
  function AddString(s: State, text: Text, id: Id): State
    requires |s.strt| > 0
  {
    var b := text.hash % |s.strt|;
    var s1 := s.(heap := s.heap[id := Obj(s.white, false, Str(text))], strt := s.strt[b := [id] + s.strt[b]]);
    if StringCount(s1.strt) > |s1.strt| && |s1.strt| <= MAX_INT / 2 then ResizeStrings(s1, 2 * |s1.strt|) else s1
  }

  /** `luaS_newlstr`. */
  function NewString(s: State, text: Text, id: Id): (State, Id)
    requires |s.strt| > 0
  {
    var list := s.strt[text.hash % |s.strt|];
    var i := FindText(s.heap, list, text);
    if i < |list| then (Revive(s, list[i]), list[i]) else (AddString(s, text, id), id)
  }

  lemma AddToBucket(h: Heap, h': Heap, strt: seq<seq<Id>>, text: Text, id: Id)
    requires StringsOk(h, strt) && id !in h && h'.Keys == h.Keys + {id} && h'[id].body == Str(text)
    requires forall x :: x in h ==> h'[x] == h[x]
    requires forall x :: x in strt[text.hash % |strt|] && IsStr(h, x) ==> h[x].body.text != text
    ensures StringsOk(h', strt[text.hash % |strt| := [id] + strt[text.hash % |strt|]])
  {
    var b := text.hash % |strt|;
    var strt' := strt[b := [id] + strt[b]];
    forall i | 0 <= i < |strt|
      ensures BucketOk(h', strt'[i], i, |strt'|)
    {
      assert BucketOk(h, strt[i], i, |strt|);
      NoDupConcat([id], strt[i]);
    }
    forall x | IsStr(h', x)
      ensures x in strt'[Bucket(h', x, |strt'|)]
      ensures x != id ==> IsStr(h, x) && h[x].body.text != text
    {
      if x != id {
        assert x in strt[Bucket(h, x, |strt|)];
      }
    }
    forall x, y | IsStr(h', x) && IsStr(h', y) && TextOf(h', x) == TextOf(h', y)
      ensures x == y
    {
      if x != id && y != id {
        assert TextOf(h, x) == TextOf(h, y);
      }
    }
  }

  lemma AddStringLists(s: State, text: Text, id: Id)
    requires Lists(s) && id !in s.heap
    requires forall x :: x in s.strt[text.hash % |s.strt|] && IsStr(s.heap, x) ==> s.heap[x].body.text != text
    ensures Lists(Chained(s, text, id))
  {
    hide StringsOk, Descending;
    StringsThere(s);
    var s' := Chained(s, text, id);
    AddToBucket(s.heap, s'.heap, s.strt, text, id);
    DescendingFrame(s.heap, s'.heap, s.openUpval);
  }

  /** The state before the table is resized. */
  function Chained(s: State, text: Text, id: Id): State {
    if s.strt == [] then s
    else
      var b := text.hash % |s.strt|;
      s.(heap := s.heap[id := Obj(s.white, false, Str(text))], strt := s.strt[b := [id] + s.strt[b]])
  }

  lemma ChainedKeepsInv(s: State, text: Text, id: Id)
    requires Inv(s) && id !in s.heap
    requires forall x :: x in s.strt[text.hash % |s.strt|] && IsStr(s.heap, x) ==> s.heap[x].body.text != text
    ensures Inv(Chained(s, text, id))
  {
    hide Lists, Closed, TriColor;
    var s' := Chained(s, text, id);
    StringsThere(s);
    AddStringLists(s, text, id);
    BoundsOf(s);
    NewObjectClosed(s, s', id, Str(text));
    if s.phase == Propagate {
      NewObjectTriColor(s, s', id, Str(text));
    } else if s.phase == SweepString || s.phase == Sweep {
      MainIsOld(s);
      InOpenOrRoot(s);
      forall i | 0 <= i < |s'.strt| && (s.phase == SweepString ==> i < s.sweepStrGc)
        ensures ListCurrent(s'.heap, s.white, s'.strt[i])
      {
        assert ListCurrent(s.heap, s.white, s.strt[i]);
      }
    }
  }

  lemma InOpenOrRoot(s: State)
    requires Lists(s)
    ensures forall x :: x in s.openUpval || x in s.rootGc ==> x in s.heap
  {
    hide StringsOk;
  }

  /** A string is found if it is there, condemned or not, and made if it is not; either way there
      is one object with that text, and it is alive. */
  lemma NewStringKeepsInv(s: State, text: Text, id: Id)
    requires Inv(s) && id !in s.heap
    ensures |s.strt| > 0
    ensures var (s', u) := NewString(s, text, id);
            && Inv(s') && Live(s', u) && IsStr(s'.heap, u) && s'.heap[u].body.text == text
            && (u == id <==> forall x :: IsStr(s.heap, x) ==> s.heap[x].body.text != text)
            && (forall x :: x in s.heap ==> x in s'.heap && s'.heap[x].body == s.heap[x].body && s'.heap[x].fixed == s.heap[x].fixed)
            && (forall x :: Live(s, x) ==> Live(s', x))
            && s'.roots == s.roots
  {
    hide Inv, ResizeStrings, StringCount;
    InvStringsOk(s);
    var list := s.strt[text.hash % |s.strt|];
    var i := FindText(s.heap, list, text);
    var (s', u) := NewString(s, text, id);
    if i < |list| {
      StringHasNoChildren(s, list[i]);
      ReviveKeepsInv(s, list[i]);
    } else {
      forall x | x in list && IsStr(s.heap, x)
        ensures s.heap[x].body.text != text
      {
        var k :| 0 <= k < |list| && list[k] == x;
      }
      forall x | IsStr(s.heap, x)
        ensures s.heap[x].body.text != text
      {
        assert x in s.strt[Bucket(s.heap, x, |s.strt|)];
      }
      ChainedKeepsInv(s, text, id);
      var s1 := Chained(s, text, id);
      ResizeStringsKeepsInv(s1, 2 * |s1.strt|);
      ResizeFrame(s1, 2 * |s1.strt|);
    }
  }

  lemma InvStringsOk(s: State)
    requires Inv(s)
    ensures StringsOk(s.heap, s.strt)
  {
  }

  lemma StringHasNoChildren(s: State, x: Id)
    requires IsStr(s.heap, x)
    ensures ChildrenLive(s, s.heap[x].body)
  {
  }

  lemma ResizeFrame(s: State, size: nat)
    ensures ResizeStrings(s, size) == s.(strt := ResizeStrings(s, size).strt)
  {
    hide MoveBuckets;
  }
}
