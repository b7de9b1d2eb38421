/**
 What the actions of the program do, in terms of what can be read afterwards: a store is seen in the
 field that was written and in no other, and what is pushed is on the stack.
 */
module GcEffects {
  import opened GcHeap
  import opened GcState
  import opened GcInvariant
  import opened GcExact
  import opened GcMutator
  import opened GcUpvalues
  import opened GcRuns

  /** What can be read from an object that the program can get at, the program can get at. */
  lemma ReadIsAccessible(s: State, o: Id, a: Access, v: Value)
    requires Needed(s, o) && o in s.heap && Shown(s.heap[o].body, a) && Reads(s.roots, s.heap[o].body, a, v)
    ensures Accessible(s, v)
  {
    if v.Ref? {
      var n: nat :| NeededIn(s, n, o);
      assert ShowsRef(s.roots, s.heap[o].body, v.id);
      assert Shows(s, o, v.id);
      assert NeededIn(s, n + 1, v.id);
    }
  }

  // ------------------------------------------------------------- stores

  /** The field that a write to a table is about. */
  function PlaceOf(e: TableEdit): Access
    requires !e.Rearrange?
  {
    match e
    case SetMeta(_) => MetatableOf
    case SetArr(i, _) => ArraySlot(i)
    case SetVal(i, _) => EntryValue(i)
    case NewKey(i, _) => EntryKey(i)
  }

  /** And a write to another object. */
  function PlaceIn(b: Body, e: ObjectEdit): Access {
    match e
    case SetUdataMeta(_) => MetatableOf
    case SetEnv(_) => EnvironmentOf
    case SetUpvalue(_) => CellValue
    case SetRef(i, _) => Reference(i)
    case AddRef(_) => Reference(if b.Proto? then |b.refs| else 0)
  }

  /** From object `o`, and only from it, the access `at` gives `v`; all else reads as before. */
  ghost predicate Stored(s: State, s': State, o: Id, at: Access, v: Value) {
    && s'.heap.Keys == s.heap.Keys
    && forall x, a, w {:trigger Reads(s'.roots, s'.heap[x].body, a, w)} :: x in s.heap ==>
         (Reads(s'.roots, s'.heap[x].body, a, w) <==>
          if x == o && a == at then w == v else Reads(s.roots, s.heap[x].body, a, w))
  }

  lemma EditedReads(r: Roots, b: Body, e: TableEdit, a: Access, w: Value)
    requires EditOk(b, e) && !e.Rearrange?
    ensures Reads(r, Edited(b, e), a, w) <==> if a == PlaceOf(e) then w == e.v else Reads(r, b, a, w)
  {
  }

  lemma EditedObjectReads(r: Roots, b: Body, e: ObjectEdit, a: Access, w: Value)
    requires ObjectEditOk(b, e)
    ensures Reads(r, EditedObject(b, e), a, w) <==> if a == PlaceIn(b, e) then w == e.v else Reads(r, b, a, w)
  {
  }

  /** The objects have the same bodies, but for one. */
  lemma BodyIsStored(s: State, s': State, o: Id, b: Body, at: Access, v: Value)
    requires o in s.heap && s'.heap.Keys == s.heap.Keys && s'.roots == s.roots && s'.heap[o].body == b
    requires forall x :: x in s.heap && x != o ==> s'.heap[x].body == s.heap[x].body
    requires forall a, w :: Reads(s.roots, b, a, w) <==> if a == at then w == v else Reads(s.roots, s.heap[o].body, a, w)
    ensures Stored(s, s', o, at, v)
  {
    hide Reads;
  }

  /** A store into a table: the field that was written has the value, and everything else that can be
      read from any object is as it was. */
  lemma TableStores(s: State, t: Id, e: TableEdit)
    requires Inv(s) && Enabled(s, WriteTable(t, e)) && !e.Rearrange?
    ensures Stored(s, Step(s, WriteTable(t, e)), t, PlaceOf(e), e.v)
  {
    hide Inv, Needed, Edited, EditOk, Reads, Stored;
    NeededIsLive(s, t);
    AccessibleIsLive(s, Written(e));
    TableOf(s.heap[t].body, e);
    BarrierBackKeepsInv(s, t, Written(e));
    BarrierBackFrame(s, t, Written(e));
    forall a, w
      ensures Reads(s.roots, Edited(s.heap[t].body, e), a, w) <==> if a == PlaceOf(e) then w == e.v else Reads(s.roots, s.heap[t].body, a, w)
    {
      EditedReads(s.roots, s.heap[t].body, e, a, w);
    }
    BodyIsStored(s, Step(s, WriteTable(t, e)), t, Edited(s.heap[t].body, e), PlaceOf(e), e.v);
  }

  lemma BarrierBackFrame(s: State, t: Id, v: Value)
    requires t in s.heap
    ensures BarrierBack(s, t, v).roots == s.roots
  {
  }

  /** The same for userdata, closed upvalues, closures and prototypes. */
  lemma ObjectStores(s: State, o: Id, e: ObjectEdit)
    requires Inv(s) && Enabled(s, WriteObject(o, e))
    ensures Stored(s, Step(s, WriteObject(o, e)), o, PlaceIn(s.heap[o].body, e), e.v)
  {
    hide Inv, Needed, EditedObject, ObjectEditOk, Barrier, Reads, Stored;
    NeededIsLive(s, o);
    AccessibleIsLive(s, e.v);
    BarrierKeepsInv(s, o, e.v);
    BarrierFrame(s, o, e.v);
    var b := s.heap[o].body;
    forall a, w
      ensures Reads(s.roots, EditedObject(b, e), a, w) <==> if a == PlaceIn(b, e) then w == e.v else Reads(s.roots, b, a, w)
    {
      EditedObjectReads(s.roots, b, e, a, w);
    }
    BodyIsStored(s, Step(s, WriteObject(o, e)), o, EditedObject(b, e), PlaceIn(b, e), e.v);
  }

  // ------------------------------------------------------------- the stack and the other roots

  lemma OpenBelow(s: State, x: Id)
    requires Inv(s) && x in s.heap && s.heap[x].body.OpenUpval()
    ensures s.heap[x].body.level < |s.roots.stack|
  {
    hide StringsOk, RootListOk, Descending, PhaseInv, Closed;
  }

  lemma MainIsThread(s: State)
    requires Inv(s)
    ensures s.main in s.heap && forall x :: x in s.heap ==> (s.heap[x].body.Thread? <==> x == s.main)
  {
    hide StringsOk, RootListOk, Descending, PhaseInv, Closed;
  }

  /** A value that is pushed is on top of the stack, and nothing else changes. */
  lemma PushStores(s: State, v: Value)
    requires Inv(s) && Enabled(s, Push(v))
    ensures Stored(s, Step(s, Push(v)), s.main, StackSlot(|s.roots.stack|), v)
  {
    hide Inv, Needed;
    MainIsThread(s);
    forall x | x in s.heap && s.heap[x].body.OpenUpval()
      ensures s.heap[x].body.level < |s.roots.stack|
    {
      OpenBelow(s, x);
    }
  }

  lemma SetGlobalsStores(s: State, v: Value)
    requires Inv(s) && Enabled(s, SetGlobals(v))
    ensures Stored(s, Step(s, SetGlobals(v)), s.main, GlobalTable, v)
  {
    hide Inv, Needed;
    MainIsThread(s);
  }

  /** A stack slot that is assigned to has the value; so has the open upvalue of this slot, which is
      how closures share the variable. */
  lemma SetSlotStores(s: State, i: nat, v: Value, x: Id, a: Access, w: Value)
    requires Inv(s) && Enabled(s, SetSlot(i, v)) && x in s.heap
    ensures var s' := Step(s, SetSlot(i, v));
            && s'.heap == s.heap
            && (Reads(s'.roots, s'.heap[x].body, a, w) <==>
                if (x == s.main && a == StackSlot(i)) || (a == CellValue && s.heap[x].body.OpenUpval() && s.heap[x].body.level == i) then w == v
                else Reads(s.roots, s.heap[x].body, a, w))
  {
    hide Inv, Needed;
    MainIsThread(s);
  }

  /** What is on the stack can be got at. */
  lemma OnStackIsNeeded(s: State, i: nat)
    requires Inv(s) && i < |s.roots.stack|
    ensures Accessible(s, s.roots.stack[i])
  {
    hide Inv;
    MainIsThread(s);
    assert NeededIn(s, 0, s.main);
    ReadIsAccessible(s, s.main, StackSlot(i), s.roots.stack[i]);
  }

  /** A new object has the contents that were asked for and is on top of the stack. */
  lemma NewObjectAppears(s: State, id: Id, body: Body)
    requires Inv(s) && Enabled(s, NewObject(id, body))
    ensures var s' := Step(s, NewObject(id, body));
            && id in s'.heap && s'.heap[id].body == body && s'.roots.stack == s.roots.stack + [Ref(id)] && Needed(s', id)
            && forall x :: x in s.heap ==> x in s'.heap && s'.heap[x] == s.heap[x]
  {
    hide Inv, Needed, Accessible;
    NewObjectKeepsInv(s, id, body);
    var s' := Step(s, NewObject(id, body));
    OnStackIsNeeded(s', |s.roots.stack|);
    PushedRef(s', |s.roots.stack|, id);
  }

  lemma PushedRef(s: State, i: nat, id: Id)
    requires i < |s.roots.stack| && s.roots.stack[i] == Ref(id) && Accessible(s, s.roots.stack[i])
    ensures Needed(s, id)
  {
    hide Needed;
  }

  /** A string with the text is on top of the stack: the one there was, or a new one. */
  lemma MakeStringAppears(s: State, id: Id, text: Text)
    requires Inv(s) && Enabled(s, MakeString(id, text))
    ensures var s' := Step(s, MakeString(id, text));
            && |s'.roots.stack| == |s.roots.stack| + 1 && s'.roots.stack[..|s.roots.stack|] == s.roots.stack
            && var v := s'.roots.stack[|s.roots.stack|];
               && v.Ref? && IsStr(s'.heap, v.id) && TextOf(s'.heap, v.id) == text && Needed(s', v.id)
               && (v.id in s.heap <==> exists x :: IsStr(s.heap, x) && TextOf(s.heap, x) == text)
  {
    hide Inv, Needed, Accessible, NewString;
    MakeStringKeepsInv(s, id, text);
    NewStringKeepsInv(s, text, id);
    var (s1, u) := NewString(s, text, id);
    var s' := Step(s, MakeString(id, text));
    assert s' == Pushed(s1, Ref(u)) && s'.roots.stack[|s.roots.stack|] == Ref(u);
    OnStackIsNeeded(s', |s.roots.stack|);
    PushedRef(s', |s.roots.stack|, u);
    if x :| IsStr(s.heap, x) && TextOf(s.heap, x) == text {
      assert u != id;
      assert u in s.heap by {
        NewStringIs(s, text, id);
      }
    }
    if u in s.heap {
      assert IsStr(s.heap, u) && TextOf(s.heap, u) == text;
    }
  }

  lemma NewStringIs(s: State, text: Text, id: Id)
    requires Inv(s) && |s.strt| > 0 && NewString(s, text, id).1 != id
    ensures NewString(s, text, id).1 in s.heap
  {
    hide Lists, Closed, PhaseInv;
    InvStringsOk(s);
    var list := s.strt[text.hash % |s.strt|];
    assert BucketOk(s.heap, list, text.hash % |s.strt|, |s.strt|);
  }

  /** A captured variable: the closure refers to a cell that reads the stack slot. */
  lemma CaptureShares(s: State, c: Id, level: nat, id: Id)
    requires Inv(s) && Enabled(s, Capture(c, level, id))
    ensures var s' := Step(s, Capture(c, level, id));
            && c in s'.heap && s'.heap[c].body.Closure? && s'.heap[c].body.refs != []
            && var v := s'.heap[c].body.refs[|s'.heap[c].body.refs| - 1];
               v.Ref? && v.id in s'.heap && Reads(s'.roots, s'.heap[v.id].body, CellValue, s.roots.stack[level])
  {
    hide Inv, FindUpval, Needed;
    FindUpvalKeepsInv(s, level, id);
  }
}
