/**
 Runs: any interleaving of collector steps with what the program does, and the theorem that
 the collector never frees what the program can still reach.
 */
module GcRuns {
  import opened GcHeap
  import opened GcState
  import opened GcInvariant
  import opened GcCycle
  import opened GcCollection
  import opened GcExact
  import opened GcMutator
  import opened GcUpvalues

  /** A write to a table: `lua_setmetatable`, an array slot, the value of an entry, `newkey`
      putting a key into an entry without value, and the moves of a rehash. */
  datatype TableEdit =
    | SetMeta(v: Value)
    | SetArr(i: nat, v: Value)
    | SetVal(i: nat, v: Value)
    | NewKey(i: nat, v: Value)
    | Rearrange(arr: seq<Value>, node: seq<Node>)

  /** A write to any other object: metatable or environment of a userdata, a closed upvalue, the
      environment or an upvalue of a closure, a constant of a prototype. */
  datatype ObjectEdit =
    | SetUdataMeta(v: Value)
    | SetEnv(v: Value)
    | SetUpvalue(v: Value)
    | SetRef(i: nat, v: Value)
    | AddRef(v: Value)

  datatype Action =
    | Collect
    | CollectAll
    | NewObject(id: Id, body: Body)
    | MakeString(id: Id, text: Text)
    | Capture(closure: Id, level: nat, id: Id)
    | WriteTable(t: Id, te: TableEdit)
    | WriteObject(o: Id, oe: ObjectEdit)
    | Push(v: Value)
    | SetSlot(i: nat, v: Value)
    | SetGlobals(v: Value)
    | SetBasicMeta(i: nat, v: Value)
    | CloseFrom(level: nat)
    | Pop(n: nat)

  // ------------------------------------------------------------- what the program may do

  /** The program only handles values it can reach. */
  ghost predicate Accessible(s: State, v: Value) {
    v.Ref? ==> Needed(s, v.id)
  }

  function Edited(b: Body, e: TableEdit): Body
    requires b.Table?
  {
    match e
    case SetMeta(v) => b.(metatable := v)
    case SetArr(i, v) => if i < |b.arr| then b.(arr := b.arr[i := v]) else b
    case SetVal(i, v) => if i < |b.node| then b.(node := b.node[i := b.node[i].(val := v)]) else b
    case NewKey(i, k) => if i < |b.node| then b.(node := b.node[i := Node(k, false, Nil)]) else b
    case Rearrange(arr, node) => b.(arr := arr, node := node)
  }

  /** The value the barrier is about. */
  function Written(e: TableEdit): Value {
    if e.Rearrange? then Nil else e.v
  }

  ghost predicate EditOk(b: Body, e: TableEdit) {
    b.Table? &&
    match e
    case SetMeta(_) => true
    case SetArr(i, _) => i < |b.arr|
    case SetVal(i, _) => i < |b.node| && !b.node[i].dead
    case NewKey(i, _) => i < |b.node| && b.node[i].val == Nil
    case Rearrange(arr, node) =>
      forall c :: Ref(c) in arr || Ref(c) in NodeSlots(node) ==> Ref(c) in b.arr || Ref(c) in NodeSlots(b.node)
  }

  function EditedObject(b: Body, e: ObjectEdit): Body {
    match (b, e)
    case (Udata(_, env), SetUdataMeta(v)) => Udata(v, env)
    case (Udata(mt, _), SetEnv(v)) => Udata(mt, v)
    case (Closure(_, refs), SetEnv(v)) => Closure(v, refs)
    case (Upval(open, level, _), SetUpvalue(v)) => Upval(open, level, v)
    case (Closure(env, refs), SetRef(i, v)) => if i < |refs| then Closure(env, refs[i := v]) else b
    case (Proto(refs), SetRef(i, v)) => if i < |refs| then Proto(refs[i := v]) else b
    case (Proto(refs), AddRef(v)) => Proto(refs + [v])
    case _ => b
  }

  ghost predicate ObjectEditOk(b: Body, e: ObjectEdit) {
    match e
    case SetUdataMeta(_) => b.Udata?
    case SetEnv(_) => b.Udata? || b.Closure?
    case SetUpvalue(_) => b.Upval? && !b.open
    case SetRef(i, _) => (b.Closure? && i < |b.refs|) || (b.Proto? && i < |b.refs|)
    case AddRef(_) => b.Proto?
  }

  ghost predicate Enabled(s: State, a: Action) {
    match a
    case Collect => true
    case CollectAll => true
    case NewObject(id, body) =>
      id !in s.heap && Linkable(body) && forall v :: v in Slots(s.roots, body) ==> Accessible(s, v)
    case MakeString(id, _) => id !in s.heap
    case Capture(c, level, id) =>
      Needed(s, c) && c in s.heap && s.heap[c].body.Closure? && s.heap[c].color == s.white &&
      level < |s.roots.stack| && id !in s.heap
    case WriteTable(t, e) =>
      Needed(s, t) && t in s.heap && EditOk(s.heap[t].body, e) && Accessible(s, Written(e))
    case WriteObject(o, e) =>
      Needed(s, o) && o in s.heap && ObjectEditOk(s.heap[o].body, e) && Accessible(s, e.v)
    case Push(v) => Accessible(s, v)
    case SetSlot(i, v) => i < |s.roots.stack| && Accessible(s, v)
    case SetGlobals(v) => Accessible(s, v)
    case SetBasicMeta(i, v) => i < |s.mt| && Accessible(s, v)
    case CloseFrom(_) => true
    case Pop(n) => n <= |s.roots.stack|
  }

  function Pushed(s: State, v: Value): State {
    s.(roots := s.roots.(stack := s.roots.stack + [v]))
  }

  /** `setobj` and the barrier that goes with it. No collector step comes between the two, so
      their order does not show. */
  function Step(s: State, a: Action): State
    requires Inv(s) && Enabled(s, a)
  {
    InvStringsOk(s);
    match a
    case Collect => SingleStep(s)
    case CollectAll => FullGc(s)
    case NewObject(id, body) => Pushed(Link(s, id, body), Ref(id))
    case MakeString(id, text) => var (s1, u) := NewString(s, text, id); Pushed(s1, Ref(u))
    case Capture(c, level, id) =>
      var (s1, u) := FindUpval(s, level, id);
      if c !in s1.heap || !s1.heap[c].body.Closure? then s1
      else SetBody(s1, c, s1.heap[c].body.(refs := s1.heap[c].body.refs + [Ref(u)]))
    case WriteTable(t, e) =>
      SetBody(BarrierBack(s, t, Written(e)), t, Edited(s.heap[t].body, e))
    case WriteObject(o, e) =>
      BarrierShape(s, o, e.v);
      SetBody(Barrier(s, o, e.v), o, EditedObject(s.heap[o].body, e))
    case Push(v) => Pushed(s, v)
    case SetSlot(i, v) => s.(roots := s.roots.(stack := s.roots.stack[i := v]))
    case SetGlobals(v) => s.(roots := s.roots.(globals := v))
    case SetBasicMeta(i, v) => s.(mt := s.mt[i := v])
    case CloseFrom(level) => Close(s, level)
    case Pop(n) =>
      CloseRoots(s, n);
      var s1 := Close(s, n); s1.(roots := s1.roots.(stack := s1.roots.stack[..n]))
  }

  lemma BarrierShape(s: State, o: Id, v: Value)
    requires o in s.heap
    ensures o in Barrier(s, o, v).heap
  {
    MarkValueMarks(s.M(), s.roots, v);
  }

  lemma {:induction false} CloseRoots(s: State, level: nat)
    ensures Close(s, level).roots == s.roots
    decreases |s.openUpval|
  {
    if s.openUpval != [] && HasLevel(s.heap, s.openUpval[0]) && s.heap[s.openUpval[0]].body.level >= level {
      CloseOneShortens(s);
      CloseRoots(CloseOne(s), level);
    }
  }

  // ------------------------------------------------------------- what is reached is alive

  lemma {:induction false} NeededInReach(s: State, n: nat, x: Id)
    requires ReachIn(Tagged(s), n, x)
    ensures ReachIn(s, n, x)
  {
    if n == 0 {
      assert IsRoot(s, x);
    } else {
      var y :| ReachIn(Tagged(s), n - 1, y) && Refers(Tagged(s), y, x);
      NeededInReach(s, n - 1, y);
      ChildIsRead(s.roots, Traversed(s.heap[y].body), x);
      SameKindSlots(s.roots, s.heap[y].body, Traversed(s.heap[y].body), x);
      ChildIsRead(s.roots, s.heap[y].body, x);
      assert Refers(s, y, x);
    }
  }

  lemma NeededIsLive(s: State, x: Id)
    requires Inv(s) && Needed(s, x)
    ensures Live(s, x)
  {
    hide Lists, PhaseInv, UpvalsNotBlack;
    NeededIs(s, x);
    var n: nat :| ReachIn(Tagged(s), n, x);
    NeededInReach(s, n, x);
    ReachInLive(s, n, x);
  }

  lemma AccessibleIsLive(s: State, v: Value)
    requires Inv(s) && Accessible(s, v)
    ensures ValueLive(s, v)
  {
    hide Inv;
    if v.Ref? {
      NeededIsLive(s, v.id);
    }
  }

  // ------------------------------------------------------------- every action keeps the invariant

  lemma StackLive(s: State)
    requires Inv(s)
    ensures ValueLive(s, s.roots.globals) && forall v :: v in s.roots.stack ==> ValueLive(s, v)
    ensures forall x :: x in s.openUpval && HasLevel(s.heap, x) ==> s.heap[x].body.level < |s.roots.stack|
  {
    hide StringsOk, RootListOk, Descending, PhaseInv;
    forall v | v in [s.roots.globals] + s.roots.stack
      ensures ValueLive(s, v)
    {
      if v.Ref? {
        assert Child(s.roots, s.heap[s.main].body, v.id);
      }
    }
    assert s.roots.globals in [s.roots.globals] + s.roots.stack;
  }

  lemma PushKeepsInv(s: State, v: Value)
    requires Inv(s) && ValueLive(s, v)
    ensures Inv(Pushed(s, v))
  {
    hide Inv;
    StackLive(s);
    RootsChangeKeepsInv(s, Pushed(s, v).roots);
  }

  lemma NewObjectKeepsInv(s: State, id: Id, body: Body)
    requires Inv(s) && Enabled(s, NewObject(id, body))
    ensures var s' := Step(s, NewObject(id, body));
            Inv(s') && forall x :: x in s.heap ==> x in s'.heap && s'.heap[x] == s.heap[x]
  {
    hide Inv, Accessible;
    forall c | Child(s.roots, body, c)
      ensures Live(s, c)
    {
      AccessibleIsLive(s, Ref(c));
    }
    assert ChildrenLive(s, body);
    LinkKeepsInv(s, id, body);
    PushKeepsInv(Link(s, id, body), Ref(id));
  }

  lemma MakeStringKeepsInv(s: State, id: Id, text: Text)
    requires Inv(s) && id !in s.heap
    ensures |s.strt| > 0
    ensures var (s1, u) := NewString(s, text, id);
            Inv(Pushed(s1, Ref(u))) && forall x :: x in s.heap ==> x in s1.heap && s1.heap[x].body == s.heap[x].body
  {
    hide Inv, NewString;
    NewStringKeepsInv(s, text, id);
    var (s1, u) := NewString(s, text, id);
    PushKeepsInv(s1, Ref(u));
  }

  lemma CaptureKeepsInv(s: State, c: Id, level: nat, id: Id)
    requires Inv(s) && Enabled(s, Capture(c, level, id))
    ensures var s' := Step(s, Capture(c, level, id));
            Inv(s') && forall x :: x in s.heap ==> x in s'.heap
  {
    hide Inv, FindUpval, Needed;
    var (s1, u) := FindUpval(s, level, id);
    FindUpvalKeepsInv(s, level, id);
    NeededIsLive(s, c);
    CaptureWhite(s, c, level, id);
    var b := s1.heap[c].body.(refs := s1.heap[c].body.refs + [Ref(u)]);
    forall x | Child(s1.roots, b, x)
      ensures Live(s1, x)
    {
      if x != u {
        assert Ref(x) in b.refs ==> Ref(x) in s.heap[c].body.refs;
        assert Child(s.roots, s.heap[c].body, x);
        ChildIsLive(s, c, x);
      }
    }
    assert ChildrenLive(s1, b);
    SetBodyKeepsInv(s1, c, b);
  }

  lemma ChildIsLive(s: State, o: Id, c: Id)
    requires Inv(s) && Live(s, o) && Child(s.roots, s.heap[o].body, c)
    ensures Live(s, c)
  {
    hide Lists, PhaseInv, UpvalsNotBlack;
  }

  /** Capturing leaves the closure as white as it was. */
  lemma CaptureWhite(s: State, c: Id, level: nat, id: Id)
    requires c in s.heap && s.heap[c].color == s.white && id != c
    ensures var (s1, u) := FindUpval(s, level, id);
            c in s1.heap && s1.heap[c].color != Black
  {
    hide FindOpen, IsOpenAt;
  }

  // ------------------------------------------------------------- writes

  lemma {:induction false} NodeSlotsUpdate(node: seq<Node>, i: nat, n: Node, v: Value)
    requires i < |node| && v in NodeSlots(node[i := n])
    ensures v in NodeSlots(node) || v == n.val || (!n.dead && v == n.key)
    decreases |node|
  {
    var u := node[i := n];
    if i > 0 {
      assert u[0] == node[0] && u[1..] == node[1..][i - 1 := n];
      if v in NodeSlots(u[1..]) {
        NodeSlotsUpdate(node[1..], i - 1, n, v);
      }
    } else {
      assert u[0] == n && u[1..] == node[1..];
    }
  }

  lemma {:induction false} NodeSlotsAt(node: seq<Node>, i: nat)
    requires i < |node|
    ensures node[i].val in NodeSlots(node) && (!node[i].dead ==> node[i].key in NodeSlots(node))
    decreases |node|
  {
    if i > 0 {
      NodeSlotsAt(node[1..], i - 1);
    }
  }

  /** After a write a table refers to nothing but what it referred to and the value written. */
  lemma EditedSlots(r: Roots, b: Body, e: TableEdit, c: Id)
    requires EditOk(b, e) && Child(r, Edited(b, e), c)
    ensures Child(r, b, c) || Written(e) == Ref(c)
  {
    match e {
      case SetVal(i, v) =>
        NodeSlotsAt(b.node, i);
        if Ref(c) in NodeSlots(Edited(b, e).node) {
          NodeSlotsUpdate(b.node, i, b.node[i].(val := v), Ref(c));
        }
      case NewKey(i, k) =>
        if Ref(c) in NodeSlots(Edited(b, e).node) {
          NodeSlotsUpdate(b.node, i, Node(k, false, Nil), Ref(c));
        }
      case _ =>
    }
  }

  lemma EditedObjectSlots(r: Roots, b: Body, e: ObjectEdit, c: Id)
    requires ObjectEditOk(b, e) && Child(r, EditedObject(b, e), c)
    ensures Child(r, b, c) || e.v == Ref(c)
    ensures SameSort(b, EditedObject(b, e))
  {
  }

  lemma EditedObjectSort(b: Body, e: ObjectEdit)
    requires ObjectEditOk(b, e)
    ensures SameSort(b, EditedObject(b, e))
  {
  }

  /** A body whose children are old children or a value that is alive, and marked if the owner is
      black, can be written. */
  lemma WriteKeepsInv(s: State, o: Id, b: Body, v: Value)
    requires Inv(s) && Live(s, o) && SameSort(s.heap[o].body, b) && ValueLive(s, v)
    requires s.phase == Propagate && s.heap[o].color == Black && v.Ref? ==> Marked(s.heap, v.id)
    requires forall c {:trigger Child(s.roots, b, c)} :: Child(s.roots, b, c) ==> Child(s.roots, s.heap[o].body, c) || v == Ref(c)
    ensures Inv(SetBody(s, o, b))
  {
    hide Inv;
    forall c | Child(s.roots, b, c)
      ensures Live(s, c)
    {
      if v != Ref(c) {
        ChildIsLive(s, o, c);
      }
    }
    assert ChildrenLive(s, b);
    if s.phase == Propagate && s.heap[o].color == Black {
      forall c | Child(s.roots, b, c) && c in s.heap
        ensures Marked(s.heap, c)
      {
        if v != Ref(c) {
          BlackChildMarked(s, o, c);
        }
      }
    }
    SetBodyKeepsInv(s, o, b);
  }

  lemma BlackChildMarked(s: State, o: Id, c: Id)
    requires Inv(s) && s.phase == Propagate && o in s.heap && s.heap[o].color == Black
    requires Child(s.roots, s.heap[o].body, c) && c in s.heap
    ensures Marked(s.heap, c)
  {
    hide Lists, Closed;
    assert ColorOk(s, o);
  }

  lemma WriteTableKeepsInv(s: State, t: Id, e: TableEdit)
    requires Inv(s) && Enabled(s, WriteTable(t, e))
    ensures var s' := Step(s, WriteTable(t, e));
            Inv(s') && s'.heap.Keys == s.heap.Keys
  {
    hide Inv, Needed, Edited, EditOk;
    var v := Written(e);
    NeededIsLive(s, t);
    AccessibleIsLive(s, v);
    TableOf(s.heap[t].body, e);
    BarrierBackKeepsInv(s, t, v);
    var s1 := BarrierBack(s, t, v);
    forall c | Child(s1.roots, Edited(s.heap[t].body, e), c)
      ensures Child(s1.roots, s1.heap[t].body, c) || v == Ref(c)
    {
      EditedSlots(s.roots, s.heap[t].body, e, c);
    }
    WriteKeepsInv(s1, t, Edited(s.heap[t].body, e), v);
  }

  lemma TableOf(b: Body, e: TableEdit)
    requires EditOk(b, e)
    ensures b.Table? && SameSort(b, Edited(b, e))
  {
  }

  lemma BarrierFrame(s: State, o: Id, v: Value)
    requires o in s.heap
    ensures Barrier(s, o, v).roots == s.roots && Barrier(s, o, v).phase == s.phase
  {
  }

  lemma WriteObjectKeepsInv(s: State, o: Id, e: ObjectEdit)
    requires Inv(s) && Enabled(s, WriteObject(o, e))
    ensures var s' := Step(s, WriteObject(o, e));
            Inv(s') && s'.heap.Keys == s.heap.Keys
  {
    hide Inv, Needed, EditedObject, ObjectEditOk, Barrier;
    NeededIsLive(s, o);
    AccessibleIsLive(s, e.v);
    BarrierKeepsInv(s, o, e.v);
    BarrierFrame(s, o, e.v);
    var s1 := Barrier(s, o, e.v);
    EditedObjectSort(s.heap[o].body, e);
    forall c | Child(s1.roots, EditedObject(s.heap[o].body, e), c)
      ensures Child(s1.roots, s1.heap[o].body, c) || e.v == Ref(c)
    {
      EditedObjectSlots(s.roots, s.heap[o].body, e, c);
    }
    WriteKeepsInv(s1, o, EditedObject(s.heap[o].body, e), e.v);
  }

  lemma PopKeepsInv(s: State, n: nat)
    requires Inv(s) && n <= |s.roots.stack|
    ensures var s' := Step(s, Pop(n));
            Inv(s') && forall x :: x in s.heap && x !in s'.heap ==> Garbage(s.heap, s.white, x)
  {
    hide Inv, Close;
    CloseRoots(s, n);
    CloseKeepsInv(s, n);
    var s1 := Close(s, n);
    StackLive(s1);
    LowOpen(s, s1, n);
    RootsChangeKeepsInv(s1, s1.roots.(stack := s1.roots.stack[..n]));
  }

  lemma LowOpen(s: State, s1: State, n: nat)
    requires Inv(s) && Inv(s1) && ClosedThem(s, s1, OpenFrom(s, n))
    requires forall x :: x in s1.openUpval <==> x in s.openUpval && HasLevel(s.heap, x) && s.heap[x].body.level < n
    ensures forall x :: x in s1.openUpval && HasLevel(s1.heap, x) ==> s1.heap[x].body.level < n
  {
    hide Inv;
  }

  // ------------------------------------------------------------- the theorem

  /** Every action, collector step or not, keeps the invariant, and no action frees an object
      that can still be reached. */
  lemma StepSafe(s: State, a: Action)
    requires Inv(s) && Enabled(s, a)
    ensures Inv(Step(s, a))
    ensures forall x :: Needed(s, x) ==> x in s.heap && x in Step(s, a).heap
  {
    hide Inv, Needed, SingleStep, FullGc, StepOk, Link, NewString;
    forall x | Needed(s, x)
      ensures Live(s, x)
    {
      NeededIsLive(s, x);
    }
    match a {
      case Collect =>
        SingleStepKeepsInv(s);
        StepOkKeepsLive(s, SingleStep(s));
      case CollectAll =>
        forall x | Needed(s, x)
          ensures x in FullGc(s).heap
        {
          FullGcExact(s, x);
        }
      case NewObject(id, body) => NewObjectKeepsInv(s, id, body);
      case MakeString(id, text) => MakeStringKeepsInv(s, id, text);
      case Capture(c, level, id) => CaptureKeepsInv(s, c, level, id);
      case WriteTable(t, e) => WriteTableKeepsInv(s, t, e);
      case WriteObject(o, e) => WriteObjectKeepsInv(s, o, e);
      case Push(v) =>
        AccessibleIsLive(s, v);
        PushKeepsInv(s, v);
      case SetSlot(i, v) =>
        AccessibleIsLive(s, v);
        StackLive(s);
        RootsChangeKeepsInv(s, s.roots.(stack := s.roots.stack[i := v]));
      case SetGlobals(v) =>
        AccessibleIsLive(s, v);
        StackLive(s);
        RootsChangeKeepsInv(s, s.roots.(globals := v));
      case SetBasicMeta(i, v) =>
        AccessibleIsLive(s, v);
        BasicMetatableKeepsInv(s, i, v);
      case CloseFrom(level) => CloseKeepsInv(s, level);
      case Pop(n) => PopKeepsInv(s, n);
    }
  }

  lemma StepOkKeepsLive(s: State, s': State)
    requires StepOk(s, s')
    ensures forall x :: Live(s, x) ==> x in s'.heap
  {
  }

  ghost predicate ValidRun(s: State, run: seq<Action>)
    requires Inv(s)
    decreases |run|
  {
    run != [] ==>
      Enabled(s, run[0]) && (StepSafe(s, run[0]); ValidRun(Step(s, run[0]), run[1..]))
  }

  ghost function After(s: State, run: seq<Action>, n: nat): State
    requires Inv(s) && ValidRun(s, run) && n <= |run|
    ensures Inv(After(s, run, n))
    decreases n
  {
    if n == 0 then s
    else
      StepSafe(s, run[0]);
      After(Step(s, run[0]), run[1..], n - 1)
  }

  /** Over every run, from every state that satisfies the invariant: an object that the program
      can reach at some moment exists then and is still there after the next action. */
  lemma {:induction false} RunSafe(s: State, run: seq<Action>, n: nat, x: Id)
    requires Inv(s) && ValidRun(s, run) && n < |run|
    requires Needed(After(s, run, n), x)
    ensures x in After(s, run, n).heap && x in After(s, run, n + 1).heap
    decreases n
  {
    hide Inv, Needed, Step, Enabled;
    StepSafe(s, run[0]);
    if n > 0 {
      RunSafe(Step(s, run[0]), run[1..], n - 1, x);
    }
  }

  /** `lua_newstate`, with the registry and the table of globals: the state every run starts from. */
  function Initial(registry: Id, globals: Id, main: Id, buckets: nat, types: nat): State
    requires registry != globals && registry != main && globals != main && buckets > 0
  {
    State(map[main := Obj(White0, true, Thread), registry := Obj(White0, false, Table(Nil, [], [])),
              globals := Obj(White0, false, Table(Nil, [], []))],
          White0, Pause, [], [], [registry, globals, main], 0, EmptyBuckets(buckets), 0, main, Ref(registry),
          seq(types, _ => Nil), Roots(Ref(globals), []), [], [])
  }

  lemma NoStringsOk(h: Heap, strt: seq<seq<Id>>)
    requires strt != [] && (forall i :: 0 <= i < |strt| ==> strt[i] == []) && forall x :: !IsStr(h, x)
    ensures StringsOk(h, strt)
  {
    forall i | 0 <= i < |strt|
      ensures BucketOk(h, strt[i], i, |strt|)
    {
    }
  }

  lemma InitialLists(registry: Id, globals: Id, main: Id, buckets: nat, types: nat)
    requires registry != globals && registry != main && globals != main && buckets > 0
    ensures Lists(Initial(registry, globals, main, buckets, types))
  {
    hide StringsOk;
    var s := Initial(registry, globals, main, buckets, types);
    NoStringsOk(s.heap, s.strt);
    assert RootListOk(s.heap, s.rootGc);
  }

  lemma InitialClosed(registry: Id, globals: Id, main: Id, buckets: nat, types: nat)
    requires registry != globals && registry != main && globals != main && buckets > 0
    ensures Closed(Initial(registry, globals, main, buckets, types))
  {
    var s := Initial(registry, globals, main, buckets, types);
    forall x, c | Live(s, x) && Child(s.roots, s.heap[x].body, c)
      ensures Live(s, c)
    {
      assert NodeSlots([]) == [];
    }
  }

  lemma InitialInv(registry: Id, globals: Id, main: Id, buckets: nat, types: nat)
    requires registry != globals && registry != main && globals != main && buckets > 0
    ensures Inv(Initial(registry, globals, main, buckets, types))
  {
    hide Lists, Closed;
    InitialLists(registry, globals, main, buckets, types);
    InitialClosed(registry, globals, main, buckets, types);
  }
}
