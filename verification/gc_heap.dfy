/**
 The collected heap of a Lua state: objects, their colours, the references they
 hold, and the marking of everything an object refers to (lgc.c).
 */
module GcHeap {
  import opened Sequences

  type Id = nat

  /** A tagged value. Only `Ref` is collectable. */
  datatype Value = Nil | Plain(n: int) | Ref(id: Id)

  /** The three colours, with white split in two: see the bit layout in lgc.h. */
  datatype Color = White0 | White1 | Gray | Black {
    predicate IsWhite() {
      White0? || White1?
    }
  }

  /** `otherwhite`. */
  function Other(white: Color): Color
    requires white.IsWhite()
  {
    if white.White0? then White1 else White0
  }

  /** A hash node of a table. `dead` is the LUA_TDEADKEY tag: the key no longer counts as a reference. */
  datatype Node = Node(key: Value, dead: bool, val: Value)

  /** The characters of a string with the hash that luaS_newlstr computed from them. */
  datatype Text = Text(chars: string, hash: nat)

  datatype Body =
    | Str(text: Text)
    | Udata(metatable: Value, env: Value)
    | Upval(open: bool, level: nat, value: Value)
    | Closure(env: Value, refs: seq<Value>)
    | Table(metatable: Value, arr: seq<Value>, node: seq<Node>)
    | Proto(refs: seq<Value>)
    | Thread
  {
    /** Objects that wait for their traversal on one of the gray lists. */
    predicate Traversable() {
      Closure? || Table? || Proto? || Thread?
    }

    predicate OpenUpval() {
      Upval? && open
    }
  }

  datatype Obj = Obj(color: Color, fixed: bool, body: Body)

  type Heap = map<Id, Obj>

  /** What the main thread itself refers to: its global table and its stack. */
  datatype Roots = Roots(globals: Value, stack: seq<Value>)

  function NodeSlots(node: seq<Node>): seq<Value> {
    if node == [] then []
    else (if node[0].dead then [] else [node[0].key]) + [node[0].val] + NodeSlots(node[1..])
  }

  /** The values an object refers to. An open upvalue reads its stack slot. */
  function Slots(r: Roots, b: Body): seq<Value> {
    match b
    case Str(_) => []
    case Udata(mt, env) => [mt, env]
    case Upval(open, level, v) =>
      if !open then [v] else if level < |r.stack| then [r.stack[level]] else []
    case Closure(env, refs) => [env] + refs
    case Table(mt, arr, node) => [mt] + arr + NodeSlots(node)
    case Proto(refs) => refs
    case Thread => [r.globals] + r.stack
  }

  ghost predicate Child(r: Roots, b: Body, c: Id) {
    Ref(c) in Slots(r, b)
  }

  // ---------------------------------------------------------------- what can be read from an object

  /** One field or slot of an object. */
  datatype Access =
    | MetatableOf
    | EnvironmentOf
    | CellValue          // of an upvalue, open or closed
    | Reference(i: nat)  // an upvalue of a closure and its prototype, a constant, name or prototype of a prototype
    | ArraySlot(i: nat)
    | EntryKey(i: nat)
    | EntryValue(i: nat)
    | GlobalTable
    | StackSlot(i: nat)

  /** The access gives the value `v`. A dead key is no value. */
  predicate Reads(r: Roots, b: Body, a: Access, v: Value) {
    match a
    case MetatableOf => (b.Udata? || b.Table?) && v == b.metatable
    case EnvironmentOf => (b.Udata? || b.Closure?) && v == b.env
    case CellValue => b.Upval? && if b.open then b.level < |r.stack| && v == r.stack[b.level] else v == b.value
    case Reference(i) => (b.Closure? || b.Proto?) && i < |b.refs| && v == b.refs[i]
    case ArraySlot(i) => b.Table? && i < |b.arr| && v == b.arr[i]
    case EntryKey(i) => b.Table? && i < |b.node| && !b.node[i].dead && v == b.node[i].key
    case EntryValue(i) => b.Table? && i < |b.node| && v == b.node[i].val
    case GlobalTable => b.Thread? && v == r.globals
    case StackSlot(i) => b.Thread? && i < |r.stack| && v == r.stack[i]
  }

  /** The key of an entry without a value is there, but no traversal of the table gives it. */
  predicate Shown(b: Body, a: Access) {
    a.EntryKey? && b.Table? && a.i < |b.node| ==> !b.node[a.i].val.Nil?
  }

  /** Some access gives a reference to `c`. */
  ghost predicate LeadsTo(r: Roots, b: Body, c: Id) {
    exists a :: Reads(r, b, a, Ref(c))
  }

  ghost predicate ShowsRef(r: Roots, b: Body, c: Id) {
    exists a :: Shown(b, a) && Reads(r, b, a, Ref(c))
  }

  lemma {:induction false} NodeSlotsAre(node: seq<Node>, v: Value)
    ensures v in NodeSlots(node) <==> exists i :: 0 <= i < |node| && (node[i].val == v || (!node[i].dead && node[i].key == v))
    decreases |node|
  {
    if node != [] {
      NodeSlotsAre(node[1..], v);
      if i :| 0 <= i < |node[1..]| && (node[1..][i].val == v || (!node[1..][i].dead && node[1..][i].key == v)) {
        assert node[i + 1] == node[1..][i];
      }
      if i :| 0 <= i < |node| && (node[i].val == v || (!node[i].dead && node[i].key == v)) && v !in [node[0].key, node[0].val] {
        assert i > 0 && node[1..][i - 1] == node[i];
      }
    }
  }

  /** What the collector marks from an object is what can be read from it, field by field. */
  lemma ChildIsRead(r: Roots, b: Body, c: Id)
    ensures Child(r, b, c) <==> LeadsTo(r, b, c)
  {
    if Child(r, b, c) {
      ChildHasAccess(r, b, c);
    }
    if a :| Reads(r, b, a, Ref(c)) {
      AccessIsChild(r, b, a, c);
    }
  }

  lemma ChildHasAccess(r: Roots, b: Body, c: Id)
    requires Child(r, b, c)
    ensures LeadsTo(r, b, c)
  {
    var v := Ref(c);
    match b {
      case Udata(mt, env) =>
        assert Reads(r, b, if mt == v then MetatableOf else EnvironmentOf, v);
      case Upval(_, _, _) =>
        assert Reads(r, b, CellValue, v);
      case Closure(env, refs) =>
        if env == v {
          assert Reads(r, b, EnvironmentOf, v);
        } else {
          var i :| 0 <= i < |refs| && refs[i] == v;
          assert Reads(r, b, Reference(i), v);
        }
      case Table(mt, arr, node) =>
        TableHasAccess(r, b, c);
      case Proto(refs) =>
        var i :| 0 <= i < |refs| && refs[i] == v;
        assert Reads(r, b, Reference(i), v);
      case Thread =>
        if r.globals == v {
          assert Reads(r, b, GlobalTable, v);
        } else {
          var i :| 0 <= i < |r.stack| && r.stack[i] == v;
          assert Reads(r, b, StackSlot(i), v);
        }
      case _ =>
    }
  }

  lemma TableHasAccess(r: Roots, b: Body, c: Id)
    requires b.Table? && Child(r, b, c)
    ensures LeadsTo(r, b, c)
  {
    var v := Ref(c);
    NodeSlotsAre(b.node, v);
    if b.metatable == v {
      assert Reads(r, b, MetatableOf, v);
    } else if v in b.arr {
      var i :| 0 <= i < |b.arr| && b.arr[i] == v;
      assert Reads(r, b, ArraySlot(i), v);
    } else {
      var i :| 0 <= i < |b.node| && (b.node[i].val == v || (!b.node[i].dead && b.node[i].key == v));
      assert Reads(r, b, if b.node[i].val == v then EntryValue(i) else EntryKey(i), v);
    }
  }

  lemma AccessIsChild(r: Roots, b: Body, a: Access, c: Id)
    requires Reads(r, b, a, Ref(c))
    ensures Child(r, b, c)
  {
    if b.Table? {
      NodeSlotsAre(b.node, Ref(c));
      if a.EntryKey? || a.EntryValue? {
        assert b.node[a.i].val == Ref(c) || (!b.node[a.i].dead && b.node[a.i].key == Ref(c));
      }
    }
  }

  function Recolor(h: Heap, x: Id, c: Color): Heap
    requires x in h
  {
    h[x := h[x].(color := c)]
  }

  predicate IsWhite(h: Heap, x: Id) {
    x in h && h[x].color.IsWhite()
  }

  /** Present and marked. */
  predicate Marked(h: Heap, x: Id) {
    x in h && !h[x].color.IsWhite()
  }

  function Whites(h: Heap): set<Id> {
    set x | x in h && h[x].color.IsWhite()
  }

  // ---------------------------------------------------------------- marking

  /** A heap and its gray list, the part of the state that marking changes. */
  datatype Marking = Marking(heap: Heap, gray: seq<Id>)

  /** `markvalue` and `markobject`. */
  function MarkValue(m: Marking, r: Roots, v: Value): (m': Marking)
    ensures Whites(m'.heap) <= Whites(m.heap)
    decreases Whites(m.heap), 2, 0
  {
    if v.Ref? && IsWhite(m.heap, v.id) then ReallyMark(m, r, v.id) else m
  }

  /** `reallymarkobject`. */
  function ReallyMark(m: Marking, r: Roots, o: Id): (m': Marking)
    requires IsWhite(m.heap, o)
    ensures Whites(m'.heap) <= Whites(m.heap) - {o}
    decreases Whites(m.heap), 1, 0
  {
    var b := m.heap[o].body;
    var gray := m.(heap := Recolor(m.heap, o, Gray));
    assert o in Whites(m.heap) && o !in Whites(gray.heap);
    assert Whites(gray.heap) < Whites(m.heap);
    match b
    case Str(_) => gray
    case Udata(mt, env) =>
      var black := m.(heap := Recolor(m.heap, o, Black));
      assert o !in Whites(black.heap) && Whites(black.heap) < Whites(m.heap);
      MarkAll(black, r, [mt, env])
    case Upval(open, _, _) =>
      var m1 := MarkAll(gray, r, Slots(r, b));
      if open || o !in m1.heap then m1
      else m1.(heap := Recolor(m1.heap, o, Black))
    case _ => m.(heap := gray.heap, gray := [o] + m.gray)
  }

  /** The loops that mark a run of values. */
  function MarkAll(m: Marking, r: Roots, vs: seq<Value>): (m': Marking)
    ensures Whites(m'.heap) <= Whites(m.heap)
    decreases Whites(m.heap), 3, |vs|
  {
    if vs == [] then m else MarkAll(MarkValue(m, r, vs[0]), r, vs[1..])
  }

  /** Every child of `b` that exists is marked. */
  ghost predicate ChildrenMarked(h: Heap, r: Roots, b: Body) {
    forall c {:trigger Child(r, b, c)} :: Child(r, b, c) && c in h ==> Marked(h, c)
  }

  /** The state in which marking leaves an object that was white before it. */
  ghost predicate WellMarked(m: Marking, r: Roots, x: Id)
    requires x in m.heap
  {
    var o := m.heap[x];
    match o.body
    case Str(_) => o.color == Gray
    case Udata(_, _) => o.color == Black && ChildrenMarked(m.heap, r, o.body)
    case Upval(open, _, _) =>
      if open then o.color == Gray else o.color == Black && ChildrenMarked(m.heap, r, o.body)
    case _ => o.color == Gray && x in m.gray
  }

  predicate SameShape(h: Heap, h': Heap) {
    h'.Keys == h.Keys &&
    forall x :: x in h ==> h'[x].body == h[x].body && h'[x].fixed == h[x].fixed
  }

  /** What a marking may do: turn white objects into well-marked ones and put the
      traversable ones in front of the gray list, each once. Nothing else moves. */
  ghost predicate Marks(m: Marking, m': Marking, r: Roots) {
    && SameShape(m.heap, m'.heap)
    && (forall x :: x in m.heap ==>
          m'.heap[x].color == m.heap[x].color ||
          (m.heap[x].color.IsWhite() && !m'.heap[x].color.IsWhite() && WellMarked(m', r, x)))
    && (exists pre: seq<Id> :: GrayPrefix(m, m', pre))
  }

  ghost predicate GrayPrefix(m: Marking, m': Marking, pre: seq<Id>) {
    && m'.gray == pre + m.gray
    && NoDup(pre)
    && (forall x :: x in pre ==> IsWhite(m.heap, x) && Marked(m'.heap, x) && m.heap[x].body.Traversable())
  }

  lemma SameShapeMarks(m: Marking, m': Marking, r: Roots)
    requires Marks(m, m', r)
    ensures SameShape(m.heap, m'.heap)
  {
  }

  lemma MarksRefl(m: Marking, r: Roots)
    ensures Marks(m, m, r)
  {
    assert GrayPrefix(m, m, []);
  }

  lemma MarksTrans(m0: Marking, m1: Marking, m2: Marking, r: Roots)
    requires Marks(m0, m1, r) && Marks(m1, m2, r)
    ensures Marks(m0, m2, r)
  {
    var p0: seq<Id> :| GrayPrefix(m0, m1, p0);
    var p1: seq<Id> :| GrayPrefix(m1, m2, p1);
    assert m2.gray == (p1 + p0) + m0.gray;
    forall x | x in p1
      ensures x !in p0 && IsWhite(m0.heap, x) && Marked(m2.heap, x) && m0.heap[x].body.Traversable()
    {
    }
    NoDupConcat(p1, p0);
    assert GrayPrefix(m0, m2, p1 + p0);
    forall x | x in m0.heap && m2.heap[x].color != m0.heap[x].color
      ensures m0.heap[x].color.IsWhite() && !m2.heap[x].color.IsWhite() && WellMarked(m2, r, x)
    {
      if m1.heap[x].color == m0.heap[x].color {
      } else {
        assert WellMarked(m1, r, x);
      }
    }
  }

  /** Marking only ever takes objects off the set of whites; if it takes none, the gray list is as before. */
  lemma MarksShrink(m: Marking, m': Marking, r: Roots)
    requires Marks(m, m', r)
    ensures Whites(m'.heap) <= Whites(m.heap)
    ensures Whites(m'.heap) == Whites(m.heap) ==> m'.gray == m.gray
    ensures forall x :: Marked(m.heap, x) ==> Marked(m'.heap, x)
    ensures forall x :: x in m'.gray ==> x in m.gray || (Marked(m'.heap, x) && m'.heap[x].body.Traversable())
  {
    hide WellMarked, Slots;
    var pre: seq<Id> :| GrayPrefix(m, m', pre);
    if pre != [] {
      assert pre[0] in pre;
      assert pre[0] in Whites(m.heap) && pre[0] !in Whites(m'.heap);
    }
  }

  lemma {:induction false} MarkValueMarks(m: Marking, r: Roots, v: Value)
    ensures var m' := MarkValue(m, r, v);
            Marks(m, m', r) && (v.Ref? && v.id in m.heap ==> Marked(m'.heap, v.id))
    decreases Whites(m.heap), 2, 0
  {
    if v.Ref? && IsWhite(m.heap, v.id) {
      ReallyMarkMarks(m, r, v.id);
    } else {
      MarksRefl(m, r);
    }
  }

  lemma {:induction false} ReallyMarkMarks(m: Marking, r: Roots, o: Id)
    requires IsWhite(m.heap, o)
    ensures var m' := ReallyMark(m, r, o);
            Marks(m, m', r) && Marked(m'.heap, o)
    decreases Whites(m.heap), 1, 0
  {
    var b := m.heap[o].body;
    var gray := m.(heap := Recolor(m.heap, o, Gray));
    var m' := ReallyMark(m, r, o);
    assert o in Whites(m.heap) && o !in Whites(gray.heap);
    match b {
      case Str(_) =>
        assert GrayPrefix(m, m', []);
      case Udata(mt, env) =>
        var black := m.(heap := Recolor(m.heap, o, Black));
        assert o !in Whites(black.heap) && Whites(black.heap) < Whites(m.heap);
        MarkAllMarks(black, r, [mt, env]);
        LateMark(m, black, m', r, o);
      case Upval(open, _, _) =>
        var m1 := MarkAll(gray, r, Slots(r, b));
        MarkAllMarks(gray, r, Slots(r, b));
        if open {
          LateMark(m, gray, m', r, o);
        } else {
          assert m' == m1.(heap := Recolor(m1.heap, o, Black));
          assert m1.heap[o].color == Gray;
          BlackenLast(m, gray, m1, m', r, o);
        }
      case _ =>
        assert GrayPrefix(m, m', [o]);
    }
  }

  /** An object coloured first and whose children are marked afterwards is well marked in the end. */
  lemma LateMark(m: Marking, m0: Marking, m': Marking, r: Roots, o: Id)
    requires IsWhite(m.heap, o) && !m.heap[o].body.Traversable()
    requires exists c: Color :: !c.IsWhite() && m0 == m.(heap := Recolor(m.heap, o, c))
    requires Marks(m0, m', r) && WellMarked(m', r, o)
    ensures Marks(m, m', r) && Marked(m'.heap, o)
  {
    var p: seq<Id> :| GrayPrefix(m0, m', p);
    assert GrayPrefix(m, m', p);
  }

  lemma BlackenLast(m: Marking, m0: Marking, m1: Marking, m': Marking, r: Roots, o: Id)
    requires IsWhite(m.heap, o) && m.heap[o].body.Upval? && !m.heap[o].body.open
    requires m0 == m.(heap := Recolor(m.heap, o, Gray))
    requires Marks(m0, m1, r) && m1.heap[o].color == Gray && ChildrenMarked(m1.heap, r, m.heap[o].body)
    requires m' == m1.(heap := Recolor(m1.heap, o, Black))
    ensures Marks(m, m', r) && Marked(m'.heap, o)
  {
    var p: seq<Id> :| GrayPrefix(m0, m1, p);
    assert GrayPrefix(m, m', p);
    forall x | x in m.heap && m'.heap[x].color != m.heap[x].color
      ensures m.heap[x].color.IsWhite() && !m'.heap[x].color.IsWhite() && WellMarked(m', r, x)
    {
      if x != o {
        assert WellMarked(m1, r, x);
      }
    }
  }

  lemma {:induction false} MarkAllMarks(m: Marking, r: Roots, vs: seq<Value>)
    ensures var m' := MarkAll(m, r, vs);
            Marks(m, m', r) && forall c :: Ref(c) in vs && c in m.heap ==> Marked(m'.heap, c)
    decreases Whites(m.heap), 3, |vs|
  {
    if vs == [] {
      MarksRefl(m, r);
    } else {
      var m1 := MarkValue(m, r, vs[0]);
      MarkValueMarks(m, r, vs[0]);
      MarkAllMarks(m1, r, vs[1..]);
      MarksTrans(m, m1, MarkAll(m, r, vs), r);
    }
  }
}
