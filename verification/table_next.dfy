/**
 Traversal (luaH_next): the entries in the order of their places. Assigning to fields that are
 there, nil included, does not disturb it.
 */
module TableNext {
  import opened Tables
  import opened TableSet
  import opened TableRehash
  import opened TableGrow

  // ------------------------------------------------------------- places

  /** The array part and behind it the hash part. */
  function Places(t: Tab): nat {
    |t.arr| + |t.node|
  }

  function KeyAt(t: Tab, i: nat): Key
    requires i < Places(t)
  {
    if i < |t.arr| then Int(i + 1) else t.node[i - |t.arr|].key
  }

  function ValAt(t: Tab, i: nat): Val
    requires i < Places(t)
  {
    if i < |t.arr| then t.arr[i] else t.node[i - |t.arr|].val
  }

  datatype Index = Found(i: int) | Invalid

  /** `findindex`: -1 for the key that begins a traversal. */
  function FindIndex(h: Hash, t: Tab, k: Key): Index
    requires |t.node| > 0
  {
    if k.NoKey? then Found(-1)
    else if InArray(t, k) then Found(k.i - 1)
    else
      var r := Slot(h, t, k);
      if r == NULL then Invalid else Found(r + |t.arr|)
  }

  datatype NextResult = Error | Done | Entry(key: Key, val: Val)

  /** The first place from `i` on that has a value. */
  function FirstFrom(t: Tab, i: nat): (r: nat)
    ensures r <= Places(t) || r == i
    ensures r >= i && forall j :: i <= j < r && j < Places(t) ==> ValAt(t, j) == Nil
    ensures r < Places(t) ==> ValAt(t, r) != Nil
    decreases Places(t) - i
  {
    if i >= Places(t) || ValAt(t, i) != Nil then i else FirstFrom(t, i + 1)
  }

  /** `luaH_next` */
  function Next(h: Hash, t: Tab, k: Key): NextResult
    requires |t.node| > 0
  {
    match FindIndex(h, t, k)
    case Invalid => Error
    case Found(i) =>
      if i < -1 then Error
      else
        var r := FirstFrom(t, i + 1);
        if r < Places(t) then Entry(KeyAt(t, r), ValAt(t, r)) else Done
  }

  // ------------------------------------------------------------- keys and places

  /** A key is found at its place, and nowhere else. */
  lemma IndexOfPlace(h: Hash, t: Tab, i: nat)
    requires Inv(h, t) && i < Places(t) && !KeyAt(t, i).NoKey?
    ensures FindIndex(h, t, KeyAt(t, i)) == Found(i) && Get(h, t, KeyAt(t, i)) == ValAt(t, i)
  {
    hide Linked, Scattered, CursorOk, Distinct, FreeOk, Slot;
    if i >= |t.arr| {
      SlotFinds(h, t, KeyAt(t, i), i - |t.arr|);
    }
  }

  lemma PlaceOfIndex(h: Hash, t: Tab, k: Key)
    requires Inv(h, t) && !k.NoKey? && FindIndex(h, t, k).Found?
    ensures 0 <= FindIndex(h, t, k).i < Places(t) && KeyAt(t, FindIndex(h, t, k).i) == k
  {
  }

  /** What has a value has a key. */
  lemma ValueHasKey(h: Hash, t: Tab, i: nat)
    requires Inv(h, t) && i < Places(t) && ValAt(t, i) != Nil
    ensures !KeyAt(t, i).NoKey?
  {
  }

  lemma ValueHasPlace(h: Hash, t: Tab, k: Key)
    requires Inv(h, t) && Get(h, t, k) != Nil
    ensures FindIndex(h, t, k).Found? && 0 <= FindIndex(h, t, k).i < Places(t) && KeyAt(t, FindIndex(h, t, k).i) == k
  {
  }

  // ------------------------------------------------------------- traversals

  /** The same keys at the same places: fields have been assigned to, none has been added. */
  ghost predicate SameKeys(t: Tab, t': Tab) {
    && |t'.arr| == |t.arr| && |t'.node| == |t.node|
    && forall i :: 0 <= i < |t.node| ==> t'.node[i].key == t.node[i].key && t'.node[i].next == t.node[i].next
  }

  /** Assigning to a field that is there keeps all keys where they are. */
  lemma AssignKeepsKeys(h: Hash, t: Tab, k: Key, v: Val)
    requires Inv(h, t) && Present(h, t, k)
    ensures SameKeys(t, Set(h, t, k, v))
  {
    hide Inv;
    InvCursor(h, t);
  }

  lemma {:induction false} SameFind(nd: seq<Node>, nd': seq<Node>, i: int, k: Key, fuel: nat)
    requires |nd'| == |nd| && forall j :: 0 <= j < |nd| ==> nd'[j].key == nd[j].key && nd'[j].next == nd[j].next
    ensures Find(nd', i, k, fuel) == Find(nd, i, k, fuel)
    decreases fuel
  {
    if fuel > 0 && 0 <= i < |nd| && nd[i].key != k {
      SameFind(nd, nd', nd[i].next, k, fuel - 1);
    }
  }

  lemma SameIndex(h: Hash, t: Tab, t': Tab, k: Key)
    requires |t.node| > 0 && SameKeys(t, t')
    ensures FindIndex(h, t', k) == FindIndex(h, t, k)
  {
    SameFind(t.node, t'.node, MainPos(h, k, |t.node|), k, |t.node|);
  }

  /** The keys that a traversal gives when the table is `ts[0]`, `ts[1]`, ... at its calls. */
  function Traverse(h: Hash, ts: seq<Tab>, k: Key): seq<Key>
    requires forall i :: 0 <= i < |ts| ==> |ts[i].node| > 0
    decreases |ts|
  {
    if ts == [] then []
    else
      match Next(h, ts[0], k)
      case Entry(k2, _) => [k2] + Traverse(h, ts[1..], k2)
      case _ => []
  }

  /** A table during a traversal: nothing is added to it. */
  ghost predicate Steady(h: Hash, t: Tab, ts: seq<Tab>) {
    forall i :: 0 <= i < |ts| ==> |ts[i].node| > 0 && Inv(h, ts[i]) && SameKeys(t, ts[i])
  }

  /** The place where a traversal stands. */
  function PlaceOf(h: Hash, t: Tab, k: Key): int
    requires |t.node| > 0
  {
    match FindIndex(h, t, k)
    case Found(i) => i
    case Invalid => -2
  }

  /** One step of a traversal goes to a later place and passes over nothing that has a value. */
  lemma NextStep(h: Hash, t: Tab, t1: Tab, k: Key)
    requires Inv(h, t) && Inv(h, t1) && SameKeys(t, t1) && PlaceOf(h, t, k) >= -1
    ensures match Next(h, t1, k)
            case Error => false
            case Done => forall k2 :: Get(h, t1, k2) != Nil ==> PlaceOf(h, t, k2) <= PlaceOf(h, t, k)
            case Entry(k2, v) =>
              && !k2.NoKey? && v == Get(h, t1, k2) != Nil && PlaceOf(h, t, k2) > PlaceOf(h, t, k)
              && forall k3 :: Get(h, t1, k3) != Nil && PlaceOf(h, t, k3) > PlaceOf(h, t, k) ==> PlaceOf(h, t, k3) >= PlaceOf(h, t, k2)
  {
    hide Inv, Get, FindIndex, FirstFrom;
    InvCursor(h, t);
    InvCursor(h, t1);
    SameIndex(h, t, t1, k);
    var i := PlaceOf(h, t, k);
    var r := FirstFrom(t1, i + 1);
    if r < Places(t1) {
      ValueHasKey(h, t1, r);
      IndexOfPlace(h, t1, r);
      SameIndex(h, t, t1, KeyAt(t1, r));
    }
    forall k3 | Get(h, t1, k3) != Nil
      ensures PlaceOf(h, t, k3) <= i || (r < Places(t1) && PlaceOf(h, t, k3) >= r)
    {
      ValueHasPlace(h, t1, k3);
      SameIndex(h, t, t1, k3);
      NoNilKey(h, t1, k3);
      IndexOfPlace(h, t1, FindIndex(h, t1, k3).i);
    }
  }

  lemma NoNilKey(h: Hash, t: Tab, k: Key)
    requires |t.node| > 0 && Get(h, t, k) != Nil
    ensures !k.NoKey?
  {
  }

  /** A traversal only goes ahead. */
  lemma {:induction false} TraversalAhead(h: Hash, t: Tab, ts: seq<Tab>, k: Key, a: nat)
    requires Inv(h, t) && Steady(h, t, ts) && PlaceOf(h, t, k) >= -1 && a < |Traverse(h, ts, k)|
    ensures PlaceOf(h, t, Traverse(h, ts, k)[a]) > PlaceOf(h, t, k)
    decreases |ts|
  {
    hide Inv, Get, FindIndex, Next, PlaceOf;
    assert ts[0] in ts;
    NextStep(h, t, ts[0], k);
    var k2 := Next(h, ts[0], k).key;
    assert Traverse(h, ts, k) == [k2] + Traverse(h, ts[1..], k2);
    if a > 0 {
      TraversalAhead(h, t, ts[1..], k2, a - 1);
    }
  }

  /** It goes from place to place, and so gives no key twice. */
  lemma {:induction false} TraversalOrder(h: Hash, t: Tab, ts: seq<Tab>, k: Key, a: nat, b: nat)
    requires Inv(h, t) && Steady(h, t, ts) && PlaceOf(h, t, k) >= -1 && a < b < |Traverse(h, ts, k)|
    ensures PlaceOf(h, t, Traverse(h, ts, k)[a]) < PlaceOf(h, t, Traverse(h, ts, k)[b])
    decreases |ts|
  {
    hide Inv, Get, FindIndex, Next, PlaceOf;
    assert ts[0] in ts;
    NextStep(h, t, ts[0], k);
    var k2 := Next(h, ts[0], k).key;
    assert Traverse(h, ts, k) == [k2] + Traverse(h, ts[1..], k2);
    if a > 0 {
      TraversalOrder(h, t, ts[1..], k2, a - 1, b - 1);
    } else {
      TraversalAhead(h, t, ts[1..], k2, b - 1);
    }
  }

  lemma {:induction false} TraversalValues(h: Hash, t: Tab, ts: seq<Tab>, k: Key, a: nat)
    requires Inv(h, t) && Steady(h, t, ts) && PlaceOf(h, t, k) >= -1 && a < |Traverse(h, ts, k)|
    ensures a < |ts| && Get(h, ts[a], Traverse(h, ts, k)[a]) != Nil
    decreases |ts|
  {
    hide Inv, Get, FindIndex, Next, PlaceOf;
    assert ts[0] in ts;
    NextStep(h, t, ts[0], k);
    var k2 := Next(h, ts[0], k).key;
    assert Traverse(h, ts, k) == [k2] + Traverse(h, ts[1..], k2);
    if a > 0 {
      TraversalValues(h, t, ts[1..], k2, a - 1);
    }
  }

  /** It passes over nothing that keeps its value. */
  lemma {:induction false} TraversalVisits(h: Hash, t: Tab, ts: seq<Tab>, k: Key, k2: Key)
    requires Inv(h, t) && Steady(h, t, ts) && PlaceOf(h, t, k) >= -1
    requires (forall a :: 0 <= a < |ts| ==> Get(h, ts[a], k2) != Nil) && PlaceOf(h, t, k2) > PlaceOf(h, t, k)
    ensures k2 in Traverse(h, ts, k) || PlaceOf(h, t, k2) >= |ts| + PlaceOf(h, t, k) + 1
    decreases |ts|
  {
    hide Inv, Get, FindIndex, Next, PlaceOf;
    if ts != [] {
      assert ts[0] in ts;
      NextStep(h, t, ts[0], k);
      match Next(h, ts[0], k) {
        case Entry(k3, v) =>
          SamePlace(h, t, ts[0], k3, k2);
          assert Traverse(h, ts, k) == [k3] + Traverse(h, ts[1..], k3);
          if k3 != k2 {
            assert forall a :: 0 <= a < |ts[1..]| ==> ts[1..][a] == ts[a + 1];
            TraversalVisits(h, t, ts[1..], k3, k2);
          }
        case _ =>
      }
    }
  }

  lemma SamePlace(h: Hash, t: Tab, t1: Tab, k: Key, k2: Key)
    requires Inv(h, t) && Inv(h, t1) && SameKeys(t, t1) && Get(h, t1, k) != Nil && Get(h, t1, k2) != Nil
    ensures PlaceOf(h, t, k) == PlaceOf(h, t, k2) ==> k == k2
  {
    hide Inv, Get, FindIndex;
    InvCursor(h, t1);
    InvCursor(h, t);
    SameIndex(h, t, t1, k);
    SameIndex(h, t, t1, k2);
    ValueHasPlace(h, t1, k);
    ValueHasPlace(h, t1, k2);
  }

  /** From the beginning, with one more call than there are places: every key that has a value all
      the time is visited exactly once. */
  lemma TraversalComplete(h: Hash, t: Tab, ts: seq<Tab>)
    requires Inv(h, t) && Steady(h, t, ts) && |ts| > Places(t)
    ensures var l := Traverse(h, ts, NoKey);
            && (forall a, b :: 0 <= a < b < |l| ==> l[a] != l[b])
            && (forall k :: (forall a :: 0 <= a < |ts| ==> Get(h, ts[a], k) != Nil) ==> k in l)
            && (forall a :: 0 <= a < |l| ==> a < |ts| && Get(h, ts[a], l[a]) != Nil)
            && |l| < |ts|
  {
    hide Inv, Get, Traverse;
    InvCursor(h, t);
    var l := Traverse(h, ts, NoKey);
    forall a, b | 0 <= a < b < |l|
      ensures l[a] != l[b]
    {
      TraversalOrder(h, t, ts, NoKey, a, b);
    }
    forall a | 0 <= a < |l|
      ensures a < |ts| && Get(h, ts[a], l[a]) != Nil
    {
      TraversalValues(h, t, ts, NoKey, a);
    }
    forall k | forall a :: 0 <= a < |ts| ==> Get(h, ts[a], k) != Nil
      ensures k in l
    {
      assert Get(h, ts[0], k) != Nil;
      ValueInside(h, t, ts[0], k);
      TraversalVisits(h, t, ts, NoKey, k);
    }
    TraversalShort(h, t, ts, NoKey);
  }

  lemma ValueInside(h: Hash, t: Tab, t1: Tab, k: Key)
    requires Inv(h, t) && Inv(h, t1) && SameKeys(t, t1) && Get(h, t1, k) != Nil
    ensures 0 <= PlaceOf(h, t, k) < Places(t)
  {
    hide Inv, Get, FindIndex;
    InvCursor(h, t1);
    InvCursor(h, t);
    SameIndex(h, t, t1, k);
    ValueHasPlace(h, t1, k);
  }

  lemma {:induction false} TraversalShort(h: Hash, t: Tab, ts: seq<Tab>, k: Key)
    requires Inv(h, t) && Steady(h, t, ts) && -1 <= PlaceOf(h, t, k) < Places(t)
    ensures |Traverse(h, ts, k)| <= Places(t) - 1 - PlaceOf(h, t, k)
    decreases |ts|
  {
    hide Inv, Get, FindIndex, Next, PlaceOf;
    if ts != [] {
      assert ts[0] in ts;
      NextStep(h, t, ts[0], k);
      match Next(h, ts[0], k) {
        case Entry(k2, v) =>
          ValueInside(h, t, ts[0], k2);
          TraversalShort(h, t, ts[1..], k2);
        case _ =>
      }
    }
  }
}
