/**
 Taking slots away from the array part (resize and luaH_resizearray in ltable.c). The values of these
 slots stay in the block of the array part while they are stored again, and a rehash that is needed in
 between may reallocate this very block.
 */
module TableShrink {
  import opened Tables
  import opened TableInsert
  import opened TableSet
  import opened TableRehash
  import opened TableCounts
  import opened TableGrow
  import opened Sequences

  // ------------------------------------------------------------- stores with room

  /** With room a store does not rehash. */
  lemma RoomIsPut(h: Hash, t: Tab, k: Key, v: Val)
    requires Inv(h, t) && !k.NoKey? && |t.node| > 0 && t.lastfree <= |t.node| && (Present(h, t, k) || Room(t) > 0)
    ensures Set(h, t, k, v) == Put(h, t, k, v)
    ensures !Present(h, t, k) ==> PlaceKey(h, t, k).Placed?
  {
    hide Inv, Put, PlaceKey, Present, Room, Rehash;
    if !Present(h, t, k) {
      AbsentIsNew(h, t, k);
      PlacedHasRoom(h, t, k);
    }
  }

  lemma PutAllStep(h: Hash, t: Tab, x: (Key, Val), rest: seq<(Key, Val)>)
    requires Inv(h, t) && Entries([x] + rest) && Room(t) >= HashCount([x] + rest, |t.arr|) && |t.node| > 0 && t.lastfree <= |t.node|
    ensures var t1 := Put(h, t, x.0, x.1);
            && |t1.node| > 0 && t1.lastfree <= |t1.node| && Inv(h, t1) && |t1.arr| == |t.arr| && Entries(rest)
            && Room(t1) >= HashCount(rest, |t.arr|) && PutAll(h, t, [x] + rest) == PutAll(h, t1, rest)
            && Set(h, t, x.0, x.1) == t1 && (Present(h, t, x.0) || Room(t) > 0)
  {
    hide Inv, Put, Get, Room, Present, Stores, Set;
    var ps := [x] + rest;
    assert ps[1..] == rest && ps[0] == x;
    PresentInArray(h, t, x.0);
    PutStores(h, t, x.0, x.1);
    StoresIs(h, t, Put(h, t, x.0, x.1), x.0, x.1);
    InvCursor(h, Put(h, t, x.0, x.1));
    EntriesTail(ps);
    RoomIsPut(h, t, x.0, x.1);
  }

  lemma {:induction false} VanishingFront(arr: seq<Val>, n: nat)
    requires n < |arr|
    ensures arr[n] == Nil ==> Vanishing(arr, n) == Vanishing(arr, n + 1)
    ensures arr[n] != Nil ==> Vanishing(arr, n) == [(Int(n + 1), arr[n])] + Vanishing(arr, n + 1)
    decreases |arr|
  {
    var z := |arr| - 1;
    if n < z {
      VanishingFront(arr[..z], n);
    }
  }

  lemma NothingVanishes(arr: seq<Val>, n: nat)
    ensures n >= |arr| ==> Vanishing(arr, n) == []
  {
  }

  // ------------------------------------------------------------- the loop over the slice

  /** Looking for a slot for the key rehashes the table, and that gives the array part another size:
      its block is reallocated, and behind the array part nothing is left. */
  predicate Reallocates(h: Hash, t: Tab, k: Key)
    requires |t.node| > 0 && t.lastfree <= |t.node|
  {
    !Present(h, t, k) && PlaceKey(h, t, k).NoRoom? && |Rehash(h, t, k).arr| != |t.arr|
  }

  /** `Lost`: slot `i` should move, but the block that it is read from has been given away; `t` is
      what the table is by then. */
  datatype Outcome = Kept(t: Tab) | Lost(i: nat, t: Tab)

  /** The loop of `resize` over the slots of the block that the array part has lost, from slot `i` on. */
  function MoveSlice(h: Hash, t: Tab, block: seq<Val>, i: nat): Outcome
    requires |t.node| > 0 && t.lastfree <= |t.node|
    decreases |block| - i
  {
    if i >= |block| then Kept(t)
    else if block[i] == Nil then MoveSlice(h, t, block, i + 1)
    else if Reallocates(h, t, Int(i + 1)) then Lost(i, Rehash(h, t, Int(i + 1)))
    else
      var t1 := Set(h, t, Int(i + 1), block[i]);
      if |t1.node| > 0 && t1.lastfree <= |t1.node| then MoveSlice(h, t1, block, i + 1) else Kept(t1)
  }

  /** `resize` as it works on the block. The old hash part is kept until the end. */
  function ResizeInPlace(h: Hash, t: Tab, na: nat, nh: nat): Outcome {
    match MoveSlice(h, FreshNodes(SizedArray(t.arr, na), nh), t.arr, na)
    case Kept(t1) => if |t1.node| > 0 && t1.lastfree <= |t1.node| then Kept(SetAll(h, t1, NodesDown(t.node))) else Kept(t1)
    case Lost(i, t1) => Lost(i, t1)
  }

  // ------------------------------------------------------------- when it goes wrong

  /** How many of the slots from `na` up to `i` have values. */
  function Used(arr: seq<Val>, na: nat, i: nat): nat
    requires i <= |arr|
  {
    if i <= na then 0 else Used(arr, na, i - 1) + (if arr[i - 1] != Nil then 1 else 0)
  }

  /** The number of nodes after `m` entries have moved to a hash part that had `size` nodes: it grows
      to the next power of two. */
  function Grown(m: nat, size: nat): nat {
    if m <= size then size else Pow2(CeilLog2(m))
  }

  /** Slot `i` has a value, the nodes are all taken when it is due, and the array part deserves another
      size for the keys up to then. */
  predicate Disturbs(arr: seq<Val>, na: nat, size: nat, i: nat)
    requires i < |arr|
  {
    var m := Used(arr, na, i);
    arr[i] != Nil && m == Grown(m, size) && BestSize(ArrKeys(arr[..i + 1])) != na
  }

  /** No slot that the array part loses does so. */
  predicate Undisturbed(arr: seq<Val>, na: nat, size: nat) {
    forall i :: na <= i < |arr| ==> !Disturbs(arr, na, size, i)
  }

  /** Slot `i` is the first one that does. */
  predicate FirstDisturbs(arr: seq<Val>, na: nat, size: nat, i: nat)
    requires i < |arr|
  {
    na <= i && Disturbs(arr, na, size, i) && forall j :: na <= j < i ==> !Disturbs(arr, na, size, j)
  }

  lemma {:induction false} UsedMonotone(arr: seq<Val>, na: nat, i: nat, j: nat)
    requires i <= j <= |arr|
    ensures Used(arr, na, i) + (if i < j && na <= i && arr[i] != Nil then 1 else 0) <= Used(arr, na, j)
    decreases j
  {
    if i < j {
      UsedMonotone(arr, na, i, j - 1);
    }
  }

  /** A hash part that has nodes for all values of the slice is enough; a growing array part loses none. */
  lemma FewAreUndisturbed(arr: seq<Val>, na: nat, size: nat)
    requires na < |arr| ==> Used(arr, na, |arr|) <= size
    ensures Undisturbed(arr, na, size)
  {
    forall i | na <= i < |arr|
      ensures !Disturbs(arr, na, size, i)
    {
      UsedMonotone(arr, na, i, |arr|);
    }
  }

  // ------------------------------------------------------------- how many nodes there are

  lemma GrownStep(m: nat, size: nat)
    ensures m <= Grown(m, size)
    ensures Grown(m + 1, size) == if m == Grown(m, size) then Pow2(CeilLog2(m + 1)) else Grown(m, size)
  {
    hide Pow2;
    if m > size {
      CeilLog2Is(m);
      if m < Pow2(CeilLog2(m)) {
        if m == 1 {
          Pow2One();
        } else {
          Log2Exact(m, CeilLog2(m) - 1);
        }
      }
    }
  }

  lemma Pow2One()
    ensures Pow2(CeilLog2(1)) == 1
  {
  }

  // ------------------------------------------------------------- counting the keys of the table

  /** The keys between 1 and `m`, as a set. */
  ghost function KeySet(keys: seq<Key>, m: int): set<Key> {
    set k | k in keys && InRange(k, m)
  }

  lemma KeySetStep(keys: seq<Key>, m: int)
    requires NoDup(keys) && keys != []
    ensures var front, last := keys[..|keys| - 1], keys[|keys| - 1];
            |KeySet(keys, m)| == |KeySet(front, m)| + (if InRange(last, m) then 1 else 0)
  {
    var front, last := keys[..|keys| - 1], keys[|keys| - 1];
    assert keys == front + [last] && last !in front;
    assert KeySet(keys, m) == if InRange(last, m) then KeySet(front, m) + {last} else KeySet(front, m);
  }

  lemma {:induction false} CntIsSize(keys: seq<Key>, m: int)
    requires NoDup(keys)
    ensures Cnt(keys, m) == |KeySet(keys, m)|
    decreases |keys|
  {
    hide KeySet;
    if keys == [] {
      NoKeys(m);
    } else {
      CntIsSize(keys[..|keys| - 1], m);
      KeySetStep(keys, m);
    }
  }

  lemma NoKeys(m: int)
    ensures KeySet([], m) == {}
  {
  }

  /** Two lists of the same keys count the same. */
  lemma SameCounts(a: seq<Key>, b: seq<Key>, m: int)
    requires NoDup(a) && NoDup(b) && forall k :: k in a <==> k in b
    ensures |a| == |b| && Cnt(a, m) == Cnt(b, m)
  {
    CntIsSize(a, m);
    CntIsSize(b, m);
    NoDupSize(a);
    NoDupSize(b);
    assert KeySet(a, m) == KeySet(b, m) && SetOf(a) == SetOf(b);
  }

  lemma {:induction false} SameBest(a: seq<Key>, b: seq<Key>, i: nat)
    requires NoDup(a) && NoDup(b) && forall k :: k in a <==> k in b
    ensures BestFrom(a, i) == BestFrom(b, i)
  {
    SameCounts(a, b, Pow2(i));
    if i > 0 {
      SameBest(a, b, i - 1);
    }
  }

  lemma {:induction false} UsedCount(arr: seq<Val>, na: nat, i: nat)
    requires na <= i <= |arr|
    ensures |ArrKeys(arr[..i])| == |ArrKeys(arr[..na])| + Used(arr, na, i)
    decreases i
  {
    if i > na {
      UsedCount(arr, na, i - 1);
      assert arr[..i][..i - 1] == arr[..i - 1];
    }
  }

  // ------------------------------------------------------------- halfway

  /** The table when the slots of the block up to `i` have moved. */
  ghost predicate Halfway(h: Hash, t: Tab, block: seq<Val>, na: nat, size: nat, i: nat)
    requires na <= i <= |block|
  {
    && |t.node| > 0 && Inv(h, t) && |t.arr| == na
    && (forall k :: Get(h, t, k) == if InRange(k, i) then block[k.i - 1] else Nil)
    && Capacity(t) == Grown(Used(block, na, i), size) && Room(t) + Used(block, na, i) >= Capacity(t)
  }

  lemma HalfwayArray(h: Hash, t: Tab, block: seq<Val>, na: nat, size: nat, i: nat)
    requires na <= i <= |block| && Halfway(h, t, block, na, size, i)
    ensures t.arr == block[..na]
  {
    hide Inv, Room, Capacity, Grown, Slot;
    forall j | 0 <= j < na
      ensures t.arr[j] == block[j]
    {
      assert Get(h, t, Int(j + 1)) == t.arr[j];
    }
  }

  lemma HalfwayKeys(h: Hash, t: Tab, block: seq<Val>, na: nat, size: nat, i: nat)
    requires na <= i <= |block| && Halfway(h, t, block, na, size, i)
    ensures var keys := ArrKeys(t.arr) + NodeKeys(t.node);
            NoDup(keys) && forall k :: k in keys <==> k in ArrKeys(block[..i])
    ensures NoDup(ArrKeys(block[..i])) && |NodeKeys(t.node)| == Used(block, na, i)
  {
    hide Linked, Scattered, CursorOk, ArrKeys, NodeKeys, Get, Used, Grown, Room;
    assert t.arr == block[..na] by {
      HalfwayArray(h, t, block, na, size, i);
    }
    ArrKeysAre(t.arr);
    NodeKeysAre(t.node);
    ArrKeysAre(block[..i]);
    var a, b := ArrKeys(t.arr), NodeKeys(t.node);
    forall k | k in b
      ensures k !in a && k in ArrKeys(block[..i])
    {
      var j :| 0 <= j < |t.node| && t.node[j].key == k && t.node[j].val != Nil;
      GetStored(h, t, j);
    }
    NoDupConcat(a, b);
    forall k | k in ArrKeys(block[..i])
      ensures k in a + b
    {
      if k.i > na {
        HashHas(h, t, k, block[k.i - 1]);
      }
    }
    SameCounts(a + b, ArrKeys(block[..i]), 0);
    UsedCount(block, na, i);
  }

  lemma HashHas(h: Hash, t: Tab, k: Key, v: Val)
    requires Inv(h, t) && !k.NoKey? && !InArray(t, k) && Get(h, t, k) == v && v != Nil
    ensures exists j :: 0 <= j < |t.node| && t.node[j].key == k && t.node[j].val != Nil
  {
    GetIsStored(h, t, k, v);
  }

  lemma {:induction false} NodeKeysFull(nd: seq<Node>)
    ensures |NodeKeys(nd)| <= |nd|
    ensures |NodeKeys(nd)| == |nd| ==> forall i :: 0 <= i < |nd| ==> nd[i].val != Nil
    decreases |nd|
  {
    if nd != [] {
      NodeKeysFull(nd[..|nd| - 1]);
    }
  }

  lemma HalfwayStart(h: Hash, block: seq<Val>, na: nat, nh: nat)
    requires na <= |block|
    ensures Halfway(h, FreshNodes(block[..na], nh), block, na, HashSize(nh), na)
  {
    hide Inv, FreshNodes, Room, Capacity, HashSize, Get;
    FreshOk(h, block[..na], nh);
    FreshArray(block[..na], [], nh);
    InvCursor(h, FreshNodes(block[..na], nh));
  }

  /** A slot without a value. */
  lemma HalfwayEmpty(h: Hash, t: Tab, block: seq<Val>, na: nat, size: nat, i: nat)
    requires na <= i < |block| && Halfway(h, t, block, na, size, i) && block[i] == Nil
    ensures Halfway(h, t, block, na, size, i + 1) && !Disturbs(block, na, size, i)
  {
    hide Inv, Room, Capacity, Grown, Get;
  }

  /** What a store of the next value makes of it. */
  lemma HalfwayNext(h: Hash, t: Tab, t1: Tab, block: seq<Val>, na: nat, size: nat, i: nat)
    requires na <= i < |block| && Halfway(h, t, block, na, size, i) && block[i] != Nil
    requires |t1.node| > 0 && Stores(h, t, t1, Int(i + 1), block[i]) && |t1.arr| == na
    requires Capacity(t1) == Grown(Used(block, na, i + 1), size) && Room(t1) + Used(block, na, i + 1) >= Capacity(t1)
    ensures Halfway(h, t1, block, na, size, i + 1)
  {
    hide Inv, Room, Capacity, Grown, Get, Used;
  }

  /** While nodes are free nothing is rehashed. */
  lemma StepWithRoom(h: Hash, t: Tab, block: seq<Val>, na: nat, size: nat, i: nat)
    requires na <= i < |block| && Halfway(h, t, block, na, size, i) && block[i] != Nil
    requires t.lastfree <= |t.node| && Used(block, na, i) < Grown(Used(block, na, i), size)
    ensures !Reallocates(h, t, Int(i + 1)) && !Disturbs(block, na, size, i)
    ensures Halfway(h, Set(h, t, Int(i + 1), block[i]), block, na, size, i + 1)
  {
    hide Inv, Room, Grown, Get, Set, Put, PlaceKey, Present, Rehash, Stores;
    GrownStep(Used(block, na, i), size);
    RoomIsPut(h, t, Int(i + 1), block[i]);
    PutStores(h, t, Int(i + 1), block[i]);
    StoresIs(h, t, Put(h, t, Int(i + 1), block[i]), Int(i + 1), block[i]);
    HalfwayNext(h, t, Put(h, t, Int(i + 1), block[i]), block, na, size, i);
  }

  // ------------------------------------------------------------- a rehash on the way

  lemma FullNoRoom(h: Hash, t: Tab, k: Key)
    requires Inv(h, t) && |t.node| > 0 && t.lastfree <= |t.node| && (t.dummy || forall i :: 0 <= i < |t.node| ==> t.node[i].val != Nil)
    ensures PlaceKey(h, t, k).NoRoom?
  {
    hide Linked, Scattered, Distinct, Before, Outside;
  }

  /** All nodes are taken: the next key finds no room. */
  lemma FullRehashes(h: Hash, t: Tab, block: seq<Val>, na: nat, size: nat, i: nat)
    requires na <= i < |block| && Halfway(h, t, block, na, size, i)
    requires t.lastfree <= |t.node| && Used(block, na, i) == Grown(Used(block, na, i), size)
    ensures !Present(h, t, Int(i + 1)) && PlaceKey(h, t, Int(i + 1)).NoRoom?
  {
    hide Inv, Room, Grown, Get, PlaceKey, Slot;
    HalfwayKeys(h, t, block, na, size, i);
    NodeKeysFull(t.node);
    FullNoRoom(h, t, Int(i + 1));
    var r := Slot(h, t, Int(i + 1));
    if r != NULL {
      GetStored(h, t, r);
      DummyHasNone(h, t, r);
    }
  }

  lemma DummyHasNone(h: Hash, t: Tab, r: int)
    requires Inv(h, t) && 0 <= r < |t.node| && !t.node[r].key.NoKey?
    ensures !t.dummy
  {
  }

  lemma {:induction false} CntZero(keys: seq<Key>, m: int)
    requires forall k :: k in keys ==> !InRange(k, m)
    ensures Cnt(keys, m) == 0
    decreases |keys|
  {
    if keys != [] {
      CntZero(keys[..|keys| - 1], m);
    }
  }

  /** The keys that a rehash counts for the next slot. */
  lemma KeysForNext(h: Hash, t: Tab, block: seq<Val>, na: nat, size: nat, i: nat)
    requires na <= i < |block| && Halfway(h, t, block, na, size, i) && block[i] != Nil
    ensures var keys := AllKeys(t, Int(i + 1));
            BestSize(keys) == BestSize(ArrKeys(block[..i + 1])) && |keys| - Cnt(keys, na) == Used(block, na, i) + 1
  {
    hide Inv, Room, Grown, Get, Capacity, ArrKeys, NodeKeys, Cnt;
    HalfwayKeys(h, t, block, na, size, i);
    var a, b, k := ArrKeys(t.arr), NodeKeys(t.node), Int(i + 1);
    NextKey(block, i);
    NoDupConcat(a + b, [k]);
    ArrKeysAre(block[..i + 1]);
    SameBest(a + b + [k], ArrKeys(block[..i + 1]), MAXBITS);
    ArrAll(t.arr, na);
    ArrKeysAre(t.arr);
    HalfwayOutside(h, t);
    CntZero(b, na);
    CntOne(k, na);
    CntConcat(a, b, na);
    CntConcat(a + b, [k], na);
  }

  lemma NextKey(block: seq<Val>, i: nat)
    requires i < |block| && block[i] != Nil
    ensures ArrKeys(block[..i + 1]) == ArrKeys(block[..i]) + [Int(i + 1)]
    ensures Int(i + 1) !in ArrKeys(block[..i])
  {
    assert block[..i + 1][..i] == block[..i];
    ArrKeysAre(block[..i]);
  }

  lemma HalfwayOutside(h: Hash, t: Tab)
    requires Inv(h, t)
    ensures forall k :: k in NodeKeys(t.node) ==> !InRange(k, |t.arr|)
  {
    hide Linked, Scattered, CursorOk, NodeKeys;
    NodeKeysAre(t.node);
  }

  /** The rehash reallocates the block exactly if the array part deserves another size. */
  lemma StepFull(h: Hash, t: Tab, block: seq<Val>, na: nat, size: nat, i: nat)
    requires na <= i < |block| && Halfway(h, t, block, na, size, i) && block[i] != Nil
    requires t.lastfree <= |t.node| && Used(block, na, i) == Grown(Used(block, na, i), size)
    ensures Reallocates(h, t, Int(i + 1)) <==> Disturbs(block, na, size, i)
    ensures !Reallocates(h, t, Int(i + 1)) ==> Halfway(h, Set(h, t, Int(i + 1), block[i]), block, na, size, i + 1)
    ensures var t1 := Rehash(h, t, Int(i + 1));
            && |t1.node| > 0 && Inv(h, t1) && |t1.arr| == BestSize(ArrKeys(block[..i + 1]))
            && forall n :: n > i ==> Get(h, t1, Int(n)) == Nil
  {
    hide Inv, Room, Grown, Get, Put, PlaceKey, Present, AllKeys, BestSize, Resize, Stores, HashCount, Cnt, HashSize;
    var k, m := Int(i + 1), Used(block, na, i);
    FullRehashes(h, t, block, na, size, i);
    AbsentIsNew(h, t, k);
    KeysForNext(h, t, block, na, size, i);
    RehashMakesRoom(h, t, k);
    var t1 := Rehash(h, t, k);
    if |t1.arr| == na {
      MovingCount(t, k, na);
      ResizeKeepsMap(h, t, na, m + 1);
      GrownStep(m, size);
      HashSizeIs(m + 1);
      InvCursor(h, t1);
      PutStores(h, t1, k, block[i]);
      StoresAfter(h, t, t1, Put(h, t1, k, block[i]), k, block[i]);
      HalfwayNext(h, t, Put(h, t1, k, block[i]), block, na, size, i);
    }
  }

  lemma HashSizeIs(nh: nat)
    requires nh > 0
    ensures HashSize(nh) == Pow2(CeilLog2(nh))
  {
  }

  /** A store in a table that reads the same. */
  lemma StoresAfter(h: Hash, t: Tab, t1: Tab, t2: Tab, k: Key, v: Val)
    requires |t.node| > 0 && |t1.node| > 0 && Stores(h, t1, t2, k, v) && forall k2 :: Get(h, t1, k2) == Get(h, t, k2)
    ensures Stores(h, t, t2, k, v)
  {
    hide Inv, Get;
  }

  // ------------------------------------------------------------- the whole slice

  /** What is left when slot `i` is lost: the slots from `i` on have no values, in whatever block. */
  ghost predicate LostFrom(h: Hash, t: Tab, arr: seq<Val>, i: nat)
    requires i < |arr|
  {
    && |t.node| > 0 && Inv(h, t) && |t.arr| == BestSize(ArrKeys(arr[..i + 1]))
    && arr[i] != Nil && forall n :: n > i ==> Get(h, t, Int(n)) == Nil
  }

  lemma {:induction false} MoveSliceIs(h: Hash, t: Tab, block: seq<Val>, na: nat, size: nat, i: nat)
    requires na <= i <= |block| && Halfway(h, t, block, na, size, i) && |t.node| > 0 && t.lastfree <= |t.node|
    ensures var r := MoveSlice(h, t, block, i);
            if r.Kept? then (forall j :: i <= j < |block| ==> !Disturbs(block, na, size, j)) && Halfway(h, r.t, block, na, size, |block|)
            else
              && i <= r.i < |block| && Disturbs(block, na, size, r.i) && LostFrom(h, r.t, block, r.i)
              && forall j :: i <= j < r.i ==> !Disturbs(block, na, size, j)
    decreases |block| - i
  {
    hide Halfway, Disturbs, Reallocates, Set, Rehash, Used, Grown, LostFrom;
    if i < |block| {
      if block[i] == Nil {
        HalfwayEmpty(h, t, block, na, size, i);
        MoveSliceIs(h, t, block, na, size, i + 1);
      } else {
        MoveSliceStep(h, t, block, na, size, i);
        if !Reallocates(h, t, Int(i + 1)) {
          MoveSliceIs(h, Set(h, t, Int(i + 1), block[i]), block, na, size, i + 1);
        }
      }
    }
  }

  lemma MoveSliceStep(h: Hash, t: Tab, block: seq<Val>, na: nat, size: nat, i: nat)
    requires na <= i < |block| && Halfway(h, t, block, na, size, i) && block[i] != Nil && |t.node| > 0 && t.lastfree <= |t.node|
    ensures Reallocates(h, t, Int(i + 1)) <==> Disturbs(block, na, size, i)
    ensures Reallocates(h, t, Int(i + 1)) ==> LostFrom(h, Rehash(h, t, Int(i + 1)), block, i)
    ensures !Reallocates(h, t, Int(i + 1)) ==>
              var t1 := Set(h, t, Int(i + 1), block[i]);
              |t1.node| > 0 && t1.lastfree <= |t1.node| && Halfway(h, t1, block, na, size, i + 1)
  {
    hide Inv, Capacity, Room, Reallocates, Set, Rehash, Get, Used, Grown, BestSize, ArrKeys;
    GrownStep(Used(block, na, i), size);
    if Used(block, na, i) < Grown(Used(block, na, i), size) {
      StepWithRoom(h, t, block, na, size, i);
    } else {
      StepFull(h, t, block, na, size, i);
    }
    if !Reallocates(h, t, Int(i + 1)) {
      InvCursor(h, Set(h, t, Int(i + 1), block[i]));
    }
  }

  /** The table when all of the slice has moved, or there is none. */
  lemma SliceMoved(h: Hash, t: Tab, na: nat, nh: nat)
    requires Inv(h, t)
    ensures var t0 := FreshNodes(SizedArray(t.arr, na), nh);
            t0.lastfree <= |t0.node| &&
            var r := MoveSlice(h, t0, t.arr, na);
            if r.Kept? then
              && Undisturbed(t.arr, na, HashSize(nh)) && |r.t.node| > 0 && Inv(h, r.t)
              && forall k :: Get(h, r.t, k) == if InRange(k, |t.arr|) then t.arr[k.i - 1] else Nil
            else r.i < |t.arr| && FirstDisturbs(t.arr, na, HashSize(nh), r.i) && LostFrom(h, r.t, t.arr, r.i)
  {
    hide Inv, FreshNodes, HashSize, Disturbs, Get, LostFrom, Used, Grown, Capacity, Room;
    var t0 := FreshNodes(SizedArray(t.arr, na), nh);
    if na < |t.arr| {
      HalfwayStart(h, t.arr, na, nh);
      MoveSliceIs(h, t0, t.arr, na, HashSize(nh), na);
    } else {
      FreshOk(h, SizedArray(t.arr, na), nh);
    }
  }

  /** What was in the old hash part. */
  lemma NodesHave(h: Hash, t: Tab, k: Key)
    requires Inv(h, t)
    ensures var ps := NodesDown(t.node);
            && (forall i :: 0 <= i < |ps| && ps[i].0 == k ==> Get(h, t, k) == ps[i].1)
            && (!HasKey(ps, k) && !InArray(t, k) ==> Get(h, t, k) == Nil)
  {
    hide Linked, Scattered, CursorOk, NodesDown, Slot;
    var ps := NodesDown(t.node);
    NodesDownAre(t.node, |t.node|);
    assert t.node[..|t.node|] == t.node;
    forall i | 0 <= i < |ps| && ps[i].0 == k
      ensures Get(h, t, k) == ps[i].1
    {
      assert (k, ps[i].1) in ps;
      var j :| 0 <= j < |t.node| && t.node[j].key == k && t.node[j].val == ps[i].1 && ps[i].1 != Nil;
      GetStored(h, t, j);
    }
    if !k.NoKey? && !InArray(t, k) && Get(h, t, k) != Nil {
      HashHas(h, t, k, Get(h, t, k));
      var j :| 0 <= j < |t.node| && t.node[j].key == k && t.node[j].val != Nil;
      var i :| 0 <= i < |ps| && ps[i] == (k, t.node[j].val);
      assert ps[i].0 == k;
    }
  }

  lemma SlotsAndNodes(h: Hash, t: Tab, t1: Tab, t2: Tab, k: Key)
    requires Inv(h, t) && |t.node| > 0 && |t1.node| > 0 && |t2.node| > 0 && Holds(h, t1, t2, NodesDown(t.node))
    requires Get(h, t1, k) == if InRange(k, |t.arr|) then t.arr[k.i - 1] else Nil
    ensures Get(h, t2, k) == Get(h, t, k)
  {
    hide Inv, NodesDown, Slot;
    NodesHave(h, t, k);
    var ps := NodesDown(t.node);
    if HasKey(ps, k) {
      var i :| 0 <= i < |ps| && ps[i].0 == k;
      assert Get(h, t2, ps[i].0) == ps[i].1;
    }
  }

  /** `resize` to sizes that need not suffice. It moves every entry and keeps the map exactly if no slot
      that the array part loses disturbs it; the first one that does is read from a block that has been
      given away, and neither it nor the slots behind it have values afterwards. A rehash for an entry
      of the old hash part does no harm. */
  lemma ResizeInPlaceIff(h: Hash, t: Tab, na: nat, nh: nat)
    requires Inv(h, t)
    ensures ResizeInPlace(h, t, na, nh).Kept? <==> Undisturbed(t.arr, na, HashSize(nh))
    ensures var r := ResizeInPlace(h, t, na, nh);
            if r.Kept? then |r.t.node| > 0 && Inv(h, r.t) && forall k :: Get(h, r.t, k) == Get(h, t, k)
            else r.i < |t.arr| && FirstDisturbs(t.arr, na, HashSize(nh), r.i) && LostFrom(h, r.t, t.arr, r.i)
  {
    hide Inv, FreshNodes, HashSize, Disturbs, Get, LostFrom, MoveSlice, SetAll, Entries, Holds, SizedArray;
    InvCursor(h, t);
    SliceMoved(h, t, na, nh);
    var r := MoveSlice(h, FreshNodes(SizedArray(t.arr, na), nh), t.arr, na);
    if r.Kept? {
      InvCursor(h, r.t);
      NodesAre(h, t);
      SetAllStores(h, r.t, NodesDown(t.node));
      forall k
        ensures Get(h, SetAll(h, r.t, NodesDown(t.node)), k) == Get(h, t, k)
      {
        SlotsAndNodes(h, t, r.t, SetAll(h, r.t, NodesDown(t.node)), k);
      }
    }
  }

  lemma NodesAre(h: Hash, t: Tab)
    requires Inv(h, t)
    ensures Entries(NodesDown(t.node))
  {
    hide Linked, Scattered, CursorOk, NodesDown;
    NodesDownAre(t.node, |t.node|);
    assert t.node[..|t.node|] == t.node;
  }

  // ------------------------------------------------------------- a rehash never disturbs its own resizing

  lemma {:induction false} MoveSliceWithRoom(h: Hash, t: Tab, block: seq<Val>, i: nat, rest: seq<(Key, Val)>)
    requires Inv(h, t) && Entries(Vanishing(block, i) + rest) && Room(t) >= HashCount(Vanishing(block, i) + rest, |t.arr|)
    requires |t.node| > 0 && t.lastfree <= |t.node|
    ensures var r := MoveSlice(h, t, block, i);
            && r.Kept? && |r.t.node| > 0 && r.t.lastfree <= |r.t.node|
            && SetAll(h, r.t, rest) == PutAll(h, t, Vanishing(block, i) + rest)
    decreases |block| - i
  {
    hide Inv, Entries, Room, HashCount, Put, PutAll, SetAll, Set, Vanishing, Reallocates;
    if i < |block| {
      VanishingFront(block, i);
      if block[i] == Nil {
        MoveSliceWithRoom(h, t, block, i + 1, rest);
      } else {
        var x, more := (Int(i + 1), block[i]), Vanishing(block, i + 1) + rest;
        assert Vanishing(block, i) + rest == [x] + more;
        PutAllStep(h, t, x, more);
        RoomNotReallocated(h, t, x.0);
        MoveSliceWithRoom(h, Put(h, t, x.0, x.1), block, i + 1, rest);
      }
    } else {
      NothingVanishes(block, i);
      assert [] + rest == rest;
      SetAllWithRoom(h, t, rest);
    }
  }

  lemma RoomNotReallocated(h: Hash, t: Tab, k: Key)
    requires Inv(h, t) && !k.NoKey? && |t.node| > 0 && t.lastfree <= |t.node| && (Present(h, t, k) || Room(t) > 0)
    ensures !Reallocates(h, t, k)
  {
    hide Inv, Present, PlaceKey, Room, Rehash;
    RoomIsPut(h, t, k, Nil);
  }

  /** With room for all that moves, as after a rehash, resizing in place is storing the entries one
      after the other. */
  lemma ResizeWithRoom(h: Hash, t: Tab, na: nat, nh: nat)
    requires Inv(h, t) && nh >= HashCount(Moving(t, na), na)
    ensures ResizeInPlace(h, t, na, nh) == Kept(Resize(h, t, na, nh))
  {
    hide Inv, Room, HashCount, PutAll, FreshNodes, Entries, Vanishing, NodesDown, MoveSlice, SetAll, Capacity, HashSize;
    MovingAre(h, t, na);
    var t0 := FreshNodes(SizedArray(t.arr, na), nh);
    FreshOk(h, SizedArray(t.arr, na), nh);
    FreshArray(SizedArray(t.arr, na), [], nh);
    InvCursor(h, t0);
    MoveSliceWithRoom(h, t0, t.arr, na, NodesDown(t.node));
  }

  // ------------------------------------------------------------- a resize that loses entries

  lemma OneKeyOneSlot(keys: seq<Key>)
    requires keys == [Int(1)]
    ensures BestSize(keys) == 1
  {
    forall j: nat | 0 < j <= MAXBITS
      ensures !Worth(keys, j)
    {
      CntOne(Int(1), Pow2(j));
      Pow2Monotone(1, j);
    }
    NothingAbove(keys, 0, MAXBITS);
    CntOne(Int(1), 1);
  }

  lemma NoHashInv(h: Hash, t: Tab)
    requires t.node == [FREE] && t.lastfree == 0 && t.dummy
    ensures Inv(h, t)
  {
    hide IsChain;
    AllFreeOk(h, t.node);
  }

  lemma FirstKey(arr: seq<Val>)
    requires arr != [] && arr[0] != Nil
    ensures ArrKeys(arr[..1]) == [Int(1)]
  {
    assert arr[..1][..0] == [];
  }

  /** Without a hash part, `luaH_resizearray` to no slots at all loses every entry of the array part if
      its first slot is in use: the first key calls for a rehash, which leaves a block of one empty slot. */
  lemma ShrinkLoses(h: Hash, t: Tab)
    requires t.arr != [] && t.arr[0] != Nil && t.node == [FREE] && t.lastfree == 0 && t.dummy
    ensures Inv(h, t) && Get(h, t, Int(1)) != Nil
    ensures var r := ResizeInPlace(h, t, 0, 0);
            r.Lost? && r.i == 0 && |r.t.node| > 0 && |r.t.arr| == 1 && forall n :: n >= 1 ==> Get(h, r.t, Int(n)) == Nil
  {
    hide Inv, ResizeInPlace, BestSize, ArrKeys;
    NoHashInv(h, t);
    ResizeInPlaceIff(h, t, 0, 0);
    FirstKey(t.arr);
    OneKeyOneSlot(ArrKeys(t.arr[..1]));
    assert Disturbs(t.arr, 0, 0, 0);
  }
}
