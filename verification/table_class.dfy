/**
 Tables as they are written: vectors that are changed in place, and loops along chains.
 */
module TableClass {
  import opened Tables
  import opened TableInsert
  import opened TableSet
  import opened TableRehash
  import opened TableGrow
  import opened TableCounts
  import opened TableShrink
  import opened TableNext
  import opened Sequences

  /** What `luaH_set` returns a pointer to. */
  datatype Place = InArr(i: int) | InHash(i: int)

  predicate PlaceOk(t: Tab, p: Place, k: Key) {
    match p
    case InArr(i) => 0 <= i < |t.arr| && k == Int(i + 1)
    case InHash(i) => 0 <= i < |t.node| && t.node[i].key == k
  }

  /** The table after an assignment through the pointer. */
  function Assigned(t: Tab, p: Place, v: Val): Tab {
    match p
    case InArr(i) => if 0 <= i < |t.arr| then t.(arr := t.arr[i := v]) else t
    case InHash(i) => if 0 <= i < |t.node| then t.(node := SetVal(t.node, i, v)) else t
  }

  /** The border of the array-like part of a table (section 2.5.5 of the Lua 5.1 Reference Manual). */
  predicate Border(h: Hash, t: Tab, n: int)
    requires |t.node| > 0
  {
    n >= 0 && (n > 0 ==> Get(h, t, Int(n)) != Nil) && Get(h, t, Int(n + 1)) == Nil
  }

  const MAX_INT := 0x7fff_ffff

  // ------------------------------------------------------------- facts for the methods

  lemma PlacedIsSet(h: Hash, t: Tab, k: Key, v: Val)
    requires |t.node| > 0 && t.lastfree <= |t.node| && !Present(h, t, k) && PlaceKey(h, t, k).Placed?
    requires 0 <= PlaceKey(h, t, k).pos < |PlaceKey(h, t, k).t.node|
    ensures Assigned(PlaceKey(h, t, k).t, InHash(PlaceKey(h, t, k).pos), v) == Set(h, t, k, v)
  {
  }

  lemma PresentIsSet(h: Hash, t: Tab, k: Key, v: Val)
    requires |t.node| > 0 && t.lastfree <= |t.node|
    ensures InArray(t, k) ==> Assigned(t, InArr(k.i - 1), v) == Set(h, t, k, v)
    ensures !InArray(t, k) && Slot(h, t, k) != NULL ==> Assigned(t, InHash(Slot(h, t, k)), v) == Set(h, t, k, v)
  {
  }

  lemma RehashedIsSet(h: Hash, t: Tab, k: Key, v: Val)
    requires Inv(h, t) && NewKey(t, k) && !Present(h, t, k) && |t.node| > 0 && t.lastfree <= |t.node| && PlaceKey(h, t, k).NoRoom?
    ensures var t1 := Rehash(h, t, k);
            && |t1.node| > 0 && t1.lastfree <= |t1.node| && Inv(h, t1) && (Present(h, t1, k) || Room(t1) > 0)
            && Set(h, t1, k, v) == Set(h, t, k, v)
  {
    hide Inv, Rehash, Put, PlaceKey, Present, Room;
    RehashMakesRoom(h, t, k);
    var t1 := Rehash(h, t, k);
    InvCursor(h, t1);
    RoomIsPut(h, t1, k, v);
  }

  lemma AssignedKeepsInv(h: Hash, t: Tab, p: Place, k: Key, v: Val)
    requires Inv(h, t) && PlaceOk(t, p, k) && !k.NoKey?
    ensures Inv(h, Assigned(t, p, v)) && |Assigned(t, p, v).arr| == |t.arr|
  {
    hide Linked, FreeOk, Scattered, Distinct, CursorOk, Outside;
    if p.InHash? {
      SetValKeepsInv(h, t, p.i, v);
    } else {
      PutInArray(h, t, k, v);
      StoresIs(h, t, Assigned(t, p, v), k, v);
    }
  }

  /** Moving the cursor over nodes that have keys. */
  lemma FullCursor(h: Hash, t: Tab, t': Tab)
    requires Inv(h, t) && t' == t.(lastfree := t'.lastfree) && t'.lastfree <= 0 && FreeBelow(t.node, t.lastfree) < 0
    requires t.lastfree <= |t.node|
    ensures Inv(h, t')
  {
    hide Linked, FreeOk, Scattered, Distinct;
    if !t.dummy {
      FreeBelowFinds(t.node, t.lastfree);
    }
  }

  lemma SetAllStep(h: Hash, t: Tab, x: (Key, Val), rest: seq<(Key, Val)>)
    requires Inv(h, t) && Entries([x] + rest) && |t.node| > 0 && t.lastfree <= |t.node|
    ensures var t1 := TableRehash.Set(h, t, x.0, x.1);
            && |t1.node| > 0 && t1.lastfree <= |t1.node| && Entries(rest) && !x.0.NoKey? && x.1 != Nil
            && SetAll(h, t, [x] + rest) == SetAll(h, t1, rest)
  {
    hide Inv, TableRehash.Set, Stores;
    var ps := [x] + rest;
    assert ps[0] == x && ps[1..] == rest;
    SetStores(h, t, x.0, x.1);
    StoresIs(h, t, TableRehash.Set(h, t, x.0, x.1), x.0, x.1);
    InvCursor(h, TableRehash.Set(h, t, x.0, x.1));
    EntriesTail(ps);
  }

  /** There is room for entries that can be stored one after the other. */
  ghost predicate Fits(t: Tab, ps: seq<(Key, Val)>) {
    Entries(ps) && Room(t) >= HashCount(ps, |t.arr|)
  }

  lemma FitsStep(h: Hash, t: Tab, x: (Key, Val), rest: seq<(Key, Val)>)
    requires Inv(h, t) && |t.node| > 0 && t.lastfree <= |t.node| && Fits(t, [x] + rest)
    ensures Present(h, t, x.0) || Room(t) > 0
    ensures Fits(TableRehash.Set(h, t, x.0, x.1), rest) && !Reallocates(h, t, x.0)
  {
    hide Inv, Entries, Room, HashCount, TableRehash.Set, Present, Reallocates;
    PutAllStep(h, t, x, rest);
    KeyOfFirst(x, rest);
    RoomNotReallocated(h, t, x.0);
  }

  lemma KeyOfFirst(x: (Key, Val), rest: seq<(Key, Val)>)
    requires Entries([x] + rest)
    ensures !x.0.NoKey?
  {
    assert ([x] + rest)[0] == x;
  }

  /** What `resize` starts from, and what it comes to. */
  lemma ResizeStarts(h: Hash, t: Tab, na: nat, nh: nat)
    requires Inv(h, t) && Undisturbed(t.arr, na, HashSize(nh))
    ensures var t0 := FreshNodes(SizedArray(t.arr, na), nh);
            && Inv(h, t0) && |t0.node| > 0 && t0.lastfree <= |t0.node| && MoveSlice(h, t0, t.arr, na).Kept?
            && (na >= |t.arr| ==> MoveSlice(h, t0, t.arr, na).t == t0)
            && (nh >= HashCount(Moving(t, na), na) ==> Fits(t0, Vanishing(t.arr, na) + NodesDown(t.node)))
            && (na >= |t.arr| && nh >= HashCount(Moving(t, na), na) ==> Fits(t0, NodesDown(t.node)))
            && var t1 := MoveSlice(h, t0, t.arr, na).t;
            (|t1.node| > 0 && t1.lastfree <= |t1.node| ==> ResizeInPlace(h, t, na, nh) == Kept(SetAll(h, t1, NodesDown(t.node))))
    ensures Entries(NodesDown(t.node))
  {
    hide Inv, Undisturbed, HashSize, Entries, FreshNodes, Vanishing, NodesDown, SetAll, Room, HashCount, Capacity;
    ResizeInPlaceIff(h, t, na, nh);
    MovingAre(h, t, na);
    NodesAre(h, t);
    var t0 := FreshNodes(SizedArray(t.arr, na), nh);
    FreshOk(h, SizedArray(t.arr, na), nh);
    FreshArray(SizedArray(t.arr, na), [], nh);
    InvCursor(h, t0);
    if na >= |t.arr| {
      NothingVanishes(t.arr, na);
      assert [] + NodesDown(t.node) == NodesDown(t.node);
    }
  }

  /** One slot of the slice: the array part keeps its size. */
  lemma MoveSliceNext(h: Hash, t: Tab, block: seq<Val>, i: nat)
    requires Inv(h, t) && |t.node| > 0 && t.lastfree <= |t.node|
    requires i < |block| && block[i] != Nil && MoveSlice(h, t, block, i).Kept?
    ensures !Reallocates(h, t, Int(i + 1))
    ensures var t1 := TableRehash.Set(h, t, Int(i + 1), block[i]);
            && |t1.node| > 0 && t1.lastfree <= |t1.node| && |t1.arr| == |t.arr|
            && MoveSlice(h, t1, block, i + 1) == MoveSlice(h, t, block, i)
  {
    hide Inv, TableRehash.Set, Stores, Reallocates;
    var t1 := TableRehash.Set(h, t, Int(i + 1), block[i]);
    SetStores(h, t, Int(i + 1), block[i]);
    StoresIs(h, t, t1, Int(i + 1), block[i]);
    InvCursor(h, t1);
    SetKeepsSize(h, t, Int(i + 1), block[i]);
  }

  lemma PutKeepsSize(h: Hash, t: Tab, k: Key, v: Val)
    requires |t.node| > 0 && t.lastfree <= |t.node|
    ensures |Put(h, t, k, v).arr| == |t.arr|
  {
    hide Slot, FreeBelow, Before, MainPos;
  }

  lemma SetKeepsSize(h: Hash, t: Tab, k: Key, v: Val)
    requires |t.node| > 0 && t.lastfree <= |t.node| && !Reallocates(h, t, k)
    ensures |TableRehash.Set(h, t, k, v).arr| == |t.arr|
  {
    hide Rehash, Put, PlaceKey, Present;
    PutKeepsSize(h, t, k, v);
    var t1 := Rehash(h, t, k);
    if |t1.node| > 0 && t1.lastfree <= |t1.node| {
      PutKeepsSize(h, t1, k, v);
    }
  }

  lemma MoveSliceEmpty(h: Hash, t: Tab, block: seq<Val>, i: nat)
    requires |t.node| > 0 && t.lastfree <= |t.node| && i < |block| && block[i] == Nil
    ensures MoveSlice(h, t, block, i + 1) == MoveSlice(h, t, block, i)
  {
  }

  lemma MoveSliceEnd(h: Hash, t: Tab, block: seq<Val>)
    requires |t.node| > 0 && t.lastfree <= |t.node|
    ensures MoveSlice(h, t, block, |block|) == Kept(t) && Vanishing(block, |block|) == []
  {
  }

  lemma SameSize(t: Tab, p: Place, v: Val)
    ensures |Assigned(t, p, v).arr| == |t.arr|
  {
  }

  lemma NothingSet(h: Hash, t: Tab, nd: seq<Node>)
    requires |t.node| > 0 && t.lastfree <= |t.node|
    ensures SetAll(h, t, NodesDown(nd[..0])) == t
  {
  }

  class LuaTable {
    const h: Hash
    // The block of the array part holds `arr` and, while the array part shrinks, what is `behind` it.
    var arr: seq<Val>
    var behind: seq<Val>
    var node: seq<Node>
    var lastfree: int
    var dummy: bool

    ghost function S(): Tab
      reads this
    {
      Tab(arr, node, lastfree, dummy)
    }

    ghost predicate Valid()
      reads this
    {
      && |node| > 0 && lastfree <= |node| && Inv(h, S()) && |arr| <= MAXASIZE
    }

    /** `luaH_new` */
    constructor (h: Hash, narray: nat, nhash: nat)
      requires narray <= MAXASIZE
      ensures this.h == h && Valid() && S() == FreshNodes(Nils(narray), nhash)
      ensures forall k :: Tables.Get(h, S(), k) == Nil
    {
      this.h := h;
      arr, behind := Nils(narray), [];
      node, lastfree, dummy := [FREE], 0, true;
      if nhash > 0 {
        node, lastfree, dummy := FreeNodes(Pow2(CeilLog2(nhash))), Pow2(CeilLog2(nhash)), false;
      }
      new;
      FreshOk(h, Nils(narray), nhash);
    }

    // ----------------------------------------------------------- searching

    /** The loop of `luaH_getnum`, `luaH_getstr` and `luaH_get` along the chain of a key. */
    method Search(k: Key) returns (r: int)
      requires Valid()
      ensures r == Slot(h, S(), k)
    {
      r := MainPos(h, k, |node|);
      LinkedHas(node);
      assert HasChain(node, r);
      ghost var l :| IsChain(node, r, l);
      ghost var fuel := |node|;
      ChainLength(node, r, l);
      while true
        invariant IsChain(node, r, l) && l != [] && |l| <= fuel
        invariant Find(node, r, k, fuel) == Slot(h, S(), k)
        decreases |l|
      {
        if node[r].key == k {
          return;
        }
        r := node[r].next;
        l, fuel := l[1..], fuel - 1;
        if r == NULL {
          return;
        }
      }
    }

    /** `luaH_getnum` */
    method GetNum(i: int) returns (v: Val)
      requires Valid()
      ensures v == Tables.Get(h, S(), Int(i))
    {
      if 0 <= i - 1 < |arr| {
        return arr[i - 1];
      }
      var r := Search(Int(i));
      v := if r == NULL then Nil else node[r].val;
    }

    /** `luaH_get` */
    method Get(k: Key) returns (v: Val)
      requires Valid()
      ensures v == Tables.Get(h, S(), k)
    {
      match k {
        case NoKey =>
          v := Nil;
        case Int(i) =>
          v := GetNum(i);
        case _ =>
          var r := Search(k);
          v := if r == NULL then Nil else node[r].val;
      }
    }

    // ----------------------------------------------------------- new keys

    /** `getfreepos` */
    method GetFreePos() returns (n: int)
      requires lastfree <= |node|
      modifies `lastfree
      ensures n == FreeBelow(node, old(lastfree))
      ensures lastfree == if n >= 0 then n else if old(lastfree) <= 0 then old(lastfree) - 1 else -1
    {
      while lastfree > 0
        invariant lastfree <= |node| && FreeBelow(node, lastfree) == FreeBelow(node, old(lastfree))
        invariant old(lastfree) <= 0 ==> lastfree == old(lastfree)
        invariant old(lastfree) > 0 ==> lastfree >= 0
      {
        lastfree := lastfree - 1;
        if node[lastfree].key.NoKey? {
          return lastfree;
        }
      }
      lastfree := lastfree - 1;
      n := -1;
    }

    /** The loop of `newkey` that looks for the node in front of `mp`. */
    method FindPrevious(o: int, mp: int, ghost t: Tab) returns (prev: int)
      requires Inv(h, t) && t.node == node
      requires 0 <= mp < |node| && !node[mp].key.NoKey? && o == MainPos(h, node[mp].key, |node|) && o != mp
      ensures prev == Before(node, o, mp, |node|) && 0 <= prev < |node| && node[prev].next == mp
    {
      hide Inv, MainPos;
      PrevFinds(h, t, mp);
      ghost var l := HomeChain(h, t, mp);
      ghost var fuel := |node|;
      prev := o;
      while node[prev].next != mp
        invariant IsChain(node, prev, l) && l != [] && |l| <= fuel && mp in l && prev != mp && 0 <= prev < |node|
        invariant Before(node, prev, mp, fuel) == Before(node, o, mp, |node|)
        decreases |l|
      {
        assert l == [l[0]] + l[1..];
        prev := node[prev].next;
        l, fuel := l[1..], fuel - 1;
      }
    }

    /** The colliding node at `mp` is not at home: it moves to the free node `n`. */
    method MoveNode(mp: int, n: int, othern: int, k: Key, ghost t: Tab)
      requires Inv(h, t) && t.node == node
      requires 0 <= mp < |node| && !node[mp].key.NoKey? && othern == MainPos(h, node[mp].key, |node|) && othern != mp
      requires 0 <= n < |node|
      modifies `node
      ensures var prev := Before(old(node), othern, mp, |old(node)|);
              0 <= prev < |old(node)| && node == MoveAway(old(node), prev, mp, n, k)
    {
      hide Inv, MoveAway, Before;
      var prev := FindPrevious(othern, mp, t);
      PrevFinds(h, t, mp);
      MovedInSteps(node, prev, mp, n, k);
      node := node[prev := Node(node[prev].key, node[prev].val, n)];
      node := node[n := node[mp]];
      node := node[mp := Node(k, Nil, NULL)];
    }

    /** `newkey` up to the rehash: a slot for the key, if there is a free place. */
    method PlaceNew(k: Key) returns (placed: bool, pos: int)
      requires Valid() && TableInsert.NewKey(S(), k)
      modifies `node, `lastfree
      ensures match PlaceKey(h, old(S()), k)
              case Placed(t, p) => placed && S() == t && pos == p && 0 <= pos < |node| && node[pos].key == k
              case NoRoom(t) => !placed && S() == t && node == old(node) && FreeBelow(node, old(lastfree)) < 0 && lastfree <= 0
      ensures Valid()
    {
      hide Inv, PlaceKey, FreeBelow, Before, MoveAway;
      ghost var was := S();
      PlaceKeyKeepsInv(h, was, k);
      var mp := MainPos(h, k, |node|);
      if node[mp].val != Nil || dummy {
        var n := GetFreePos();
        if n < 0 {
          NoRoomIs(h, was, k);
          FullCursor(h, was, S());
          return false, -1;
        }
        DummyOne(h, was);
        PlaceKeyCases(h, was, k);
        ValueKey(h, was, mp);
        var othern := MainPos(h, node[mp].key, |node|);
        if othern != mp {
          MoveNode(mp, n, othern, k, was);
        } else {
          node := node[n := Node(k, Nil, node[mp].next)];
          FreeOther(h, was, mp, n);
          node := node[mp := Node(node[mp].key, node[mp].val, n)];
          mp := n;
        }
      } else {
        PlaceKeyCases(h, was, k);
        node := node[mp := Node(k, node[mp].val, node[mp].next)];
      }
      return true, mp;
    }

    /** `newkey` */
    method NewKey(k: Key, ghost roomy: bool) returns (p: Place)
      requires Valid() && TableInsert.NewKey(S(), k) && !Present(h, S(), k) && (roomy ==> Room(S()) > 0)
      modifies this
      ensures Valid() && PlaceOk(S(), p, k) && forall v :: Assigned(S(), p, v) == TableRehash.Set(h, old(S()), k, v)
      ensures behind == if Reallocates(h, old(S()), k) then [] else old(behind)
      decreases if roomy then 0 else 1, 1
    {
      hide Inv, PlaceKey, Assigned, TableRehash.Set, Room, Present, TableRehash.Rehash;
      ghost var was := S();
      PlacedHasRoom(h, was, k);
      var placed, pos := PlaceNew(k);
      if placed {
        forall v {
          PlacedIsSet(h, was, k, v);
        }
        return InHash(pos);
      }
      forall v {
        RehashedIsSet(h, was, k, v);
      }
      RehashCursor(h, was, S(), k);
      Rehash(k);
      RehashedIsSet(h, was, k, Nil);
      RoomNotReallocated(h, S(), k);
      p := SetSlot(k, true);
    }

    /** `luaH_set`: the slot of the key, which is made if it is not there. `roomy` says that no rehash
        is needed; a rehash only stores what has room. */
    method SetSlot(k: Key, ghost roomy: bool) returns (p: Place)
      requires Valid() && !k.NoKey? && (roomy ==> Present(h, S(), k) || Room(S()) > 0)
      modifies this
      ensures Valid() && PlaceOk(S(), p, k) && forall v :: Assigned(S(), p, v) == TableRehash.Set(h, old(S()), k, v)
      ensures behind == if Reallocates(h, old(S()), k) then [] else old(behind)
      decreases if roomy then 0 else 1, 2
    {
      hide Inv, Assigned, TableRehash.Set, Room, Slot, TableRehash.Rehash, PlaceKey;
      forall v {
        PresentIsSet(h, S(), k, v);
      }
      if k.Int? && 1 <= k.i <= |arr| {
        return InArr(k.i - 1);
      }
      var r := Search(k);
      if r != NULL {
        return InHash(r);
      }
      AbsentIsNew(h, S(), k);
      p := NewKey(k, roomy);
    }

    /** The assignment through the pointer. */
    method Assign(p: Place, ghost k: Key, v: Val)
      requires Valid() && PlaceOk(S(), p, k) && !k.NoKey?
      modifies `arr, `node
      ensures S() == Assigned(old(S()), p, v) && Valid() && |arr| == old(|arr|)
    {
      AssignedKeepsInv(h, S(), p, k, v);
      match p {
        case InArr(i) => arr := arr[i := v];
        case InHash(i) => node := node[i := Node(node[i].key, v, node[i].next)];
      }
    }

    /** A store: the key reads back the value and every other key reads as before. */
    method Set(k: Key, v: Val)
      requires Valid() && !k.NoKey?
      modifies this
      ensures Valid() && S() == TableRehash.Set(h, old(S()), k, v)
      ensures Tables.Get(h, S(), k) == v
      ensures forall k2 :: k2 != k ==> Tables.Get(h, S(), k2) == Tables.Get(h, old(S()), k2)
    {
      hide Inv, Assigned, TableRehash.Set, Room, Tables.Get;
      SetStores(h, S(), k, v);
      var p := SetSlot(k, false);
      Assign(p, k, v);
    }

    // ----------------------------------------------------------- growing

    /** `setnodevector` */
    method SetNodeVector(size: nat)
      modifies `node, `lastfree, `dummy
      ensures S() == FreshNodes(arr, size)
    {
      if size == 0 {
        node, lastfree, dummy := [FREE], 0, true;
      } else {
        node, lastfree, dummy := FreeNodes(Pow2(CeilLog2(size))), Pow2(CeilLog2(size)), false;
      }
    }

    /** `countint` */
    method CountInt(k: Key, nums: array<int>) returns (c: int)
      requires nums.Length == MAXBITS + 1
      modifies nums
      ensures forall j :: 0 <= j <= MAXBITS ==> nums[j] == old(nums[j]) + Slice([k], j)
      ensures c == Cnt([k], MAXASIZE)
    {
      hide Pow2, CeilLog2, Cnt, Slice;
      forall j | 0 <= j <= MAXBITS
        ensures Slice([k], j) == if InRange(k, MAXASIZE) && j == CeilLog2(k.i) then 1 else 0
      {
        SliceOne(k, j);
      }
      SliceOne(k, 0);
      CntOne(k, MAXASIZE);
      if InRange(k, MAXASIZE) {
        var lg := CeilLog2(k.i);
        nums[lg] := nums[lg] + 1;
        return 1;
      }
      c := 0;
    }

    /** The inner loop of `numusearray`: the values from place `i` to `lim`. */
    method CountSlice(from: int, lim: int) returns (lc: int, i: int)
      requires 1 <= from <= lim + 1 <= |arr| + 1
      ensures i == lim + 1 && lc == Cnt(ArrKeys(arr), lim) - Cnt(ArrKeys(arr), from - 1)
    {
      hide Cnt, ArrKeys;
      lc, i := 0, from;
      while i <= lim
        invariant from <= i <= lim + 1 && lc == Cnt(ArrKeys(arr), i - 1) - Cnt(ArrKeys(arr), from - 1)
      {
        ArrStep(arr, i - 1);
        if arr[i - 1] != Nil {
          lc := lc + 1;
        }
        i := i + 1;
      }
    }

    /** `numusearray` */
    method NumUseArray(nums: array<int>) returns (ause: int)
      requires nums.Length == MAXBITS + 1 && |arr| <= MAXASIZE
      modifies nums
      ensures forall j :: 0 <= j <= MAXBITS ==> nums[j] == old(nums[j]) + Slice(ArrKeys(arr), j)
      ensures ause == |ArrKeys(arr)| == Cnt(ArrKeys(arr), MAXASIZE)
    {
      hide Cnt, ArrKeys, Pow2;
      var lg, ttlg, i := 0, 1, 1;
      ause := 0;
      ArrNothing(arr);
      Pow2Zero();
      ArrAll(arr, MAXASIZE);
      while lg <= MAXBITS
        invariant 0 <= lg <= MAXBITS + 1 && ttlg == Pow2(lg)
        invariant 1 <= i <= |arr| + 1 && i == (if lg == 0 then 1 else Min(Pow2(lg - 1), |arr|) + 1)
        invariant ause == Cnt(ArrKeys(arr), i - 1)
        invariant forall j :: 0 <= j < lg ==> nums[j] == old(nums[j]) + Slice(ArrKeys(arr), j)
        invariant forall j :: lg <= j <= MAXBITS ==> nums[j] == old(nums[j])
      {
        var lim := ttlg;
        if lim > |arr| {
          lim := |arr|;
          if i > lim {
            break;
          }
        }
        if lg > 0 {
          Pow2Monotone(lg - 1, lg);
        }
        SliceSpan(arr, lg, i, lim);
        var lc, next := CountSlice(i, lim);
        i := next;
        nums[lg] := nums[lg] + lc;
        ause := ause + lc;
        lg, ttlg := lg + 1, ttlg * 2;
        Pow2Double(lg);
      }
      forall j | lg <= j <= MAXBITS
        ensures Slice(ArrKeys(arr), j) == 0
      {
        RestBeyond(arr, lg, j);
      }
      ArrAll(arr, |arr|);
    }

    /** `numusehash` */
    method NumUseHash(nums: array<int>, narray: int) returns (totaluse: int, na: int)
      requires nums.Length == MAXBITS + 1
      modifies nums
      ensures forall j :: 0 <= j <= MAXBITS ==> nums[j] == old(nums[j]) + Slice(NodeKeys(node), j)
      ensures totaluse == |NodeKeys(node)| && na == narray + Cnt(NodeKeys(node), MAXASIZE)
    {
      hide Cnt, Slice, Pow2;
      var i := |node|;
      totaluse := 0;
      var ause := 0;
      assert node[..i] == node;
      while i > 0
        invariant 0 <= i <= |node|
        invariant totaluse == |NodeKeys(node)| - |NodeKeys(node[..i])|
        invariant ause == Cnt(NodeKeys(node), MAXASIZE) - Cnt(NodeKeys(node[..i]), MAXASIZE)
        invariant forall j :: 0 <= j <= MAXBITS ==>
                    nums[j] == old(nums[j]) + Slice(NodeKeys(node), j) - Slice(NodeKeys(node[..i]), j)
      {
        NodeKeysStep(node, i);
        NodeKeysCnt(node, i, MAXASIZE);
        forall j | 0 <= j <= MAXBITS {
          NodeKeysSlice(node, i, j);
        }
        i := i - 1;
        if node[i].val != Nil {
          var c := CountInt(node[i].key, nums);
          ause := ause + c;
          totaluse := totaluse + 1;
        }
      }
      NoNodeKeys(node);
      na := narray + ause;
    }

    /** `rehash` */
    method Rehash(k: Key)
      requires Valid() && TableInsert.NewKey(S(), k)
      modifies this
      ensures S() == TableRehash.Rehash(h, old(S()), k) && Valid()
      ensures behind == if |arr| == old(|arr|) then old(behind) else []
      decreases 1, 0
    {
      hide Inv, Cnt, Slice, Pow2, ArrKeys, NodeKeys, TableRehash.Resize, ResizeInPlace, Undisturbed, HashCount, BestSize, Moving, Capacity, Room;
      var nums := new int[MAXBITS + 1](_ => 0);
      ghost var a, b := ArrKeys(arr), NodeKeys(node);
      ghost var keys := AllKeys(S(), k);
      var nasize := NumUseArray(nums);
      var totaluse := nasize;
      var hashuse, nasize1 := NumUseHash(nums, nasize);
      totaluse := totaluse + hashuse;
      var c := CountInt(k, nums);
      nasize1 := nasize1 + c;
      totaluse := totaluse + 1;
      forall j | 0 <= j <= MAXBITS
        ensures Slice(keys, j) == Slice(a, j) + Slice(b, j) + Slice([k], j)
      {
        SliceConcat(a, b, j);
        SliceConcat(a + b, [k], j);
      }
      CntConcat(a, b, MAXASIZE);
      CntConcat(a + b, [k], MAXASIZE);
      AllKeysDistinct(h, S(), k);
      var n, na := ComputeSizes(nums, nasize1, keys);
      MovingCount(S(), k, n);
      BestSizeSmall(keys);
      ResizeWithRoom(h, S(), n, totaluse - na);
      ResizeInPlaceIff(h, S(), n, totaluse - na);
      ResizeKeepsMap(h, S(), n, totaluse - na);
      Resize(n, totaluse - na, true);
    }

    /** The loop of `resize` over the slots that the array part has lost. The value of a slot is read
        from the block as it is when there is a place for it. */
    method ReinsertSlice(oldasize: nat, ghost block: seq<Val>, ghost roomy: bool, ghost rest: seq<(Key, Val)>)
      requires Valid() && |arr| <= |block| == oldasize && block[|arr|..] <= behind && MoveSlice(h, S(), block, |arr|).Kept?
      requires roomy ==> Fits(S(), Vanishing(block, |arr|) + rest)
      modifies this
      ensures Valid() && MoveSlice(h, old(S()), block, old(|arr|)) == Kept(S()) && |arr| == old(|arr|)
      ensures roomy ==> Fits(S(), rest)
      decreases if roomy then 0 else 1, 4
    {
      hide Inv, Fits, MoveSlice, Vanishing, Reallocates, TableRehash.Set, Assigned, PlaceOk;
      var i := |arr|;
      while i < oldasize
        invariant |arr| == old(|arr|) <= i <= |block| && Valid() && block[|arr|..] <= behind
        invariant MoveSlice(h, S(), block, i) == MoveSlice(h, old(S()), block, old(|arr|))
        invariant roomy ==> Fits(S(), Vanishing(block, i) + rest)
      {
        assert behind[i - |arr|] == block[i];
        VanishingFront(block, i);
        if behind[i - |arr|] != Nil {
          MoveSliceNext(h, S(), block, i);
          if roomy {
            assert Vanishing(block, i) + rest == [(Int(i + 1), block[i])] + (Vanishing(block, i + 1) + rest);
            FitsStep(h, S(), (Int(i + 1), block[i]), Vanishing(block, i + 1) + rest);
          }
          var p := SetSlot(Int(i + 1), roomy);
          SameSize(S(), p, block[i]);
          Assign(p, Int(i + 1), behind[i - |arr|]);
        } else {
          MoveSliceEmpty(h, S(), block, i);
        }
        i := i + 1;
      }
      MoveSliceEnd(h, S(), block);
      assert [] + rest == rest;
    }

    /** The loop of `resize` over the old nodes, from the last one down. */
    method ReinsertNodes(nold: seq<Node>, ghost roomy: bool)
      requires Valid() && Entries(NodesDown(nold)) && (roomy ==> Fits(S(), NodesDown(nold)))
      modifies this
      ensures Valid() && S() == SetAll(h, old(S()), NodesDown(nold))
      ensures roomy ==> behind == old(behind)
      decreases if roomy then 0 else 1, 4
    {
      hide Inv, Fits, SetAll, Entries, NodesDown, Reallocates, TableRehash.Set, Assigned, PlaceOk;
      var i := |nold|;
      assert nold[..i] == nold;
      while i > 0
        invariant 0 <= i <= |nold| && Valid() && Entries(NodesDown(nold[..i])) && (roomy ==> Fits(S(), NodesDown(nold[..i])))
        invariant SetAll(h, S(), NodesDown(nold[..i])) == SetAll(h, old(S()), NodesDown(nold))
        invariant roomy ==> behind == old(behind)
      {
        NodesDownStep(nold, i);
        i := i - 1;
        if nold[i].val != Nil {
          ghost var x := (nold[i].key, nold[i].val);
          SetAllStep(h, S(), x, NodesDown(nold[..i]));
          if roomy {
            FitsStep(h, S(), x, NodesDown(nold[..i]));
          }
          var p := SetSlot(nold[i].key, roomy);
          Assign(p, nold[i].key, nold[i].val);
        } else {
          assert [] + NodesDown(nold[..i]) == NodesDown(nold[..i]);
        }
      }
      NothingSet(h, S(), nold);
    }

    /** `resize`. `roomy` says that there is room for all that moves, as there is after a rehash. */
    method Resize(na: nat, nh: nat, ghost roomy: bool)
      requires Valid() && na <= MAXASIZE && Undisturbed(arr, na, HashSize(nh))
      requires roomy ==> nh >= HashCount(Moving(S(), na), na)
      modifies this
      ensures Valid() && ResizeInPlace(h, old(S()), na, nh) == Kept(S())
      ensures roomy ==> behind == if na == old(|arr|) then old(behind) else []
      decreases if roomy then 0 else 1, 5
    {
      hide Inv, Undisturbed, HashSize, Fits, MoveSlice, Entries, FreshNodes, Vanishing, NodesDown, SetAll, HashCount;
      ResizeStarts(h, S(), na, nh);
      var oldasize, nold := |arr|, node;
      ghost var block := arr;
      FreshArray(arr, SizedArray(arr, na), nh);
      if na > oldasize {
        arr, behind := SizedArray(arr, na), [];
      }
      SetNodeVector(nh);
      if na < oldasize {
        arr, behind := arr[..na], arr[na..] + behind;
      }
      assert S() == FreshNodes(SizedArray(block, na), nh);
      if na < oldasize {
        ReinsertSlice(oldasize, block, roomy, NodesDown(nold));
        behind := [];
      }
      ReinsertNodes(nold, roomy);
    }

    /** `luaH_resizearray`: a new size for the array part. A larger one never takes slots away; a smaller
        one must not be disturbed by a rehash on the way. */
    method ResizeArray(na: nat)
      requires Valid() && na <= MAXASIZE && Undisturbed(arr, na, HashSize(if dummy then 0 else |node|))
      modifies this
      ensures Valid() && ResizeInPlace(h, old(S()), na, if old(dummy) then 0 else |old(node)|) == Kept(S())
      ensures forall k :: Tables.Get(h, S(), k) == Tables.Get(h, old(S()), k)
      ensures na >= old(|arr|) || HashCount(Moving(old(S()), na), na) <= (if old(dummy) then 0 else |old(node)|) ==> |arr| == na
    {
      hide Inv, ResizeInPlace, TableRehash.Resize, Undisturbed, HashSize, HashCount, Moving, Tables.Get, Capacity, Room;
      var size := if dummy then 0 else |node|;
      ResizeInPlaceIff(h, S(), na, size);
      if na >= |arr| {
        NodesFit(h, S(), na);
      }
      if HashCount(Moving(S(), na), na) <= size {
        ResizeWithRoom(h, S(), na, size);
        ResizeKeepsMap(h, S(), na, size);
      }
      Resize(na, size, false);
    }

    // ----------------------------------------------------------- traversal and length

    /** `findindex` */
    method FindIndex(k: Key) returns (i: Index)
      requires Valid()
      ensures i == TableNext.FindIndex(h, S(), k)
    {
      if k.NoKey? {
        return Found(-1);
      }
      if k.Int? && 0 < k.i <= |arr| {
        return Found(k.i - 1);
      }
      var r := Search(k);
      i := if r == NULL then Invalid else Found(r + |arr|);
    }

    /** `luaH_next` */
    method Next(k: Key) returns (r: NextResult)
      requires Valid()
      ensures r == TableNext.Next(h, S(), k)
    {
      hide Inv, Slot, TableNext.FindIndex, FirstFrom;
      var at := FindIndex(k);
      if at.Invalid? {
        return Error;
      }
      IndexStarts(h, S(), k);
      var first := NextPlace(at.i + 1);
      if first < |arr| {
        return Entry(Int(first + 1), arr[first]);
      } else if first - |arr| < |node| {
        return Entry(node[first - |arr|].key, node[first - |arr|].val);
      }
      r := Done;
    }

    /** The two loops of `luaH_next`: first through the array part, then through the hash part. */
    method NextPlace(from: nat) returns (first: nat)
      requires Valid()
      ensures first == FirstFrom(S(), from)
    {
      hide Inv;
      var i := from;
      while i < |arr|
        invariant from <= i && FirstFrom(S(), i) == FirstFrom(S(), from)
      {
        if arr[i] != Nil {
          return i;
        }
        i := i + 1;
      }
      i := i - |arr|;
      while i < |node|
        invariant 0 <= i && FirstFrom(S(), i + |arr|) == FirstFrom(S(), from)
      {
        if node[i].val != Nil {
          return i + |arr|;
        }
        i := i + 1;
      }
      first := i + |arr|;
    }

    /** The binary search of `luaH_getn` in the array part. */
    method SearchArray() returns (i: int)
      requires Valid() && |arr| > 0 && arr[|arr| - 1] == Nil
      ensures Border(h, S(), i)
    {
      hide Inv, Slot;
      var j := |arr|;
      i := 0;
      while j - i > 1
        invariant 0 <= i < j <= |arr| && arr[j - 1] == Nil && (i > 0 ==> arr[i - 1] != Nil)
        decreases j - i
      {
        var m := (i + j) / 2;
        if arr[m - 1] == Nil {
          j := m;
        } else {
          i := m;
        }
      }
    }

    /** The linear search of `unbound_search`: the first place without a value. */
    method SearchLinear() returns (r: int)
      requires Valid()
      ensures Border(h, S(), r)
    {
      hide Inv, Tables.Get;
      ghost var keys := Present1(h, S());
      var i := 1;
      var v := GetNum(i);
      while v != Nil
        invariant i >= 1 && v == Tables.Get(h, S(), Int(i)) && (i > 1 ==> Tables.Get(h, S(), Int(i - 1)) != Nil)
        decreases Above(keys, i)
      {
        Present1Has(h, S(), i);
        AboveShrinks(keys, i);
        i := i + 1;
        v := GetNum(i);
      }
      r := i - 1;
    }

    /** `unbound_search` */
    method UnboundSearch(start: int) returns (r: int)
      requires Valid() && 0 <= start <= MAXASIZE && (start > 0 ==> Tables.Get(h, S(), Int(start)) != Nil)
      ensures Border(h, S(), r)
    {
      hide Inv, Tables.Get;
      MaxArraySmall();
      var i, j := start, start + 1;
      var v := GetNum(j);
      while v != Nil
        invariant 0 <= i < j <= MAX_INT && v == Tables.Get(h, S(), Int(j)) && (i > 0 ==> Tables.Get(h, S(), Int(i)) != Nil)
        decreases MAX_INT - j
      {
        i := j;
        j := j * 2;
        if j > MAX_INT {
          r := SearchLinear();
          return;
        }
        v := GetNum(j);
      }
      while j - i > 1
        invariant 0 <= i < j <= MAX_INT && Tables.Get(h, S(), Int(j)) == Nil && (i > 0 ==> Tables.Get(h, S(), Int(i)) != Nil)
        decreases j - i
      {
        var m := (i + j) / 2;
        v := GetNum(m);
        if v == Nil {
          j := m;
        } else {
          i := m;
        }
      }
      r := i;
    }

    /** `luaH_getn`: a border of the table, whatever holes it has. */
    method GetN() returns (n: int)
      requires Valid()
      ensures Border(h, S(), n)
    {
      hide Inv;
      if |arr| > 0 && arr[|arr| - 1] == Nil {
        n := SearchArray();
      } else if dummy {
        NothingInDummy(h, S(), Int(|arr| + 1));
        n := |arr|;
      } else {
        n := UnboundSearch(|arr|);
      }
    }
  }

  /** A hash part of the old size takes the entries of the old hash part. */
  lemma NodesFit(h: Hash, t: Tab, na: nat)
    requires Inv(h, t) && na >= |t.arr|
    ensures HashCount(Moving(t, na), na) <= if t.dummy then 0 else |t.node|
  {
    NothingVanishes(t.arr, na);
    assert Moving(t, na) == NodesDown(t.node);
    NodesDownBound(t.node, na);
  }

  lemma {:induction false} NodesDownBound(nd: seq<Node>, n: nat)
    ensures HashCount(NodesDown(nd), n) <= |nd|
    decreases |nd|
  {
    if nd != [] {
      var z := |nd| - 1;
      NodesDownBound(nd[..z], n);
      HashCountConcat(if nd[z].val != Nil then [(nd[z].key, nd[z].val)] else [], NodesDown(nd[..z]), n);
    }
  }

  lemma IndexStarts(h: Hash, t: Tab, k: Key)
    requires |t.node| > 0 && TableNext.FindIndex(h, t, k).Found?
    ensures TableNext.FindIndex(h, t, k).i >= -1
  {
    hide Slot;
  }

  lemma NothingInDummy(h: Hash, t: Tab, k: Key)
    requires Inv(h, t) && t.dummy && !k.NoKey? && !InArray(t, k)
    ensures Get(h, t, k) == Nil
  {
  }

  lemma MaxArraySmall()
    ensures MAXASIZE < MAX_INT
  {
    Pow2Adds(13, 13);
    assert Pow2(13) == 8192 by {
      assert Pow2(5) == 32;
      assert Pow2(9) == 512;
    }
  }

  lemma {:induction false} Pow2Adds(i: nat, j: nat)
    ensures Pow2(i + j) == Pow2(i) * Pow2(j)
  {
    if i > 0 {
      Pow2Adds(i - 1, j);
    }
  }

  /** The positive integers that have a value. */
  ghost function Present1(h: Hash, t: Tab): (s: set<int>)
    requires |t.node| > 0
  {
    (set i | 0 <= i < |t.arr| && t.arr[i] != Nil :: i + 1) + (set j | 0 <= j < |t.node| && t.node[j].key.Int? :: t.node[j].key.i)
  }

  lemma Present1Has(h: Hash, t: Tab, i: int)
    requires |t.node| > 0 && Get(h, t, Int(i)) != Nil
    ensures i in Present1(h, t)
  {
    if InArray(t, Int(i)) {
      assert t.arr[i - 1] != Nil;
    } else {
      var r := Slot(h, t, Int(i));
      assert t.node[r].key == Int(i);
    }
  }

  /** How many of them are at least `i`. */
  ghost function Above(s: set<int>, i: int): nat {
    |set x | x in s && x >= i|
  }

  lemma AboveShrinks(s: set<int>, i: int)
    requires i in s
    ensures Above(s, i + 1) < Above(s, i)
  {
    var a, b := (set x | x in s && x >= i), (set x | x in s && x >= i + 1);
    assert i in a && i !in b && b <= a;
    assert a == b + (a - b) && |a - b| >= |{i}| by {
      SubsetSize({i}, a - b);
    }
  }

  function Min(a: int, b: int): int {
    if a < b then a else b
  }

  lemma Pow2Zero()
    ensures Pow2(0) == 1
  {
  }

  lemma BestSizeSmall(keys: seq<Key>)
    ensures BestSize(keys) <= MAXASIZE
  {
    BestFromIs(keys, MAXBITS);
  }

  /** The places of a slice that the array part has. */
  lemma SliceSpan(arr: seq<Val>, lg: nat, i: int, lim: int)
    requires i == (if lg == 0 then 1 else Min(Pow2(lg - 1), |arr|) + 1) && lim == Min(Pow2(lg), |arr|) && i <= lim + 1
    ensures Slice(ArrKeys(arr), lg) == Cnt(ArrKeys(arr), lim) - Cnt(ArrKeys(arr), i - 1)
  {
    hide Cnt, ArrKeys, Pow2;
    ArrNothing(arr);
    if Pow2(lg) > |arr| {
      ArrAll(arr, Pow2(lg));
      ArrAll(arr, |arr|);
    }
    if lg > 0 && Pow2(lg - 1) > |arr| {
      ArrAll(arr, Pow2(lg - 1));
      ArrAll(arr, |arr|);
    }
  }

  lemma RestBeyond(arr: seq<Val>, lg: nat, j: nat)
    requires lg <= j && if lg > 0 then Pow2(lg - 1) >= |arr| else |arr| == 0
    ensures Slice(ArrKeys(arr), j) == 0
  {
    if j > 0 {
      if lg > 0 {
        Pow2Monotone(lg - 1, j - 1);
      }
      SliceBeyond(arr, j);
    }
  }

  lemma NodeKeysStep(nd: seq<Node>, i: int)
    requires 0 < i <= |nd|
    ensures NodeKeys(nd[..i]) == NodeKeys(nd[..i - 1]) + (if nd[i - 1].val != Nil then [nd[i - 1].key] else [])
  {
    assert nd[..i][..i - 1] == nd[..i - 1];
  }

  lemma NodeKeysSlice(nd: seq<Node>, i: int, j: nat)
    requires 0 < i <= |nd|
    ensures Slice(NodeKeys(nd[..i]), j) == Slice(NodeKeys(nd[..i - 1]), j) + (if nd[i - 1].val != Nil then Slice([nd[i - 1].key], j) else 0)
  {
    hide Cnt, Slice;
    NodeKeysStep(nd, i);
    if nd[i - 1].val != Nil {
      SliceConcat(NodeKeys(nd[..i - 1]), [nd[i - 1].key], j);
    } else {
      assert NodeKeys(nd[..i]) == NodeKeys(nd[..i - 1]);
    }
  }

  lemma NodeKeysCnt(nd: seq<Node>, i: int, m: int)
    requires 0 < i <= |nd|
    ensures Cnt(NodeKeys(nd[..i]), m) == Cnt(NodeKeys(nd[..i - 1]), m) + (if nd[i - 1].val != Nil then Cnt([nd[i - 1].key], m) else 0)
  {
    hide Cnt;
    NodeKeysStep(nd, i);
    if nd[i - 1].val != Nil {
      CntConcat(NodeKeys(nd[..i - 1]), [nd[i - 1].key], m);
    } else {
      assert NodeKeys(nd[..i]) == NodeKeys(nd[..i - 1]);
    }
  }

  lemma NoNodeKeys(nd: seq<Node>)
    ensures NodeKeys(nd[..0]) == [] && Cnt([], MAXASIZE) == 0 && forall j: nat :: Slice([], j) == 0
  {
  }

  lemma NodesDownStep(nd: seq<Node>, i: int)
    requires 0 < i <= |nd|
    ensures NodesDown(nd[..i]) == (if nd[i - 1].val != Nil then [(nd[i - 1].key, nd[i - 1].val)] else []) + NodesDown(nd[..i - 1])
  {
    assert nd[..i][..i - 1] == nd[..i - 1];
  }

  lemma MovedInSteps(nd: seq<Node>, prev: int, m: int, n: int, k: Key)
    requires 0 <= m < |nd| && 0 <= n < |nd| && 0 <= prev < |nd| && prev != m
    ensures var nd1 := nd[prev := Node(nd[prev].key, nd[prev].val, n)];
            nd1[n := nd1[m]][m := Node(k, Nil, NULL)] == MoveAway(nd, prev, m, n, k)
  {
  }

  lemma FreeOther(h: Hash, t: Tab, mp: int, n: int)
    requires Inv(h, t) && 0 <= mp < |t.node| && 0 <= n < |t.node| && t.node[n].key.NoKey? && t.node[mp].val != Nil
    ensures n != mp
  {
  }

  lemma NoRoomIs(h: Hash, t: Tab, k: Key)
    requires |t.node| > 0 && t.lastfree <= |t.node| && FreeBelow(t.node, t.lastfree) < 0
    requires t.node[MainPos(h, k, |t.node|)].val != Nil || t.dummy
    ensures PlaceKey(h, t, k) == NoRoom(t.(lastfree := if t.lastfree <= 0 then t.lastfree - 1 else -1))
  {
  }

  lemma DummyOne(h: Hash, t: Tab)
    requires Inv(h, t) && t.lastfree <= |t.node| && FreeBelow(t.node, t.lastfree) >= 0
    ensures !t.dummy
  {
  }

  lemma ValueKey(h: Hash, t: Tab, i: int)
    requires Inv(h, t) && 0 <= i < |t.node| && t.node[i].val != Nil
    ensures !t.node[i].key.NoKey?
  {
  }

  lemma RehashCursor(h: Hash, t: Tab, t': Tab, k: Key)
    requires t'.arr == t.arr && t'.node == t.node
    ensures Rehash(h, t', k) == Rehash(h, t, k) && TableInsert.NewKey(t', k) == TableInsert.NewKey(t, k)
  {
  }
}
