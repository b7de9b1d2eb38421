/**
 A rehash loses nothing, and the new key has room afterwards: one insertion rehashes at most once.
 */
module TableGrow {
  import opened Tables
  import opened TableInsert
  import opened TableSet
  import opened TableRehash

  // ------------------------------------------------------------- storing many entries

  predicate HasKey(ps: seq<(Key, Val)>, k: Key) {
    exists i :: 0 <= i < |ps| && ps[i].0 == k
  }

  /** How many of the entries go to the hash part. */
  function HashCount(ps: seq<(Key, Val)>, n: nat): nat {
    if ps == [] then 0 else (if InRange(ps[0].0, n) then 0 else 1) + HashCount(ps[1..], n)
  }

  ghost predicate Entries(ps: seq<(Key, Val)>) {
    && (forall i :: 0 <= i < |ps| ==> !ps[i].0.NoKey? && ps[i].1 != Nil)
    && forall i, j :: 0 <= i < j < |ps| ==> ps[i].0 != ps[j].0
  }

  /** The table holds the entries, and otherwise what it held before. */
  ghost predicate Holds(h: Hash, t: Tab, t': Tab, ps: seq<(Key, Val)>)
    requires |t.node| > 0 && |t'.node| > 0
  {
    && (forall i :: 0 <= i < |ps| ==> Get(h, t', ps[i].0) == ps[i].1)
    && forall k :: !HasKey(ps, k) ==> Get(h, t', k) == Get(h, t, k)
  }

  /** The number of nodes of the hash part. */
  function Capacity(t: Tab): nat {
    if t.dummy then 0 else |t.node|
  }

  /** The number of nodes that `setnodevector` makes. */
  function HashSize(nh: nat): nat {
    if nh == 0 then 0 else Pow2(CeilLog2(nh))
  }

  lemma InvCursor(h: Hash, t: Tab)
    requires Inv(h, t)
    ensures |t.node| > 0 && t.lastfree <= |t.node|
  {
  }

  lemma {:induction false} PutAllStores(h: Hash, t: Tab, ps: seq<(Key, Val)>)
    requires Inv(h, t) && Entries(ps) && Room(t) >= HashCount(ps, |t.arr|)
    ensures var t' := PutAll(h, t, ps);
            && |t'.node| > 0 && Inv(h, t') && |t'.arr| == |t.arr| && Room(t') + HashCount(ps, |t.arr|) >= Room(t)
            && Capacity(t') == Capacity(t) && Holds(h, t, t', ps)
    decreases |ps|
  {
    hide Inv, Put, Get, Room, Present, Stores;
    InvCursor(h, t);
    if ps != [] {
      var t1 := Put(h, t, ps[0].0, ps[0].1);
      PresentInArray(h, t, ps[0].0);
      PutStores(h, t, ps[0].0, ps[0].1);
      StoresIs(h, t, t1, ps[0].0, ps[0].1);
      InvCursor(h, t1);
      EntriesTail(ps);
      PutAllStores(h, t1, ps[1..]);
      HoldsTail(h, t, t1, PutAll(h, t1, ps[1..]), ps);
    }
  }

  lemma PresentInArray(h: Hash, t: Tab, k: Key)
    requires |t.node| > 0
    ensures InRange(k, |t.arr|) ==> Present(h, t, k)
  {
  }

  lemma StoresIs(h: Hash, t: Tab, t1: Tab, k: Key, v: Val)
    requires |t.node| > 0 && Stores(h, t, t1, k, v)
    ensures |t1.node| > 0 && Inv(h, t1) && Get(h, t1, k) == v && SameBut(h, t, t1, k)
  {
  }

  lemma EntriesTail(ps: seq<(Key, Val)>)
    requires Entries(ps) && ps != []
    ensures Entries(ps[1..]) && !HasKey(ps[1..], ps[0].0)
  {
  }

  lemma HoldsTail(h: Hash, t: Tab, t1: Tab, t2: Tab, ps: seq<(Key, Val)>)
    requires |t.node| > 0 && |t1.node| > 0 && |t2.node| > 0 && ps != [] && !HasKey(ps[1..], ps[0].0)
    requires Get(h, t1, ps[0].0) == ps[0].1 && SameBut(h, t, t1, ps[0].0) && Holds(h, t1, t2, ps[1..])
    ensures Holds(h, t, t2, ps)
  {
    hide Get;
    forall i | 0 <= i < |ps|
      ensures Get(h, t2, ps[i].0) == ps[i].1
    {
      if i > 0 {
        assert ps[1..][i - 1] == ps[i];
      }
    }
    forall k | !HasKey(ps, k)
      ensures Get(h, t2, k) == Get(h, t, k)
    {
      HasKeySplit(ps, k);
    }
  }

  lemma HasKeySplit(ps: seq<(Key, Val)>, k: Key)
    requires ps != []
    ensures HasKey(ps, k) <==> ps[0].0 == k || HasKey(ps[1..], k)
  {
    if HasKey(ps[1..], k) {
      var i :| 0 <= i < |ps[1..]| && ps[1..][i].0 == k;
      assert ps[i + 1].0 == k;
    }
  }

  // ------------------------------------------------------------- the entries that move

  lemma {:induction false} VanishingAre(arr: seq<Val>, n: nat)
    ensures forall k, v :: (k, v) in Vanishing(arr, n) <==> k.Int? && n < k.i <= |arr| && arr[k.i - 1] == v && v != Nil
    ensures Entries(Vanishing(arr, n))
    decreases |arr|
  {
    if |arr| > n {
      var z := |arr| - 1;
      VanishingAre(arr[..z], n);
      var ps := Vanishing(arr[..z], n);
      forall i | 0 <= i < |ps|
        ensures ps[i].0 != Int(|arr|)
      {
        assert (ps[i].0, ps[i].1) in ps;
      }
    }
  }

  lemma {:induction false} NodesDownAre(nd: seq<Node>, n: nat)
    requires Distinct(nd) && FreeOk(nd) && n <= |nd|
    ensures forall k, v :: (k, v) in NodesDown(nd[..n]) <==> exists i :: 0 <= i < n && nd[i].key == k && nd[i].val == v && v != Nil
    ensures Entries(NodesDown(nd[..n]))
    decreases n
  {
    if n > 0 {
      var ps := NodesDown(nd[..n - 1]);
      NodesDownAre(nd, n - 1);
      assert nd[..n][..n - 1] == nd[..n - 1];
      if nd[n - 1].val != Nil {
        forall i | 0 <= i < |ps|
          ensures ps[i].0 != nd[n - 1].key
        {
          assert (ps[i].0, ps[i].1) in ps;
        }
        assert NodesDown(nd[..n]) == [(nd[n - 1].key, nd[n - 1].val)] + ps;
      } else {
        assert NodesDown(nd[..n]) == ps;
      }
    }
  }

  function Moving(t: Tab, na: nat): seq<(Key, Val)> {
    Vanishing(t.arr, na) + NodesDown(t.node)
  }

  lemma EntriesConcat(a: seq<(Key, Val)>, b: seq<(Key, Val)>)
    requires Entries(a) && Entries(b) && forall i, j :: 0 <= i < |a| && 0 <= j < |b| ==> a[i].0 != b[j].0
    ensures Entries(a + b)
  {
  }

  /** The moving entries are those that are not in the new array part already. */
  lemma MovingAre(h: Hash, t: Tab, na: nat)
    requires Inv(h, t)
    ensures Entries(Moving(t, na))
    ensures forall k, v :: (k, v) in Moving(t, na) <==> v != Nil && Get(h, t, k) == v && !(InArray(t, k) && k.i <= na)
  {
    hide Linked, Scattered, CursorOk, Vanishing, NodesDown;
    VanishingAre(t.arr, na);
    NodesDownAre(t.node, |t.node|);
    assert t.node[..|t.node|] == t.node;
    var a, b := Vanishing(t.arr, na), NodesDown(t.node);
    forall i, j | 0 <= i < |a| && 0 <= j < |b|
      ensures a[i].0 != b[j].0
    {
      assert (a[i].0, a[i].1) in a && (b[j].0, b[j].1) in b;
    }
    EntriesConcat(a, b);
    forall k, v
      ensures (k, v) in a + b <==> v != Nil && Get(h, t, k) == v && !(InArray(t, k) && k.i <= na)
    {
      MovingOne(h, t, na, k, v);
    }
  }

  lemma MovingOne(h: Hash, t: Tab, na: nat, k: Key, v: Val)
    requires Inv(h, t)
    requires (k, v) in Vanishing(t.arr, na) <==> k.Int? && na < k.i <= |t.arr| && t.arr[k.i - 1] == v && v != Nil
    requires (k, v) in NodesDown(t.node) <==> exists i :: 0 <= i < |t.node| && t.node[i].key == k && t.node[i].val == v && v != Nil
    ensures (k, v) in Vanishing(t.arr, na) + NodesDown(t.node) <==> v != Nil && Get(h, t, k) == v && !(InArray(t, k) && k.i <= na)
  {
    hide Linked, Scattered, CursorOk, Vanishing, NodesDown, Distinct, Slot;
    if (k, v) in NodesDown(t.node) {
      var i :| 0 <= i < |t.node| && t.node[i].key == k && t.node[i].val == v && v != Nil;
      GetStored(h, t, i);
    }
    if v != Nil && Get(h, t, k) == v && !InArray(t, k) {
      GetIsStored(h, t, k, v);
    }
  }

  // ------------------------------------------------------------- how many move

  function NotInRange(keys: seq<Key>, n: nat): int {
    |keys| - Cnt(keys, n)
  }

  lemma {:induction false} HashCountConcat(a: seq<(Key, Val)>, b: seq<(Key, Val)>, n: nat)
    ensures HashCount(a + b, n) == HashCount(a, n) + HashCount(b, n)
    decreases |a|
  {
    if a == [] {
      assert a + b == b;
    } else {
      HashCountConcat(a[1..], b, n);
      assert (a + b)[1..] == a[1..] + b;
    }
  }

  lemma {:induction false} VanishingCount(arr: seq<Val>, n: nat)
    ensures HashCount(Vanishing(arr, n), n) == NotInRange(ArrKeys(arr), n)
    decreases |arr|
  {
    if arr != [] {
      var z := |arr| - 1;
      VanishingCount(arr[..z], n);
      var last := if arr[z] != Nil then [Int(|arr|)] else [];
      CntConcat(ArrKeys(arr[..z]), last, n);
      if |arr| > n {
        HashCountConcat(Vanishing(arr[..z], n), if arr[z] != Nil then [(Int(|arr|), arr[z])] else [], n);
      }
    }
  }

  lemma {:induction false} NodesDownCount(nd: seq<Node>, n: nat)
    ensures HashCount(NodesDown(nd), n) == NotInRange(NodeKeys(nd), n)
    decreases |nd|
  {
    if nd != [] {
      var z := |nd| - 1;
      NodesDownCount(nd[..z], n);
      var last := if nd[z].val != Nil then [nd[z].key] else [];
      CntConcat(NodeKeys(nd[..z]), last, n);
      HashCountConcat(if nd[z].val != Nil then [(nd[z].key, nd[z].val)] else [], NodesDown(nd[..z]), n);
    }
  }

  /** The size of the new hash part counts the entries that move there, and the new key. */
  lemma MovingCount(t: Tab, k: Key, n: nat)
    ensures HashCount(Moving(t, n), n) + (if InRange(k, n) then 0 else 1) == NotInRange(AllKeys(t, k), n)
  {
    hide Vanishing, NodesDown, ArrKeys, NodeKeys;
    VanishingCount(t.arr, n);
    NodesDownCount(t.node, n);
    HashCountConcat(Vanishing(t.arr, n), NodesDown(t.node), n);
    CntConcat(ArrKeys(t.arr), NodeKeys(t.node), n);
    CntConcat(ArrKeys(t.arr) + NodeKeys(t.node), [k], n);
  }

  // ------------------------------------------------------------- the new table

  lemma {:induction false} AllFree(n: nat)
    ensures FreeCount(FreeNodes(n)) == n
  {
    if n > 0 {
      AllFree(n - 1);
      assert FreeNodes(n)[..n - 1] == FreeNodes(n - 1);
    }
  }

  lemma AllFreeOk(h: Hash, nd: seq<Node>)
    requires forall i :: 0 <= i < |nd| ==> nd[i] == FREE
    ensures Linked(nd) && FreeOk(nd) && Scattered(h, nd) && Distinct(nd)
  {
    forall i | 0 <= i < |nd|
      ensures HasChain(nd, i)
    {
      assert [i][1..] == [];
      assert IsChain(nd, NULL, []);
      assert IsChain(nd, i, [i]);
    }
  }

  lemma {:induction false} NothingFound(nd: seq<Node>, i: int, k: Key, fuel: nat)
    requires !k.NoKey? && forall j :: 0 <= j < |nd| ==> nd[j] == FREE
    ensures Find(nd, i, k, fuel) == NULL
    decreases fuel
  {
    if fuel > 0 && 0 <= i < |nd| {
      NothingFound(nd, nd[i].next, k, fuel - 1);
    }
  }

  lemma FreshOk(h: Hash, arr: seq<Val>, nh: nat)
    ensures Inv(h, FreshNodes(arr, nh)) && Room(FreshNodes(arr, nh)) == Capacity(FreshNodes(arr, nh)) == HashSize(nh) >= nh
    ensures forall k :: Get(h, FreshNodes(arr, nh), k) == if InRange(k, |arr|) then arr[k.i - 1] else Nil
  {
    hide Linked, FreeOk, Scattered, Distinct, MainPos, Pow2, CeilLog2;
    var t := FreshNodes(arr, nh);
    if nh > 0 {
      CeilLog2Is(nh);
      AllFree(Pow2(CeilLog2(nh)));
    }
    assert forall i :: 0 <= i < |t.node| ==> t.node[i] == FREE;
    AllFreeOk(h, t.node);
    forall k
      ensures Get(h, t, k) == if InRange(k, |arr|) then arr[k.i - 1] else Nil
    {
      if !k.NoKey? {
        NothingFound(t.node, MainPos(h, k, |t.node|), k, |t.node|);
      }
    }
  }

  /** `resize` moves every entry to where it belongs and keeps the map. */
  lemma ResizeKeepsMap(h: Hash, t: Tab, na: nat, nh: nat)
    requires Inv(h, t) && nh >= HashCount(Moving(t, na), na)
    ensures var t' := Resize(h, t, na, nh);
            && |t'.node| > 0 && Inv(h, t') && |t'.arr| == na && Capacity(t') == HashSize(nh) >= nh
            && Room(t') + HashCount(Moving(t, na), na) >= HashSize(nh)
            && forall k :: Get(h, t', k) == Get(h, t, k)
  {
    hide Inv, Room, PutAll, FreshNodes, HashCount, Get, Entries;
    InvCursor(h, t);
    var arr := SizedArray(t.arr, na);
    var t0, ps := FreshNodes(arr, nh), Moving(t, na);
    FreshOk(h, arr, nh);
    MovingAre(h, t, na);
    PutAllStores(h, t0, ps);
    var t' := PutAll(h, t0, ps);
    assert Resize(h, t, na, nh) == t';
    forall k
      ensures Get(h, t', k) == Get(h, t, k)
    {
      ResizedGet(h, t, t0, t', na, ps, k);
    }
  }

  lemma ResizedGet(h: Hash, t: Tab, t0: Tab, t': Tab, na: nat, ps: seq<(Key, Val)>, k: Key)
    requires |t.node| > 0 && |t0.node| > 0 && |t'.node| > 0 && Holds(h, t0, t', ps)
    requires forall k, v :: (k, v) in ps <==> v != Nil && Get(h, t, k) == v && !(InArray(t, k) && k.i <= na)
    requires forall k :: Get(h, t0, k) == if InRange(k, na) then SizedArray(t.arr, na)[k.i - 1] else Nil
    ensures Get(h, t', k) == Get(h, t, k)
  {
    hide Slot;
    var v := Get(h, t, k);
    if v != Nil && !(InArray(t, k) && k.i <= na) {
      assert (k, v) in ps;
      var i :| 0 <= i < |ps| && ps[i] == (k, v);
      assert Get(h, t', ps[i].0) == ps[i].1;
    } else {
      HasKeyIn(ps, k);
      assert Get(h, t', k) == Get(h, t0, k);
    }
  }

  lemma HasKeyIn(ps: seq<(Key, Val)>, k: Key)
    ensures HasKey(ps, k) ==> exists v :: (k, v) in ps
  {
    if HasKey(ps, k) {
      var i :| 0 <= i < |ps| && ps[i].0 == k;
      assert (k, ps[i].1) in ps;
    }
  }

  /** `rehash` keeps the map and makes room for the key that asked for it. */
  lemma RehashMakesRoom(h: Hash, t: Tab, k: Key)
    requires Inv(h, t) && NewKey(t, k)
    ensures var t' := Rehash(h, t, k);
            && |t'.node| > 0 && Inv(h, t') && (Present(h, t', k) || Room(t') > 0)
            && |t'.arr| == BestSize(AllKeys(t, k))
            && forall k2 :: Get(h, t', k2) == Get(h, t, k2)
  {
    hide Inv, Room, Resize, HashCount, Get, AllKeys, BestSize, Moving;
    var keys := AllKeys(t, k);
    var na := BestSize(keys);
    MovingCount(t, k, na);
    ResizeKeepsMap(h, t, na, |keys| - Cnt(keys, na));
    PresentInArray(h, Rehash(h, t, k), k);
  }

  /** A key that is not present is a new key. */
  lemma AbsentIsNew(h: Hash, t: Tab, k: Key)
    requires Inv(h, t) && !k.NoKey? && !Present(h, t, k)
    ensures NewKey(t, k)
  {
    SlotMisses(h, t, k);
  }

  lemma PlacedHasRoom(h: Hash, t: Tab, k: Key)
    requires Inv(h, t) && NewKey(t, k)
    ensures PlaceKey(h, t, k).NoRoom? ==> Room(t) == 0
  {
    hide Inv, PlaceKey;
    PlaceKeyAdds(h, t, k);
  }

  /** The value of a table after a store: the key has the new value and every other key the one it
      had, whether the store found the key, moved a colliding node or grew the table. */
  lemma SetStores(h: Hash, t: Tab, k: Key, v: Val)
    requires Inv(h, t) && !k.NoKey?
    ensures Stores(h, t, Set(h, t, k, v), k, v)
  {
    hide Inv, Room, Rehash, Get, Put, PlaceKey, Present;
    InvCursor(h, t);
    if Present(h, t, k) {
      PutStores(h, t, k, v);
    } else {
      AbsentIsNew(h, t, k);
      if PlaceKey(h, t, k).Placed? {
        PlacedStores(h, t, k, v);
      } else {
        RehashMakesRoom(h, t, k);
        var t1 := Rehash(h, t, k);
        InvCursor(h, t1);
        PutStores(h, t1, k, v);
        StoresIs(h, t1, Put(h, t1, k, v), k, v);
      }
    }
  }

  /** The key was placed: its slot takes the value. */
  lemma PlacedStores(h: Hash, t: Tab, k: Key, v: Val)
    requires Inv(h, t) && !k.NoKey? && !Present(h, t, k) && PlaceKey(h, t, k).Placed?
    ensures Stores(h, t, Put(h, t, k, v), k, v)
  {
    hide Inv, PlaceKey, Get, SetVal, Room, SameBut, Linked;
    InvCursor(h, t);
    AbsentIsNew(h, t, k);
    PlaceKeyAdds(h, t, k);
    var p := PlaceKey(h, t, k);
    SetValSets(h, p.t, p.pos, v);
    SameButTrans(h, t, p.t, Put(h, t, k, v), k);
  }

  // ------------------------------------------------------------- sizes that need not suffice

  lemma {:induction false} SetAllStores(h: Hash, t: Tab, ps: seq<(Key, Val)>)
    requires Inv(h, t) && Entries(ps)
    ensures var t' := SetAll(h, t, ps); |t'.node| > 0 && Inv(h, t') && Holds(h, t, t', ps)
    decreases |ps|
  {
    hide Inv, Set, Get, Stores;
    InvCursor(h, t);
    if ps != [] {
      var t1 := Set(h, t, ps[0].0, ps[0].1);
      SetStores(h, t, ps[0].0, ps[0].1);
      StoresIs(h, t, t1, ps[0].0, ps[0].1);
      InvCursor(h, t1);
      EntriesTail(ps);
      SetAllStores(h, t1, ps[1..]);
      HoldsTail(h, t, t1, SetAll(h, t1, ps[1..]), ps);
    }
  }

  /** Where there is room nothing is rehashed. */
  lemma {:induction false} SetAllWithRoom(h: Hash, t: Tab, ps: seq<(Key, Val)>)
    requires Inv(h, t) && Entries(ps) && Room(t) >= HashCount(ps, |t.arr|) && |t.node| > 0 && t.lastfree <= |t.node|
    ensures SetAll(h, t, ps) == PutAll(h, t, ps)
    decreases |ps|
  {
    hide Inv, Put, Get, Room, Present, Stores, PlaceKey, Rehash;
    if ps != [] {
      var t1 := Put(h, t, ps[0].0, ps[0].1);
      PresentInArray(h, t, ps[0].0);
      if !Present(h, t, ps[0].0) {
        AbsentIsNew(h, t, ps[0].0);
        PlacedHasRoom(h, t, ps[0].0);
      }
      PutStores(h, t, ps[0].0, ps[0].1);
      StoresIs(h, t, t1, ps[0].0, ps[0].1);
      InvCursor(h, t1);
      EntriesTail(ps);
      SetAllWithRoom(h, t1, ps[1..]);
    }
  }

  lemma FreshArray(arr: seq<Val>, arr2: seq<Val>, nh: nat)
    ensures FreshNodes(arr, nh).arr == arr && FreshNodes(arr, nh).(arr := arr2) == FreshNodes(arr2, nh)
  {
  }
}
