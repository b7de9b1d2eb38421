/**
 Storing into a table that has room: the key reads back, every other key reads as before.
 */
module TableSet {
  import opened Tables
  import opened TableInsert

  // ------------------------------------------------------------- what is stored

  ghost predicate Stored(nd: seq<Node>, k: Key, v: Val) {
    exists j :: 0 <= j < |nd| && nd[j].key == k && nd[j].val == v
  }

  /** Outside the array part, a key has the value that it is stored with. */
  lemma GetIsStored(h: Hash, t: Tab, k: Key, v: Val)
    requires Inv(h, t) && !k.NoKey? && !InArray(t, k) && v != Nil
    ensures Get(h, t, k) == v <==> Stored(t.node, k, v)
  {
    hide Inv, Slot;
    if Stored(t.node, k, v) {
      var j :| 0 <= j < |t.node| && t.node[j].key == k && t.node[j].val == v;
      SlotFinds(h, t, k, j);
    }
  }

  /** The two hash parts store the same, but for `k`. */
  ghost predicate SameStored(nd: seq<Node>, nd': seq<Node>, k: Key) {
    && (forall i :: 0 <= i < |nd| && nd[i].key != k && nd[i].val != Nil ==> Stored(nd', nd[i].key, nd[i].val))
    && (forall i :: 0 <= i < |nd'| && nd'[i].key != k && nd'[i].val != Nil ==> Stored(nd, nd'[i].key, nd'[i].val))
  }

  /** Every key but `k` reads the same. */
  ghost predicate SameBut(h: Hash, t: Tab, t': Tab, k: Key)
    requires |t.node| > 0 && |t'.node| > 0
  {
    forall k2 :: k2 != k ==> Get(h, t', k2) == Get(h, t, k2)
  }

  lemma SameStoredGet(h: Hash, t: Tab, t': Tab, k: Key)
    requires |t.node| > 0 && |t'.node| > 0 && Inv(h, t) && Inv(h, t') && t'.arr == t.arr && SameStored(t.node, t'.node, k)
    ensures SameBut(h, t, t', k)
  {
    hide Inv;
    forall k2 | k2 != k && !k2.NoKey? && !InArray(t, k2)
      ensures Get(h, t', k2) == Get(h, t, k2)
    {
      if Get(h, t, k2) != Nil {
        GetIsStored(h, t, k2, Get(h, t, k2));
        GetIsStored(h, t', k2, Get(h, t, k2));
      } else if Get(h, t', k2) != Nil {
        GetIsStored(h, t, k2, Get(h, t', k2));
        GetIsStored(h, t', k2, Get(h, t', k2));
      }
    }
  }

  lemma InPlaceStored(nd: seq<Node>, m: int, k: Key)
    requires 0 <= m < |nd| && nd[m].val == Nil
    ensures SameStored(nd, SetKey(nd, m, k), k)
  {
    var nd' := SetKey(nd, m, k);
    assert forall i :: 0 <= i < |nd| && i != m ==> nd'[i] == nd[i];
  }

  lemma LinkStored(nd: seq<Node>, m: int, n: int, k: Key)
    requires 0 <= m < |nd| && 0 <= n < |nd| && m != n && nd[n] == FREE
    ensures SameStored(nd, LinkBehind(nd, m, n, k), k)
  {
    var nd' := LinkBehind(nd, m, n, k);
    assert forall i :: 0 <= i < |nd| && i != n ==> nd'[i].key == nd[i].key && nd'[i].val == nd[i].val;
  }

  lemma MoveStored(nd: seq<Node>, prev: int, m: int, n: int, k: Key)
    requires 0 <= m < |nd| && 0 <= n < |nd| && 0 <= prev < |nd| && m != n && nd[n] == FREE && prev != m
    ensures SameStored(nd, MoveAway(nd, prev, m, n, k), k)
  {
    var nd' := MoveAway(nd, prev, m, n, k);
    assert forall i :: 0 <= i < |nd| && i != n && i != m ==> nd'[i].key == nd[i].key && nd'[i].val == nd[i].val;
    assert nd'[n].key == nd[m].key && nd'[n].val == nd[m].val;
  }

  /** The slot `pos` with another value. */
  function SetVal(nd: seq<Node>, pos: int, v: Val): (nd': seq<Node>)
    requires 0 <= pos < |nd|
    ensures |nd'| == |nd|
  {
    nd[pos := Node(nd[pos].key, v, nd[pos].next)]
  }

  lemma SetValStored(nd: seq<Node>, pos: int, v: Val)
    requires 0 <= pos < |nd|
    ensures SameStored(nd, SetVal(nd, pos, v), nd[pos].key)
  {
    var nd' := SetVal(nd, pos, v);
    assert forall i :: 0 <= i < |nd| && i != pos ==> nd'[i] == nd[i];
  }

  lemma SetValKeepsInv(h: Hash, t: Tab, pos: int, v: Val)
    requires Inv(h, t) && 0 <= pos < |t.node| && !t.node[pos].key.NoKey?
    ensures Inv(h, t.(node := SetVal(t.node, pos, v)))
  {
    hide IsChain;
    var nd, nd' := t.node, SetVal(t.node, pos, v);
    SameNextLinked(nd, nd');
    forall i | 0 <= i < |nd|
      ensures HomeOk(h, nd', i)
    {
      assert HomeOk(h, nd, i);
    }
  }

  /** Assignment to an existing slot. */
  lemma SetValSets(h: Hash, t: Tab, pos: int, v: Val)
    requires Inv(h, t) && 0 <= pos < |t.node| && !t.node[pos].key.NoKey?
    ensures var t' := t.(node := SetVal(t.node, pos, v));
            Inv(h, t') && Get(h, t', t.node[pos].key) == v && SameBut(h, t, t', t.node[pos].key)
  {
    hide Inv, Get;
    var t' := t.(node := SetVal(t.node, pos, v));
    SetValKeepsInv(h, t, pos, v);
    SetValStored(t.node, pos, v);
    SameStoredGet(h, t, t', t.node[pos].key);
    GetStored(h, t', pos);
  }

  // ------------------------------------------------------------- room

  function FreeCount(nd: seq<Node>): nat {
    if nd == [] then 0 else FreeCount(nd[..|nd| - 1]) + (if nd[|nd| - 1].key.NoKey? then 1 else 0)
  }

  /** How many new keys the hash part can take. */
  function Room(t: Tab): nat {
    if t.dummy then 0 else FreeCount(t.node)
  }

  lemma {:induction false} FreeUpdate(nd: seq<Node>, i: int, x: Node)
    requires 0 <= i < |nd|
    ensures FreeCount(nd[i := x]) == FreeCount(nd) - (if nd[i].key.NoKey? then 1 else 0) + (if x.key.NoKey? then 1 else 0)
    decreases |nd|
  {
    var z := |nd| - 1;
    if i < z {
      FreeUpdate(nd[..z], i, x);
      assert nd[i := x][..z] == nd[..z][i := x];
    } else {
      assert nd[i := x][..z] == nd[..z];
    }
  }

  lemma {:induction false} NoneFree(nd: seq<Node>)
    requires forall i :: 0 <= i < |nd| ==> !nd[i].key.NoKey?
    ensures FreeCount(nd) == 0
    decreases |nd|
  {
    if nd != [] {
      NoneFree(nd[..|nd| - 1]);
    }
  }

  lemma LinkRoom(nd: seq<Node>, m: int, n: int, k: Key)
    requires 0 <= m < |nd| && 0 <= n < |nd| && m != n && nd[n].key.NoKey? && !k.NoKey?
    ensures FreeCount(LinkBehind(nd, m, n, k)) == FreeCount(nd) - 1
  {
    FreeUpdate(nd, n, Node(k, Nil, nd[m].next));
    var nd1 := nd[n := Node(k, Nil, nd[m].next)];
    FreeUpdate(nd1, m, Node(nd[m].key, nd[m].val, n));
  }

  lemma MoveRoom(nd: seq<Node>, prev: int, m: int, n: int, k: Key)
    requires 0 <= m < |nd| && 0 <= n < |nd| && 0 <= prev < |nd| && m != n && prev != m && prev != n
    requires nd[n].key.NoKey? && !k.NoKey? && !nd[m].key.NoKey?
    ensures FreeCount(MoveAway(nd, prev, m, n, k)) == FreeCount(nd) - 1
  {
    FreeUpdate(nd, prev, Node(nd[prev].key, nd[prev].val, n));
    var nd1 := nd[prev := Node(nd[prev].key, nd[prev].val, n)];
    FreeUpdate(nd1, n, nd[m]);
    var nd2 := nd1[n := nd[m]];
    FreeUpdate(nd2, m, Node(k, Nil, NULL));
  }

  // ------------------------------------------------------------- the slot of a new key

  /** What a new key that finds room changes: nothing but that it is there, without a value. */
  ghost predicate Added(h: Hash, t: Tab, t': Tab, pos: int, k: Key)
    requires |t.node| > 0
  {
    && |t'.node| == |t.node| && Inv(h, t') && 0 <= pos < |t'.node| && t'.node[pos].key == k && t'.node[pos].val == Nil
    && t'.arr == t.arr && t'.dummy == t.dummy && SameBut(h, t, t', k) && Room(t') + 1 >= Room(t)
  }

  lemma PlaceKeyAdds(h: Hash, t: Tab, k: Key)
    requires Inv(h, t) && NewKey(t, k)
    ensures match PlaceKey(h, t, k)
            case Placed(t', pos) => Added(h, t, t', pos, k)
            case NoRoom(t') => Room(t) == 0
  {
    hide Linked, FreeOk, Scattered, Distinct, Outside, IsChain, PlaceKey, FreeBelow, Before, MoveAway, LinkBehind, SetKey, Get,
         SameStored, CursorOk;
    PlaceKeyKeepsInv(h, t, k);
    if !t.dummy {
      var nd, m, n := t.node, MainPos(h, k, |t.node|), FreeBelow(t.node, t.lastfree);
      PlaceKeyCases(h, t, k);
      if nd[m].val == Nil {
        InPlaceStored(nd, m, k);
        InPlaceRoom(nd, m, k);
        SameStoredGet(h, t, t.(node := SetKey(nd, m, k)), k);
      } else if n < 0 {
        CursorFull(t);
      } else {
        FreeIsEmpty(h, t, n);
        if MainPos(h, nd[m].key, |nd|) != m {
          var prev := Before(nd, MainPos(h, nd[m].key, |nd|), m, |nd|);
          Away(h, t, k, n);
          FreeApart(nd, prev, m, n);
          MoveStored(nd, prev, m, n, k);
          MoveRoom(nd, prev, m, n, k);
          SameStoredGet(h, t, t.(node := MoveAway(nd, prev, m, n, k), lastfree := n), k);
        } else {
          Behind(h, t, k, n);
          LinkStored(nd, m, n, k);
          LinkRoom(nd, m, n, k);
          SameStoredGet(h, t, t.(node := LinkBehind(nd, m, n, k), lastfree := n), k);
        }
      }
    }
  }

  lemma InPlaceRoom(nd: seq<Node>, m: int, k: Key)
    requires 0 <= m < |nd| && !k.NoKey?
    ensures FreeCount(SetKey(nd, m, k)) + 1 >= FreeCount(nd)
  {
    FreeUpdate(nd, m, Node(k, nd[m].val, nd[m].next));
  }

  lemma FreeIsEmpty(h: Hash, t: Tab, n: int)
    requires Inv(h, t) && 0 <= n < |t.node| && t.node[n].key.NoKey?
    ensures t.node[n] == FREE
  {
  }

  lemma FreeApart(nd: seq<Node>, prev: int, m: int, n: int)
    requires MovePre(nd, prev, m, n)
    ensures prev != n
  {
  }

  lemma CursorFull(t: Tab)
    requires CursorOk(t) && t.lastfree <= |t.node| && FreeBelow(t.node, t.lastfree) < 0
    ensures FreeCount(t.node) == 0
  {
    FreeBelowFinds(t.node, t.lastfree);
    NoneFree(t.node);
  }

  // ------------------------------------------------------------- luaH_set without a rehash

  /** The table with the new value, if the key is there already or there is room for it. */
  function Put(h: Hash, t: Tab, k: Key, v: Val): (t': Tab)
    requires |t.node| > 0 && t.lastfree <= |t.node|
  {
    if InArray(t, k) then t.(arr := t.arr[k.i - 1 := v])
    else
      var r := Slot(h, t, k);
      if r != NULL then t.(node := SetVal(t.node, r, v))
      else
        match PlaceKey(h, t, k)
        case Placed(t', pos) => if 0 <= pos < |t'.node| then t'.(node := SetVal(t'.node, pos, v)) else t'
        case NoRoom(t') => t'
  }

  /** The key has a place of its own already. */
  predicate Present(h: Hash, t: Tab, k: Key)
    requires |t.node| > 0
  {
    InArray(t, k) || Slot(h, t, k) != NULL
  }

  /** The contract of a store. */
  ghost predicate Stores(h: Hash, t: Tab, t': Tab, k: Key, v: Val)
    requires |t.node| > 0
  {
    |t'.node| > 0 && Inv(h, t') && Get(h, t', k) == v && SameBut(h, t, t', k)
  }

  lemma PutInArray(h: Hash, t: Tab, k: Key, v: Val)
    requires Inv(h, t) && InArray(t, k)
    ensures var t' := t.(arr := t.arr[k.i - 1 := v]); Stores(h, t, t', k, v) && Room(t') == Room(t)
  {
    hide Linked, FreeOk, Scattered, Distinct;
    var t' := t.(arr := t.arr[k.i - 1 := v]);
    assert forall k2 :: InArray(t', k2) <==> InArray(t, k2);
    assert Inv(h, t');
    forall k2 | k2 != k
      ensures Get(h, t', k2) == Get(h, t, k2)
    {
      assert Slot(h, t', k2) == Slot(h, t, k2);
    }
  }

  lemma RoomSame(nd: seq<Node>, pos: int, v: Val)
    requires 0 <= pos < |nd|
    ensures FreeCount(SetVal(nd, pos, v)) == FreeCount(nd)
  {
    FreeUpdate(nd, pos, Node(nd[pos].key, v, nd[pos].next));
  }

  lemma SameButTrans(h: Hash, t: Tab, t1: Tab, t2: Tab, k: Key)
    requires |t.node| > 0 && |t1.node| > 0 && |t2.node| > 0 && SameBut(h, t, t1, k) && SameBut(h, t1, t2, k)
    ensures SameBut(h, t, t2, k)
  {
    hide Get;
  }

  /** Storing where there is room. */
  lemma PutStores(h: Hash, t: Tab, k: Key, v: Val)
    requires Inv(h, t) && !k.NoKey? && (Present(h, t, k) || Room(t) > 0)
    ensures var t' := Put(h, t, k, v);
            && Stores(h, t, t', k, v) && |t'.arr| == |t.arr| && |t'.node| == |t.node| && t'.dummy == t.dummy
            && Room(t') + (if Present(h, t, k) then 0 else 1) >= Room(t)
  {
    hide Linked, FreeOk, Scattered, Distinct, Outside, CursorOk, PlaceKey, Get, SetVal, Slot, FreeCount, SameBut;
    if InArray(t, k) {
      PutInArray(h, t, k, v);
    } else if Slot(h, t, k) != NULL {
      SetValSets(h, t, Slot(h, t, k), v);
      RoomSame(t.node, Slot(h, t, k), v);
    } else {
      SlotMisses(h, t, k);
      PlaceKeyAdds(h, t, k);
      var p := PlaceKey(h, t, k);
      SetValSets(h, p.t, p.pos, v);
      RoomSame(p.t.node, p.pos, v);
      SameButTrans(h, t, p.t, Put(h, t, k, v), k);
    }
  }
}
