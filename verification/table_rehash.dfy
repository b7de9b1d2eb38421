/**
 Growing a table (rehash in ltable.c): the sizes are computed from a count of the keys, and every
 key moves to where it belongs in the new parts.
 */
module TableRehash {
  import opened Tables
  import opened TableInsert
  import opened TableSet
  import opened Sequences

  // ------------------------------------------------------------- powers of two

  const MAXBITS := 26

  function Pow2(i: nat): (p: nat)
    ensures p >= 1
  {
    if i == 0 then 1 else 2 * Pow2(i - 1)
  }

  const MAXASIZE := Pow2(MAXBITS)

  /** `luaO_log2` */
  function Log2(x: nat): (l: int)
    ensures l >= -1 && (l == -1 <==> x == 0)
  {
    if x == 0 then -1 else 1 + Log2(x / 2)
  }

  /** `ceillog2` */
  function CeilLog2(x: int): nat
    requires x >= 1
  {
    Log2(x - 1) + 1
  }

  lemma {:induction false} Log2Is(x: nat)
    requires x >= 1
    ensures Pow2(Log2(x)) <= x < Pow2(Log2(x) + 1)
    decreases x
  {
    if x > 1 {
      Log2Is(x / 2);
    }
  }

  /** The least power of two that is not less. */
  lemma CeilLog2Is(x: int)
    requires x >= 1
    ensures x <= Pow2(CeilLog2(x)) && (x > 1 ==> CeilLog2(x) > 0 && Pow2(CeilLog2(x) - 1) < x) && (x == 1 ==> CeilLog2(x) == 0)
  {
    if x > 1 {
      Log2Is(x - 1);
    }
  }

  lemma {:induction false} Pow2Monotone(i: nat, j: nat)
    requires i <= j
    ensures Pow2(i) <= Pow2(j)
    decreases j
  {
    if i < j {
      Pow2Monotone(i, j - 1);
    }
  }

  lemma Log2Exact(x: nat, l: nat)
    requires Pow2(l) <= x < Pow2(l + 1)
    ensures Log2(x) == l
  {
    Log2Is(x);
    if Log2(x) < l {
      Pow2Monotone(Log2(x) + 1, l);
    } else if Log2(x) > l {
      Pow2Monotone(l + 1, Log2(x));
    }
  }

  // ------------------------------------------------------------- counting keys

  predicate InRange(k: Key, m: int) {
    k.Int? && 1 <= k.i <= m
  }

  /** How many of the keys are integers between 1 and `m`. */
  function Cnt(keys: seq<Key>, m: int): (n: nat)
    ensures n <= |keys|
  {
    if keys == [] then 0 else Cnt(keys[..|keys| - 1], m) + (if InRange(keys[|keys| - 1], m) then 1 else 0)
  }

  lemma {:induction false} CntConcat(a: seq<Key>, b: seq<Key>, m: int)
    ensures Cnt(a + b, m) == Cnt(a, m) + Cnt(b, m)
    decreases |b|
  {
    if b == [] {
      assert a + b == a;
    } else {
      CntConcat(a, b[..|b| - 1], m);
      assert (a + b)[..|a + b| - 1] == a + b[..|b| - 1];
    }
  }

  lemma {:induction false} CntMonotone(keys: seq<Key>, m: int, n: int)
    requires m <= n
    ensures Cnt(keys, m) <= Cnt(keys, n)
    decreases |keys|
  {
    if keys != [] {
      CntMonotone(keys[..|keys| - 1], m, n);
    }
  }

  /** There are no more than `m` different integers between 1 and `m`. */
  lemma {:induction false} CntBound(keys: seq<Key>, m: nat)
    requires NoDup(keys)
    ensures Cnt(keys, m) <= m
  {
    if m == 0 {
      CntNone(keys);
    } else {
      CntBound(keys, m - 1);
      CntStep(keys, m);
    }
  }

  lemma {:induction false} CntNone(keys: seq<Key>)
    ensures Cnt(keys, 0) == 0
    decreases |keys|
  {
    if keys != [] {
      CntNone(keys[..|keys| - 1]);
    }
  }

  lemma {:induction false} CntStep(keys: seq<Key>, m: nat)
    requires NoDup(keys) && m > 0
    ensures Cnt(keys, m) <= Cnt(keys, m - 1) + (if Int(m) in keys then 1 else 0)
    decreases |keys|
  {
    if keys != [] {
      var z := |keys| - 1;
      CntStep(keys[..z], m);
      assert keys == keys[..z] + [keys[z]];
      assert keys[z] !in keys[..z];
    }
  }

  /** The keys of the entries of the array part, and of the hash part. */
  function ArrKeys(arr: seq<Val>): seq<Key> {
    if arr == [] then []
    else ArrKeys(arr[..|arr| - 1]) + (if arr[|arr| - 1] != Nil then [Int(|arr|)] else [])
  }

  function NodeKeys(nd: seq<Node>): seq<Key> {
    if nd == [] then []
    else NodeKeys(nd[..|nd| - 1]) + (if nd[|nd| - 1].val != Nil then [nd[|nd| - 1].key] else [])
  }

  function AllKeys(t: Tab, k: Key): seq<Key> {
    ArrKeys(t.arr) + NodeKeys(t.node) + [k]
  }

  lemma {:induction false} ArrKeysAre(arr: seq<Val>)
    ensures forall k :: k in ArrKeys(arr) <==> k.Int? && 1 <= k.i <= |arr| && arr[k.i - 1] != Nil
    ensures NoDup(ArrKeys(arr)) && |ArrKeys(arr)| <= |arr|
    decreases |arr|
  {
    if arr != [] {
      ArrKeysAre(arr[..|arr| - 1]);
      assert Int(|arr|) !in ArrKeys(arr[..|arr| - 1]);
    }
  }

  lemma {:induction false} NodeKeysAre(nd: seq<Node>)
    requires Distinct(nd) && FreeOk(nd)
    ensures forall k :: k in NodeKeys(nd) <==> exists i :: 0 <= i < |nd| && nd[i].key == k && nd[i].val != Nil
    ensures NoDup(NodeKeys(nd)) && |NodeKeys(nd)| <= |nd|
    decreases |nd|
  {
    NodeKeysPrefix(nd, |nd|);
    assert nd[..|nd|] == nd;
  }

  lemma {:induction false} NodeKeysPrefix(nd: seq<Node>, n: nat)
    requires Distinct(nd) && FreeOk(nd) && n <= |nd|
    ensures forall k :: k in NodeKeys(nd[..n]) <==> exists i :: 0 <= i < n && nd[i].key == k && nd[i].val != Nil
    ensures NoDup(NodeKeys(nd[..n])) && |NodeKeys(nd[..n])| <= n
    decreases n
  {
    if n > 0 {
      NodeKeysPrefix(nd, n - 1);
      assert nd[..n][..n - 1] == nd[..n - 1];
      if nd[n - 1].val != Nil {
        assert nd[n - 1].key !in NodeKeys(nd[..n - 1]);
      }
    }
  }

  lemma AllKeysDistinct(h: Hash, t: Tab, k: Key)
    requires Inv(h, t) && NewKey(t, k)
    ensures NoDup(AllKeys(t, k)) && |AllKeys(t, k)| <= |t.arr| + |t.node| + 1
  {
    hide Linked, Scattered, CursorOk, ArrKeys, NodeKeys, MainPos;
    ArrKeysAre(t.arr);
    NodeKeysAre(t.node);
    var a, b := ArrKeys(t.arr), NodeKeys(t.node);
    assert forall x :: x in a ==> x !in b && x != k;
    assert k !in b;
    NoDupConcat(a, b);
    NoDupConcat(a + b, [k]);
  }

  // ------------------------------------------------------------- the size of the array part

  /** More than half of the slots 1 to `2^i` are in use. */
  predicate Worth(keys: seq<Key>, i: nat) {
    Cnt(keys, Pow2(i)) > Pow2(i) / 2
  }

  function BestFrom(keys: seq<Key>, i: nat): (n: nat) {
    if Worth(keys, i) then Pow2(i) else if i == 0 then 0 else BestFrom(keys, i - 1)
  }

  /** `computesizes`: the size that the array part gets. */
  function BestSize(keys: seq<Key>): nat {
    BestFrom(keys, MAXBITS)
  }

  /** It is the largest power of two worth having, or 0. */
  lemma {:induction false} BestFromIs(keys: seq<Key>, i: nat)
    ensures forall j: nat :: j <= i && Worth(keys, j) ==> Pow2(j) <= BestFrom(keys, i)
    ensures BestFrom(keys, i) == 0 || exists j: nat :: j <= i && Worth(keys, j) && BestFrom(keys, i) == Pow2(j)
    ensures BestFrom(keys, i) <= Pow2(i)
  {
    if Worth(keys, i) {
      forall j: nat | j <= i
        ensures Pow2(j) <= Pow2(i)
      {
        Pow2Monotone(j, i);
      }
    } else if i > 0 {
      BestFromIs(keys, i - 1);
    }
  }

  // ------------------------------------------------------------- resize

  /** The entries that the array part loses, in order. */
  function Vanishing(arr: seq<Val>, n: nat): seq<(Key, Val)> {
    if |arr| <= n then []
    else Vanishing(arr[..|arr| - 1], n) + (if arr[|arr| - 1] != Nil then [(Int(|arr|), arr[|arr| - 1])] else [])
  }

  /** The entries of the old hash part, the last one first. */
  function NodesDown(nd: seq<Node>): seq<(Key, Val)> {
    if nd == [] then []
    else (if nd[|nd| - 1].val != Nil then [(nd[|nd| - 1].key, nd[|nd| - 1].val)] else []) + NodesDown(nd[..|nd| - 1])
  }

  function Nils(n: nat): (s: seq<Val>)
    ensures |s| == n && forall i :: 0 <= i < n ==> s[i] == Nil
  {
    if n == 0 then [] else Nils(n - 1) + [Nil]
  }

  function FreeNodes(n: nat): (s: seq<Node>)
    ensures |s| == n && forall i :: 0 <= i < n ==> s[i] == FREE
  {
    if n == 0 then [] else FreeNodes(n - 1) + [FREE]
  }

  /** `setnodevector` */
  function FreshNodes(arr: seq<Val>, nh: nat): (t: Tab)
    ensures |t.node| > 0 && t.arr == arr && t.lastfree <= |t.node|
  {
    if nh == 0 then Tab(arr, [FREE], 0, true)
    else Tab(arr, FreeNodes(Pow2(CeilLog2(nh))), Pow2(CeilLog2(nh)), false)
  }

  /** Storing entries one after the other. */
  function PutAll(h: Hash, t: Tab, ps: seq<(Key, Val)>): (t': Tab)
    requires |t.node| > 0 && t.lastfree <= |t.node|
    decreases |ps|
  {
    if ps == [] then t
    else
      var t1 := Put(h, t, ps[0].0, ps[0].1);
      if |t1.node| > 0 && t1.lastfree <= |t1.node| then PutAll(h, t1, ps[1..]) else t1
  }

  /** `setarrayvector` */
  function SizedArray(arr: seq<Val>, na: nat): (r: seq<Val>)
    ensures |r| == na
  {
    if na <= |arr| then arr[..na] else arr + Nils(na - |arr|)
  }

  /** `resize` */
  function Resize(h: Hash, t: Tab, na: nat, nh: nat): Tab {
    PutAll(h, FreshNodes(SizedArray(t.arr, na), nh), Vanishing(t.arr, na) + NodesDown(t.node))
  }

  /** `rehash` */
  function Rehash(h: Hash, t: Tab, k: Key): Tab {
    var keys := AllKeys(t, k);
    var na := BestSize(keys);
    Resize(h, t, na, |keys| - Cnt(keys, na))
  }

  /** `luaH_set` and the assignment to the slot it returns */
  function Set(h: Hash, t: Tab, k: Key, v: Val): Tab
    requires |t.node| > 0 && t.lastfree <= |t.node|
  {
    if Present(h, t, k) || PlaceKey(h, t, k).Placed? then Put(h, t, k, v)
    else
      var t1 := Rehash(h, t, k);
      if |t1.node| > 0 && t1.lastfree <= |t1.node| then Put(h, t1, k, v) else t1
  }

  /** Storing entries one after the other, with a rehash where there is no room. */
  function SetAll(h: Hash, t: Tab, ps: seq<(Key, Val)>): Tab
    requires |t.node| > 0 && t.lastfree <= |t.node|
    decreases |ps|
  {
    if ps == [] then t
    else
      var t1 := Set(h, t, ps[0].0, ps[0].1);
      if |t1.node| > 0 && t1.lastfree <= |t1.node| then SetAll(h, t1, ps[1..]) else t1
  }
}
