/**
 Lua tables (ltable.c): an array part and a hash part, a chained scatter table with Brent's
 variation. What a table means is the map from keys to values that `Get` reads.
 */
module Tables {
  import opened Sequences

  /** `Nil` is the value of everything that is not in a table. */
  datatype Val = Nil | Some(id: int)

  /** Numbers with an integer value are told from the others, as `arrayindex` does. */
  datatype Key =
    | NoKey
    | Int(i: int)
    | Float(id: int)
    | Str(id: int)
    | Boolean(b: bool)
    | Ptr(id: int)

  /** The bits of a number, the hash of a string, the address of an object. */
  type Hash = Key -> nat

  /** A node of the hash part; `next` is -1 at the end of a chain. */
  datatype Node = Node(key: Key, val: Val, next: int)

  const NULL := -1

  /** `dummy` says that the hash part is the shared empty node. */
  datatype Tab = Tab(arr: seq<Val>, node: seq<Node>, lastfree: int, dummy: bool)

  const FREE := Node(NoKey, Nil, NULL)

  // ------------------------------------------------------------- main positions

  /** `(size - 1) | 1` for a power of two */
  function OddSize(size: nat): (m: nat)
    requires size > 0
    ensures 0 < m <= size
  {
    if size == 1 then 1 else size - 1
  }

  /** `mainposition` */
  function MainPos(h: Hash, k: Key, size: nat): (p: nat)
    requires size > 0
    ensures p < size
  {
    match k
    case NoKey => 0
    case Int(i) => if i == 0 then 0 else h(k) % OddSize(size)
    case Float(_) => h(k) % OddSize(size)
    case Str(_) => h(k) % size
    case Boolean(b) => (if b then 1 else 0) % size
    case Ptr(_) => h(k) % OddSize(size)
  }

  // ------------------------------------------------------------- chains

  /** The nodes met from `i` on are `l`, in this order. */
  ghost predicate IsChain(nd: seq<Node>, i: int, l: seq<int>)
    decreases |l|
  {
    if l == [] then i == NULL
    else i == l[0] && 0 <= i < |nd| && IsChain(nd, nd[i].next, l[1..])
  }

  ghost predicate HasChain(nd: seq<Node>, i: int) {
    exists l :: IsChain(nd, i, l)
  }

  ghost predicate InChain(nd: seq<Node>, p: int, i: int) {
    exists l :: IsChain(nd, p, l) && i in l
  }

  lemma {:induction false} ChainUnique(nd: seq<Node>, i: int, l: seq<int>, l2: seq<int>)
    requires IsChain(nd, i, l) && IsChain(nd, i, l2)
    ensures l == l2
    decreases |l|
  {
    if l != [] && l2 != [] {
      ChainUnique(nd, nd[i].next, l[1..], l2[1..]);
      assert l == [i] + l[1..] && l2 == [i] + l2[1..];
    }
  }

  /** What follows an element of a chain is a chain. */
  lemma {:induction false} ChainSuffix(nd: seq<Node>, i: int, l: seq<int>, a: nat)
    requires IsChain(nd, i, l) && a < |l|
    ensures IsChain(nd, l[a], l[a..])
    decreases a
  {
    if a > 0 {
      ChainSuffix(nd, nd[i].next, l[1..], a - 1);
      assert l[1..][a - 1..] == l[a..];
    } else {
      assert l[0..] == l;
    }
  }

  /** A chain that ends does not come back to a node. */
  lemma ChainNoDup(nd: seq<Node>, i: int, l: seq<int>)
    requires IsChain(nd, i, l)
    ensures NoDup(l)
  {
    forall a, b | 0 <= a < b < |l|
      ensures l[a] != l[b]
    {
      ChainSuffix(nd, i, l, a);
      ChainSuffix(nd, i, l, b);
      if l[a] == l[b] {
        ChainUnique(nd, l[a], l[a..], l[b..]);
      }
    }
  }

  lemma {:induction false} ChainInside(nd: seq<Node>, i: int, l: seq<int>)
    requires IsChain(nd, i, l)
    ensures forall j :: j in l ==> 0 <= j < |nd|
    decreases |l|
  {
    if l != [] {
      ChainInside(nd, nd[i].next, l[1..]);
      assert l == [l[0]] + l[1..];
    }
  }

  lemma ChainLength(nd: seq<Node>, i: int, l: seq<int>)
    requires IsChain(nd, i, l)
    ensures |l| <= |nd|
  {
    ChainNoDup(nd, i, l);
    ChainInside(nd, i, l);
    NoDupSize(l);
    SubsetSize((set x | x in l), Below(|nd|));
  }

  // ------------------------------------------------------------- looking up

  /** The search loop along a chain: the node with the key, or -1. */
  function Find(nd: seq<Node>, i: int, k: Key, fuel: nat): (r: int)
    ensures r == NULL || (0 <= r < |nd| && nd[r].key == k)
    decreases fuel
  {
    if fuel == 0 || !(0 <= i < |nd|) then NULL
    else if nd[i].key == k then i
    else Find(nd, nd[i].next, k, fuel - 1)
  }

  predicate InArray(t: Tab, k: Key) {
    k.Int? && 1 <= k.i <= |t.arr|
  }

  function Slot(h: Hash, t: Tab, k: Key): (r: int)
    requires |t.node| > 0
    ensures r == NULL || (0 <= r < |t.node| && t.node[r].key == k)
  {
    Find(t.node, MainPos(h, k, |t.node|), k, |t.node|)
  }

  /** `luaH_get` */
  function Get(h: Hash, t: Tab, k: Key): Val
    requires |t.node| > 0
  {
    if k.NoKey? then Nil
    else if InArray(t, k) then t.arr[k.i - 1]
    else
      var r := Slot(h, t, k);
      if r == NULL then Nil else t.node[r].val
  }

  // ------------------------------------------------------------- the invariant

  /** Every chain ends, and no two nodes have the same successor. */
  ghost predicate Linked(nd: seq<Node>) {
    && (forall i :: 0 <= i < |nd| ==> HasChain(nd, i))
    && (forall i, j :: 0 <= i < j < |nd| && nd[i].next == nd[j].next ==> nd[i].next == NULL)
  }

  /** Free nodes are empty and nothing leads to them. */
  ghost predicate FreeOk(nd: seq<Node>) {
    && (forall i :: 0 <= i < |nd| && nd[i].key.NoKey? ==> nd[i] == FREE)
    && (forall i :: 0 <= i < |nd| && 0 <= nd[i].next < |nd| ==> !nd[nd[i].next].key.NoKey?)
  }

  /** The main invariant: the main position of a stored key holds a key that is at home there, and
      its chain leads to the key. */
  ghost predicate HomeOk(h: Hash, nd: seq<Node>, i: int)
    requires 0 <= i < |nd|
  {
    !nd[i].key.NoKey? ==>
      var p := MainPos(h, nd[i].key, |nd|);
      !nd[p].key.NoKey? && MainPos(h, nd[p].key, |nd|) == p && InChain(nd, p, i)
  }

  ghost predicate Scattered(h: Hash, nd: seq<Node>) {
    forall i :: 0 <= i < |nd| ==> HomeOk(h, nd, i)
  }

  ghost predicate Distinct(nd: seq<Node>) {
    forall i, j :: 0 <= i < j < |nd| && nd[i].key == nd[j].key ==> nd[i].key.NoKey?
  }

  /** Keys of the array part are not in the hash part. */
  ghost predicate Outside(t: Tab) {
    forall i :: 0 <= i < |t.node| ==> !InArray(t, t.node[i].key)
  }

  /** Every node from the cursor on has a key. */
  ghost predicate CursorOk(t: Tab) {
    forall i :: 0 <= i < |t.node| && i >= t.lastfree ==> !t.node[i].key.NoKey?
  }

  ghost predicate Inv(h: Hash, t: Tab) {
    && |t.node| > 0 && Linked(t.node) && FreeOk(t.node) && Scattered(h, t.node) && Distinct(t.node) && Outside(t)
    && t.lastfree <= |t.node|
    && if t.dummy then t.node == [FREE] && t.lastfree <= 0 else CursorOk(t)
  }

  // ------------------------------------------------------------- searching finds

  lemma {:induction false} FindInChain(nd: seq<Node>, i: int, l: seq<int>, k: Key, fuel: nat)
    requires IsChain(nd, i, l) && fuel >= |l|
    ensures Find(nd, i, k, fuel) == NULL ==> forall j :: j in l ==> 0 <= j < |nd| && nd[j].key != k
    ensures Find(nd, i, k, fuel) != NULL ==> Find(nd, i, k, fuel) in l
    decreases |l|
  {
    if l != [] {
      assert l == [l[0]] + l[1..];
      if nd[i].key != k {
        FindInChain(nd, nd[i].next, l[1..], k, fuel - 1);
      }
    }
  }

  /** A stored key is found, and only a stored key. */
  lemma SlotFinds(h: Hash, t: Tab, k: Key, i: int)
    requires Inv(h, t) && 0 <= i < |t.node| && t.node[i].key == k && !k.NoKey?
    ensures Slot(h, t, k) == i
  {
    hide Linked, FreeOk, Outside, CursorOk;
    var nd, p := t.node, MainPos(h, k, |t.node|);
    assert HomeOk(h, nd, i);
    var l :| IsChain(nd, p, l) && i in l;
    ChainLength(nd, p, l);
    FindInChain(nd, p, l, k, |nd|);
    var r := Slot(h, t, k);
    assert nd[r].key == nd[i].key;
  }

  lemma SlotMisses(h: Hash, t: Tab, k: Key)
    requires Inv(h, t) && !k.NoKey? && Slot(h, t, k) == NULL
    ensures forall i :: 0 <= i < |t.node| ==> t.node[i].key != k
  {
    hide Inv;
    forall i | 0 <= i < |t.node|
      ensures t.node[i].key != k
    {
      if t.node[i].key == k {
        SlotFinds(h, t, k, i);
      }
    }
  }

  /** The value that is stored at a key of the hash part. */
  lemma GetStored(h: Hash, t: Tab, i: int)
    requires Inv(h, t) && 0 <= i < |t.node| && !t.node[i].key.NoKey?
    ensures Get(h, t, t.node[i].key) == t.node[i].val
  {
    SlotFinds(h, t, t.node[i].key, i);
  }
}
