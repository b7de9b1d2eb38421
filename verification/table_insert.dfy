/**
 New keys (newkey in ltable.c): a key goes to its main position; a node that is there without
 being at home has to make room, otherwise the new key takes a free node.
 */
module TableInsert {
  import opened Tables
  import opened Sequences

  /** The loop of `getfreepos`: the free node in front of the cursor, or -1. */
  function FreeBelow(nd: seq<Node>, i: int): (n: int)
    requires i <= |nd|
    ensures -1 <= n < |nd| && (0 <= n ==> n < i && nd[n].key.NoKey?)
    decreases i
  {
    if i <= 0 then -1
    else if nd[i - 1].key.NoKey? then i - 1
    else FreeBelow(nd, i - 1)
  }

  lemma {:induction false} FreeBelowFinds(nd: seq<Node>, i: int)
    requires i <= |nd|
    ensures forall j :: 0 <= j < i && FreeBelow(nd, i) < j ==> !nd[j].key.NoKey?
    decreases i
  {
    if i > 0 && !nd[i - 1].key.NoKey? {
      FreeBelowFinds(nd, i - 1);
    }
  }

  /** The loop that looks for the node in front of `m`. */
  function Before(nd: seq<Node>, i: int, m: int, fuel: nat): int
    decreases fuel
  {
    if fuel == 0 || !(0 <= i < |nd|) || nd[i].next == m then i
    else Before(nd, nd[i].next, m, fuel - 1)
  }

  datatype Placed = NoRoom(t: Tab) | Placed(t: Tab, pos: int)

  /** A node that is not at home moves to the free node `n`, and its chain with it. */
  function MoveAway(nd: seq<Node>, prev: int, m: int, n: int, k: Key): (nd': seq<Node>)
    requires 0 <= m < |nd| && 0 <= n < |nd| && 0 <= prev < |nd|
    ensures |nd'| == |nd|
  {
    nd[prev := Node(nd[prev].key, nd[prev].val, n)][n := nd[m]][m := Node(k, Nil, NULL)]
  }

  /** The new key takes the free node `n`, behind the node at its main position. */
  function LinkBehind(nd: seq<Node>, m: int, n: int, k: Key): (nd': seq<Node>)
    requires 0 <= m < |nd| && 0 <= n < |nd|
    ensures |nd'| == |nd|
  {
    nd[n := Node(k, Nil, nd[m].next)][m := Node(nd[m].key, nd[m].val, n)]
  }

  function SetKey(nd: seq<Node>, m: int, k: Key): (nd': seq<Node>)
    requires 0 <= m < |nd|
    ensures |nd'| == |nd|
  {
    nd[m := Node(k, nd[m].val, nd[m].next)]
  }

  /** `newkey`, but for the rehash */
  function PlaceKey(h: Hash, t: Tab, k: Key): Placed
    requires |t.node| > 0 && t.lastfree <= |t.node|
  {
    var nd, m := t.node, MainPos(h, k, |t.node|);
    if nd[m].val == Nil && !t.dummy then Placed(t.(node := SetKey(nd, m, k)), m)
    else
      var n := FreeBelow(nd, t.lastfree);
      if n < 0 then NoRoom(t.(lastfree := if t.lastfree <= 0 then t.lastfree - 1 else -1))
      else
        var o := MainPos(h, nd[m].key, |nd|);
        var prev := Before(nd, o, m, |nd|);
        if o != m && 0 <= prev < |nd| then Placed(t.(node := MoveAway(nd, prev, m, n, k), lastfree := n), m)
        else Placed(t.(node := LinkBehind(nd, m, n, k), lastfree := n), n)
  }

  // ------------------------------------------------------------- a key put in place

  lemma {:induction false} SameNext(nd: seq<Node>, nd': seq<Node>, i: int, l: seq<int>)
    requires IsChain(nd, i, l) && |nd'| == |nd| && forall j :: 0 <= j < |nd| ==> nd'[j].next == nd[j].next
    ensures IsChain(nd', i, l)
    decreases |l|
  {
    if l != [] {
      SameNext(nd, nd', nd[i].next, l[1..]);
    }
  }

  lemma SameNextLinked(nd: seq<Node>, nd': seq<Node>)
    requires Linked(nd) && |nd'| == |nd| && forall j :: 0 <= j < |nd| ==> nd'[j].next == nd[j].next
    ensures Linked(nd')
    ensures forall p, i :: InChain(nd, p, i) ==> InChain(nd', p, i)
  {
    forall i | 0 <= i < |nd|
      ensures HasChain(nd', i)
    {
      assert HasChain(nd, i);
      var l :| IsChain(nd, i, l);
      SameNext(nd, nd', i, l);
    }
    forall p, i | InChain(nd, p, i)
      ensures InChain(nd', p, i)
    {
      var l :| IsChain(nd, p, l) && i in l;
      SameNext(nd, nd', p, l);
    }
  }

  /** The key is not in the table yet, and belongs into the hash part. */
  ghost predicate NewKey(t: Tab, k: Key) {
    !k.NoKey? && !InArray(t, k) && forall i :: 0 <= i < |t.node| ==> t.node[i].key != k
  }

  lemma InPlace(h: Hash, t: Tab, k: Key)
    requires Inv(h, t) && NewKey(t, k) && !t.dummy && t.node[MainPos(h, k, |t.node|)].val == Nil
    ensures var m := MainPos(h, k, |t.node|); Inv(h, t.(node := SetKey(t.node, m, k)))
  {
    hide IsChain;
    var nd, m := t.node, MainPos(h, k, |t.node|);
    var nd' := SetKey(nd, m, k);
    SameNextLinked(nd, nd');
    forall i | 0 <= i < |nd|
      ensures HomeOk(h, nd', i)
    {
      assert HomeOk(h, nd, i);
      if i == m {
        assert HasChain(nd', m);
        var l :| IsChain(nd', m, l);
        HeadOfChain(nd', m, l);
      }
    }
  }

  lemma HeadOfChain(nd: seq<Node>, i: int, l: seq<int>)
    requires IsChain(nd, i, l) && i != NULL
    ensures i in l && l != [] && l[0] == i
  {
  }

  // ------------------------------------------------------------- behind a node at home

  /** A chain with `n` behind `m`. */
  function Inserted(l: seq<int>, m: int, n: int): seq<int> {
    if l == [] then [] else if l[0] == m then [m, n] + l[1..] else [l[0]] + Inserted(l[1..], m, n)
  }

  lemma {:induction false} InsertedHas(l: seq<int>, m: int, n: int)
    ensures forall j :: j in l ==> j in Inserted(l, m, n)
    ensures m in l ==> n in Inserted(l, m, n)
  {
    if l != [] {
      InsertedHas(l[1..], m, n);
      assert l == [l[0]] + l[1..];
    }
  }

  lemma {:induction false} ChainLinked(nd: seq<Node>, i: int, l: seq<int>, m: int, n: int, k: Key)
    requires IsChain(nd, i, l) && 0 <= m < |nd| && 0 <= n < |nd| && n !in l && NoDup(l)
    ensures IsChain(LinkBehind(nd, m, n, k), i, Inserted(l, m, n))
    decreases |l|
  {
    var nd' := LinkBehind(nd, m, n, k);
    if l != [] {
      assert l == [l[0]] + l[1..];
      if i == m {
        forall j | j in l[1..]
          ensures j != m
        {
        }
        ChainAway(nd, nd', nd[m].next, l[1..], m, n);
        assert ([m, n] + l[1..])[1..] == [n] + l[1..];
        assert ([n] + l[1..])[1..] == l[1..];
      } else {
        ChainLinked(nd, nd[i].next, l[1..], m, n, k);
      }
    }
  }

  /** A chain that does not meet the changed nodes stays. */
  lemma {:induction false} ChainAway(nd: seq<Node>, nd': seq<Node>, i: int, l: seq<int>, m: int, n: int)
    requires IsChain(nd, i, l) && |nd'| == |nd| && m !in l && n !in l
    requires forall j :: 0 <= j < |nd| && j != m && j != n ==> nd'[j].next == nd[j].next
    ensures IsChain(nd', i, l)
    decreases |l|
  {
    if l != [] {
      assert l == [l[0]] + l[1..];
      ChainAway(nd, nd', nd[i].next, l[1..], m, n);
    }
  }

  /** Nothing leads to a free node. */
  lemma {:induction false} FreeNotInChain(nd: seq<Node>, i: int, l: seq<int>, n: int)
    requires FreeOk(nd) && IsChain(nd, i, l) && i != n && 0 <= n < |nd| && nd[n].key.NoKey?
    ensures n !in l
    decreases |l|
  {
    if l != [] {
      assert l == [l[0]] + l[1..];
      FreeNotInChain(nd, nd[i].next, l[1..], n);
    }
  }

  lemma LinkBehindChain(nd: seq<Node>, m: int, n: int, k: Key, p: int)
    requires Linked(nd) && FreeOk(nd) && 0 <= m < |nd| && 0 <= n < |nd| && m != n && nd[n].key.NoKey? && 0 <= p < |nd| && p != n
    ensures var nd' := LinkBehind(nd, m, n, k);
            && HasChain(nd', p) && (p == m ==> InChain(nd', m, n))
            && forall i :: InChain(nd, p, i) ==> InChain(nd', p, i)
  {
    hide LinkBehind, Linked;
    var nd' := LinkBehind(nd, m, n, k);
    LinkedHas(nd);
    assert HasChain(nd, p);
    var l :| IsChain(nd, p, l);
    ChainNoDup(nd, p, l);
    FreeNotInChain(nd, p, l, n);
    ChainLinked(nd, p, l, m, n, k);
    InsertedHas(l, m, n);
    HeadOfChain(nd, p, l);
    forall i | InChain(nd, p, i)
      ensures InChain(nd', p, i)
    {
      var l2 :| IsChain(nd, p, l2) && i in l2;
      ChainUnique(nd, p, l, l2);
    }
  }

  lemma LinkBehindChains(nd: seq<Node>, m: int, n: int, k: Key)
    requires Linked(nd) && FreeOk(nd) && 0 <= m < |nd| && 0 <= n < |nd| && m != n && nd[n].key.NoKey?
    ensures var nd' := LinkBehind(nd, m, n, k);
            && Linked(nd') && InChain(nd', m, n)
            && forall p, i :: 0 <= p < |nd| && p != n && InChain(nd, p, i) ==> InChain(nd', p, i)
  {
    hide LinkBehind, Linked, InChain, HasChain;
    var nd' := LinkBehind(nd, m, n, k);
    forall p | 0 <= p < |nd|
      ensures HasChain(nd', p)
    {
      if p == n {
        TailHasChain(nd, m, n, k);
      } else {
        LinkBehindChain(nd, m, n, k, p);
      }
    }
    LinkBehindChain(nd, m, n, k, m);
    forall p, i | 0 <= p < |nd| && p != n && InChain(nd, p, i)
      ensures InChain(nd', p, i)
    {
      LinkBehindChain(nd, m, n, k, p);
    }
    LinkBehindNext(nd, m, n, k);
  }

  lemma LinkedHas(nd: seq<Node>)
    requires Linked(nd)
    ensures forall i :: 0 <= i < |nd| ==> HasChain(nd, i)
  {
  }

  lemma TailHasChain(nd: seq<Node>, m: int, n: int, k: Key)
    requires Linked(nd) && FreeOk(nd) && 0 <= m < |nd| && 0 <= n < |nd| && m != n && nd[n].key.NoKey?
    ensures HasChain(LinkBehind(nd, m, n, k), n)
  {
    var nd' := LinkBehind(nd, m, n, k);
    assert HasChain(nd, m);
    var l :| IsChain(nd, m, l);
    ChainNoDup(nd, m, l);
    FreeNotInChain(nd, m, l, n);
    assert l == [m] + l[1..];
    assert m !in l[1..];
    ChainAway(nd, nd', nd[m].next, l[1..], m, n);
    assert ([n] + l[1..])[1..] == l[1..];
    assert IsChain(nd', n, [n] + l[1..]);
  }

  lemma LinkBehindNext(nd: seq<Node>, m: int, n: int, k: Key)
    requires Linked(nd) && FreeOk(nd) && 0 <= m < |nd| && 0 <= n < |nd| && m != n && nd[n].key.NoKey?
    requires forall i :: 0 <= i < |nd| ==> HasChain(LinkBehind(nd, m, n, k), i)
    ensures Linked(LinkBehind(nd, m, n, k))
  {
    var nd' := LinkBehind(nd, m, n, k);
    forall i, j | 0 <= i < j < |nd'| && nd'[i].next == nd'[j].next
      ensures nd'[i].next == NULL
    {
      ChainStart(nd, i);
      ChainStart(nd, j);
      ChainStart(nd, m);
    }
  }

  /** Successors are nodes. */
  lemma ChainStart(nd: seq<Node>, i: int)
    requires Linked(nd) && 0 <= i < |nd|
    ensures nd[i].next == NULL || 0 <= nd[i].next < |nd|
  {
    assert HasChain(nd, i);
    var l :| IsChain(nd, i, l);
    assert IsChain(nd, nd[i].next, l[1..]);
  }

  lemma Behind(h: Hash, t: Tab, k: Key, n: int)
    requires Inv(h, t) && NewKey(t, k) && !t.dummy && n == FreeBelow(t.node, t.lastfree) >= 0
    requires var m := MainPos(h, k, |t.node|); t.node[m].val != Nil && MainPos(h, t.node[m].key, |t.node|) == m
    ensures n != MainPos(h, k, |t.node|) && Inv(h, t.(node := LinkBehind(t.node, MainPos(h, k, |t.node|), n, k), lastfree := n))
  {
    hide IsChain, Linked, FreeBelow;
    var nd, m := t.node, MainPos(h, k, |t.node|);
    var nd' := LinkBehind(nd, m, n, k);
    LinkBehindChains(nd, m, n, k);
    FreeBelowFinds(nd, t.lastfree);
    forall i | 0 <= i < |nd|
      ensures HomeOk(h, nd', i)
    {
      assert HomeOk(h, nd, i) && HomeOk(h, nd, m);
    }
    forall i | 0 <= i < |nd'| && 0 <= nd'[i].next < |nd'|
      ensures !nd'[nd'[i].next].key.NoKey?
    {
    }
  }

  // ------------------------------------------------------------- a node that moves away

  /** A chain with `n` in the place of `m`. */
  function Replaced(l: seq<int>, m: int, n: int): seq<int> {
    if l == [] then [] else [if l[0] == m then n else l[0]] + Replaced(l[1..], m, n)
  }

  lemma {:induction false} ReplacedHas(l: seq<int>, m: int, n: int)
    ensures forall j :: j in l ==> (if j == m then n else j) in Replaced(l, m, n)
  {
    if l != [] {
      ReplacedHas(l[1..], m, n);
      assert l == [l[0]] + l[1..];
    }
  }

  ghost predicate MovePre(nd: seq<Node>, prev: int, m: int, n: int) {
    && Linked(nd) && FreeOk(nd) && 0 <= m < |nd| && 0 <= n < |nd| && m != n && nd[n].key.NoKey? && !nd[m].key.NoKey?
    && 0 <= prev < |nd| && nd[prev].next == m
  }

  lemma {:induction false} ChainMoved(nd: seq<Node>, prev: int, i: int, l: seq<int>, m: int, n: int, k: Key)
    requires MovePre(nd, prev, m, n) && IsChain(nd, i, l) && n !in l && NoDup(l)
    ensures IsChain(MoveAway(nd, prev, m, n, k), if i == m then n else i, Replaced(l, m, n))
    decreases |l|
  {
    var nd' := MoveAway(nd, prev, m, n, k);
    if l != [] {
      hide Linked, FreeOk;
      assert l == [l[0]] + l[1..];
      ChainMoved(nd, prev, nd[i].next, l[1..], m, n, k);
      MovedNext(nd, prev, i, m, n, k);
      NotSelf(nd, i, l);
    }
  }

  lemma NotSelf(nd: seq<Node>, i: int, l: seq<int>)
    requires IsChain(nd, i, l) && l != []
    ensures nd[i].next != i
  {
    assert IsChain(nd, nd[i].next, l[1..]);
    if nd[i].next == i {
      ChainUnique(nd, i, l, l[1..]);
    }
  }

  lemma MovedNext(nd: seq<Node>, prev: int, i: int, m: int, n: int, k: Key)
    requires MovePre(nd, prev, m, n) && 0 <= i < |nd| && i != n && nd[i].next != i
    ensures var nd' := MoveAway(nd, prev, m, n, k);
            nd'[if i == m then n else i].next == if nd[i].next == m then n else nd[i].next
  {
    if nd[i].next == m {
      NextUnique(nd, i, prev);
    }
  }

  lemma NextUnique(nd: seq<Node>, i: int, j: int)
    requires Linked(nd) && 0 <= i < |nd| && 0 <= j < |nd| && nd[i].next == nd[j].next != NULL
    ensures i == j
  {
  }

  lemma MoveChain(nd: seq<Node>, prev: int, m: int, n: int, k: Key, p: int)
    requires MovePre(nd, prev, m, n) && 0 <= p < |nd| && p != n
    ensures var nd' := MoveAway(nd, prev, m, n, k);
            && HasChain(nd', if p == m then n else p)
            && forall i :: p != m && InChain(nd, p, i) ==> InChain(nd', p, if i == m then n else i)
  {
    hide MoveAway, Linked;
    var nd' := MoveAway(nd, prev, m, n, k);
    LinkedHas(nd);
    assert HasChain(nd, p);
    var l :| IsChain(nd, p, l);
    ChainNoDup(nd, p, l);
    FreeNotInChain(nd, p, l, n);
    ChainMoved(nd, prev, p, l, m, n, k);
    ReplacedHas(l, m, n);
    forall i | p != m && InChain(nd, p, i)
      ensures InChain(nd', p, if i == m then n else i)
    {
      var l2 :| IsChain(nd, p, l2) && i in l2;
      ChainUnique(nd, p, l, l2);
    }
  }

  lemma MoveChains(nd: seq<Node>, prev: int, m: int, n: int, k: Key)
    requires MovePre(nd, prev, m, n)
    ensures var nd' := MoveAway(nd, prev, m, n, k);
            && (forall i :: 0 <= i < |nd| ==> HasChain(nd', i)) && InChain(nd', m, m)
            && forall p, i :: 0 <= p < |nd| && p != n && p != m && InChain(nd, p, i) ==> InChain(nd', p, if i == m then n else i)
  {
    hide MoveAway, Linked, HasChain, InChain;
    var nd' := MoveAway(nd, prev, m, n, k);
    AloneAtM(nd, prev, m, n, k);
    forall p | 0 <= p < |nd|
      ensures HasChain(nd', p)
    {
      if p == n {
        MoveChain(nd, prev, m, n, k, m);
      } else if p != m {
        MoveChain(nd, prev, m, n, k, p);
      }
    }
    forall p, i | 0 <= p < |nd| && p != n && p != m && InChain(nd, p, i)
      ensures InChain(nd', p, if i == m then n else i)
    {
      MoveChain(nd, prev, m, n, k, p);
    }
  }

  lemma AloneAtM(nd: seq<Node>, prev: int, m: int, n: int, k: Key)
    requires 0 <= m < |nd| && 0 <= n < |nd| && 0 <= prev < |nd|
    ensures HasChain(MoveAway(nd, prev, m, n, k), m) && InChain(MoveAway(nd, prev, m, n, k), m, m)
  {
    var nd' := MoveAway(nd, prev, m, n, k);
    assert [m][1..] == [];
    assert IsChain(nd', NULL, []);
    assert IsChain(nd', m, [m]);
  }

  lemma MoveLinked(nd: seq<Node>, prev: int, m: int, n: int, k: Key)
    requires MovePre(nd, prev, m, n) && prev != m
    requires forall i :: 0 <= i < |nd| ==> HasChain(MoveAway(nd, prev, m, n, k), i)
    ensures Linked(MoveAway(nd, prev, m, n, k))
  {
    var nd' := MoveAway(nd, prev, m, n, k);
    forall i, j | 0 <= i < j < |nd'| && nd'[i].next == nd'[j].next
      ensures nd'[i].next == NULL
    {
      ChainStart(nd, i);
      ChainStart(nd, j);
      ChainStart(nd, m);
    }
  }

  lemma MovedFree(nd: seq<Node>, prev: int, m: int, n: int, k: Key)
    requires MovePre(nd, prev, m, n) && prev != m && !k.NoKey?
    ensures FreeOk(MoveAway(nd, prev, m, n, k))
  {
    var nd' := MoveAway(nd, prev, m, n, k);
    forall i | 0 <= i < |nd'| && 0 <= nd'[i].next < |nd'|
      ensures !nd'[nd'[i].next].key.NoKey?
    {
    }
  }

  /** The node in front of `m` is found on the way from the main position of its key. */
  lemma {:induction false} BeforeFinds(nd: seq<Node>, i: int, l: seq<int>, m: int, fuel: nat)
    requires IsChain(nd, i, l) && m in l && i != m && fuel >= |l|
    ensures var prev := Before(nd, i, m, fuel); 0 <= prev < |nd| && nd[prev].next == m
    decreases |l|
  {
    assert l == [l[0]] + l[1..];
    if nd[i].next != m {
      BeforeFinds(nd, nd[i].next, l[1..], m, fuel - 1);
    }
  }

  /** The chain on which a node that has been put somewhere else is found. */
  lemma HomeChain(h: Hash, t: Tab, m: int) returns (l: seq<int>)
    requires Inv(h, t) && 0 <= m < |t.node| && !t.node[m].key.NoKey?
    ensures IsChain(t.node, MainPos(h, t.node[m].key, |t.node|), l) && m in l && |l| <= |t.node|
  {
    assert HomeOk(h, t.node, m);
    l :| IsChain(t.node, MainPos(h, t.node[m].key, |t.node|), l) && m in l;
    ChainLength(t.node, MainPos(h, t.node[m].key, |t.node|), l);
  }

  lemma PrevFinds(h: Hash, t: Tab, m: int)
    requires Inv(h, t) && 0 <= m < |t.node| && !t.node[m].key.NoKey? && MainPos(h, t.node[m].key, |t.node|) != m
    ensures var prev := Before(t.node, MainPos(h, t.node[m].key, |t.node|), m, |t.node|);
            0 <= prev < |t.node| && t.node[prev].next == m && prev != m
  {
    var nd, o := t.node, MainPos(h, t.node[m].key, |t.node|);
    assert HomeOk(h, nd, m);
    var l :| IsChain(nd, o, l) && m in l;
    ChainLength(nd, o, l);
    BeforeFinds(nd, o, l, m, |nd|);
    assert HasChain(nd, m);
    var l2 :| IsChain(nd, m, l2);
    ChainNoDup(nd, m, l2);
    NotSelf(nd, m, l2);
  }

  lemma AwayHome(h: Hash, nd: seq<Node>, prev: int, m: int, n: int, k: Key)
    requires Scattered(h, nd) && MovePre(nd, prev, m, n) && prev != m && m == MainPos(h, k, |nd|) && !k.NoKey?
    requires MainPos(h, nd[m].key, |nd|) != m
    ensures Scattered(h, MoveAway(nd, prev, m, n, k))
  {
    hide IsChain, Linked;
    var nd' := MoveAway(nd, prev, m, n, k);
    MoveChains(nd, prev, m, n, k);
    assert HomeOk(h, nd, m);
    forall i | 0 <= i < |nd|
      ensures HomeOk(h, nd', i)
    {
      assert HomeOk(h, nd, i);
    }
  }

  lemma AwayKeys(t: Tab, prev: int, m: int, n: int, k: Key)
    requires Distinct(t.node) && Outside(t) && CursorOk(t) && NewKey(t, k) && MovePre(t.node, prev, m, n) && prev != m
    requires t.lastfree <= |t.node| && n == FreeBelow(t.node, t.lastfree)
    ensures var t' := t.(node := MoveAway(t.node, prev, m, n, k), lastfree := n);
            Distinct(t'.node) && Outside(t') && CursorOk(t')
  {
    hide Linked, FreeOk, FreeBelow;
    FreeBelowFinds(t.node, t.lastfree);
  }

  lemma Away(h: Hash, t: Tab, k: Key, n: int)
    requires Inv(h, t) && NewKey(t, k) && !t.dummy && n == FreeBelow(t.node, t.lastfree) >= 0
    requires var m := MainPos(h, k, |t.node|); t.node[m].val != Nil && MainPos(h, t.node[m].key, |t.node|) != m
    ensures var m := MainPos(h, k, |t.node|);
            var prev := Before(t.node, MainPos(h, t.node[m].key, |t.node|), m, |t.node|);
            0 <= prev < |t.node| && MovePre(t.node, prev, m, n) && prev != m
            && Inv(h, t.(node := MoveAway(t.node, prev, m, n, k), lastfree := n))
  {
    hide IsChain, Linked, FreeBelow, Before, MoveAway, Scattered, Distinct, Outside, CursorOk;
    var nd, m := t.node, MainPos(h, k, |t.node|);
    var prev := Before(nd, MainPos(h, nd[m].key, |nd|), m, |nd|);
    PrevFinds(h, t, m);
    MoveChains(nd, prev, m, n, k);
    MoveLinked(nd, prev, m, n, k);
    MovedFree(nd, prev, m, n, k);
    AwayHome(h, nd, prev, m, n, k);
    AwayKeys(t, prev, m, n, k);
  }

  // ------------------------------------------------------------- newkey as a whole

  lemma PlacedSlots(nd: seq<Node>, prev: int, m: int, n: int, k: Key)
    requires 0 <= m < |nd| && 0 <= n < |nd| && 0 <= prev < |nd| && m != n
    ensures SetKey(nd, m, k)[m] == Node(k, nd[m].val, nd[m].next)
    ensures LinkBehind(nd, m, n, k)[n].key == k && LinkBehind(nd, m, n, k)[n].val == Nil
    ensures MoveAway(nd, prev, m, n, k)[m] == Node(k, Nil, NULL)
  {
  }

  /** A key that finds room: the table keeps its invariant and the new slot is empty. */
  lemma PlaceKeyKeepsInv(h: Hash, t: Tab, k: Key)
    requires Inv(h, t) && NewKey(t, k)
    ensures match PlaceKey(h, t, k)
            case Placed(t', pos) =>
              && |t'.node| > 0 && Inv(h, t') && 0 <= pos < |t'.node| && t'.node[pos].key == k && t'.node[pos].val == Nil
              && t'.arr == t.arr && |t'.node| == |t.node| && !t.dummy && !t'.dummy
            case NoRoom(t') => t'.(lastfree := t.lastfree) == t
  {
    hide Linked, FreeOk, Scattered, Distinct, Outside, IsChain, PlaceKey, FreeBelow, Before, MoveAway, LinkBehind;
    if t.dummy {
      DummyFull(h, t, k);
    } else {
      var m, n := MainPos(h, k, |t.node|), FreeBelow(t.node, t.lastfree);
      PlaceKeyCases(h, t, k);
      if t.node[m].val == Nil {
        InPlace(h, t, k);
        assert SetKey(t.node, m, k)[m] == Node(k, Nil, t.node[m].next);
      } else if n >= 0 && MainPos(h, t.node[m].key, |t.node|) != m {
        Away(h, t, k, n);
        PlacedSlots(t.node, Before(t.node, MainPos(h, t.node[m].key, |t.node|), m, |t.node|), m, n, k);
      } else if n >= 0 {
        Behind(h, t, k, n);
        PlacedSlots(t.node, m, m, n, k);
      }
    }
  }

  lemma DummyFull(h: Hash, t: Tab, k: Key)
    requires Inv(h, t) && t.dummy
    ensures PlaceKey(h, t, k).NoRoom? && PlaceKey(h, t, k).t.(lastfree := t.lastfree) == t
  {
  }

  lemma PlaceKeyCases(h: Hash, t: Tab, k: Key)
    requires Inv(h, t) && !t.dummy
    ensures t.lastfree <= |t.node| && |t.node| > 0
    ensures var nd, m := t.node, MainPos(h, k, |t.node|);
            var n := FreeBelow(nd, t.lastfree);
            var o := MainPos(h, nd[m].key, |nd|);
            var prev := Before(nd, o, m, |nd|);
            && (nd[m].val == Nil ==> PlaceKey(h, t, k) == Placed(t.(node := SetKey(nd, m, k)), m))
            && (nd[m].val != Nil && n < 0 ==> PlaceKey(h, t, k) == NoRoom(t.(lastfree := if t.lastfree <= 0 then t.lastfree - 1 else -1)))
            && (nd[m].val != Nil && n >= 0 && o == m ==> PlaceKey(h, t, k) == Placed(t.(node := LinkBehind(nd, m, n, k), lastfree := n), n))
            && (nd[m].val != Nil && n >= 0 && o != m && 0 <= prev < |nd| ==>
                  PlaceKey(h, t, k) == Placed(t.(node := MoveAway(nd, prev, m, n, k), lastfree := n), m))
  {
  }
}
