/**
 Quicksort as it is written: swaps in place, two searches for elements on the wrong side, and
 recursion for the smaller part only.
 */
module TableSorter {
  import opened Tables
  import opened TableSort

  /** A table that is sorted: `a[1]` to `a[n]`. Place 0 is not used. */
  class Sorter {
    const a: array<Val>
    const lt: Order

    constructor (a: array<Val>, lt: Order)
      ensures this.a == a && this.lt == lt
    {
      this.a, this.lt := a, lt;
    }

    /** `set2` after two `lua_rawgeti`: the two elements change places. */
    method Swap(i: int, j: int, ghost from: int, ghost last: int)
      requires 0 <= from <= i <= last < a.Length && from <= j <= last
      modifies a
      ensures a[..] == old(a[..])[i := old(a[j])][j := old(a[i])]
      ensures Rearranged(old(a[..]), a[..], from, last)
    {
      SwapRearranges(a[..], i, j, from, last);
      a[i], a[j] := a[j], a[i];
    }

    /** The three-way exchange that puts the median of `a[l]`, `a[i]` and `a[u]` into the middle. */
    method OrderThree(l: int, i: int, u: int)
      requires WeakOrder(lt) && 0 < l < i < u < a.Length && Le(lt, a[l], a[u])
      modifies a
      ensures Rearranged(old(a[..]), a[..], l, u) && Le(lt, a[l], a[i]) && Le(lt, a[i], a[u])
    {
      if lt(a[i], a[l]) {
        Swap(i, l, l, u);
      } else if lt(a[u], a[i]) {
        Swap(i, u, l, u);
      }
    }

    /** `while (a[++i] < P)`: `stop` is a place where the search must end. */
    method SearchUp(from: int, u: int, p: Val, ghost l: int, ghost stop: int) returns (ok: bool, i: int)
      requires WeakOrder(lt) && 0 < l <= from < stop <= u < a.Length && Le(lt, p, a[stop]) && AtMost(lt, a[..], l, from, p)
      ensures ok && from < i <= stop && Le(lt, p, a[i]) && AtMost(lt, a[..], l, i - 1, p)
    {
      i := from + 1;
      while lt(a[i], p)
        invariant from < i <= stop && AtMost(lt, a[..], l, i - 1, p)
        decreases stop - i
      {
        if i > u {
          return false, i;
        }
        LtIsLe(lt, a[i], p);
        i := i + 1;
      }
      ok := true;
    }

    /** `while (P < a[--j])` */
    method SearchDown(from: int, l: int, p: Val, ghost u: int, ghost stop: int) returns (ok: bool, j: int)
      requires WeakOrder(lt) && 0 < l <= stop < from <= u < a.Length && Le(lt, a[stop], p) && AtLeast(lt, a[..], from, u, p)
      ensures ok && stop <= j < from && Le(lt, a[j], p) && AtLeast(lt, a[..], j + 1, u, p)
    {
      j := from - 1;
      while lt(p, a[j])
        invariant stop <= j < from && AtLeast(lt, a[..], j + 1, u, p)
        decreases j - stop
      {
        if j < l {
          return false, j;
        }
        LtIsLe(lt, p, a[j]);
        j := j - 1;
      }
      ok := true;
    }

    /** One turn of the loop that exchanges elements on the wrong side of the pivot `p`: the next two of
        them change places, unless the searches have crossed. */
    method Turn(l: int, i0: int, j0: int, u: int, p: Val) returns (ok: bool, i: int, j: int)
      requires WeakOrder(lt) && 0 < l <= i0 <= j0 <= u - 1 && u < a.Length && (i0 == j0 ==> l < j0 <= u - 2)
      requires AtMost(lt, a[..], l, i0, p) && AtLeast(lt, a[..], j0, u, p)
      modifies a
      ensures ok && Rearranged(old(a[..]), a[..], l, u) && i0 < i <= j0 + 1 && j < j0 && i <= u - 1 && (i <= j ==> l < i)
      ensures if j < i then AtMost(lt, a[..], l, i - 1, p) && AtLeast(lt, a[..], i, u, p)
              else AtMost(lt, a[..], l, i, p) && AtLeast(lt, a[..], j, u, p)
      ensures j < i ==> a[..] == old(a[..])
      ensures i <= j ==> forall k :: j0 <= k <= u ==> a[k] == old(a[k])
    {
      hide WeakOrder, Rearranged, AtMost, AtLeast, Le;
      RearrangedSame(a[..], l, u);
      ghost var up, down := if i0 < j0 then j0 else j0 + 1, if i0 < j0 then i0 else i0 - 1;
      Stops(lt, a[..], l, i0, j0, u, p, up, down);
      j := j0;
      ok, i := SearchUp(i0, u, p, l, up);
      if !ok {
        return;
      }
      ok, j := SearchDown(j0, l, p, u, down);
      if !ok {
        return;
      }
      if j < i {
        Crossed(lt, a[..], j, i, u, p);
      } else {
        SidesSwapped(lt, a[..], l, i, j, u, p);
        Swap(i, j, l, u);
      }
    }

    /** The loop that exchanges elements on the wrong side of the pivot `p`. `ok` is false if the order
        function turned out to be invalid. */
    method Partition(l: int, u: int, p: Val) returns (ok: bool, i: int)
      requires WeakOrder(lt) && 0 < l && l + 2 < u < a.Length && a[u - 1] == p && Le(lt, a[l], p) && Le(lt, p, a[u])
      modifies a
      ensures ok && l < i < u && Rearranged(old(a[..]), a[..], l, u)
      ensures a[u - 1] == p && AtMost(lt, a[..], l, i - 1, p) && AtLeast(lt, a[..], i, u, p)
    {
      hide *;
      PivotNotLess(lt, p);
      RearrangedSame(a[..], l, u);
      EndsInPlace(lt, a[..], l, u, p);
      i := l;
      var j := u - 1;
      while true
        invariant l <= i <= j <= u - 1 && (i == j ==> l < j <= u - 2) && a[u - 1] == p
        invariant Rearranged(old(a[..]), a[..], l, u)
        invariant AtMost(lt, a[..], l, i, p) && AtLeast(lt, a[..], j, u, p)
        decreases j
      {
        ghost var s := a[..];
        ok, i, j := Turn(l, i, j, u, p);
        if !ok {
          return;
        }
        RearrangedTrans(old(a[..]), s, a[..], l, u);
        if j < i {
          assert a[u - 1] == a[..][u - 1] == s[u - 1];
          break;
        }
      }
    }

    /** The pivot goes where it belongs: between the elements that are not greater and those that are
        not less. */
    method Split(l: int, u: int) returns (ok: bool, i: int)
      requires WeakOrder(lt) && 0 < l && l + 2 < u < a.Length && Le(lt, a[l], a[(l + u) / 2]) && Le(lt, a[(l + u) / 2], a[u])
      modifies a
      ensures ok && l < i < u && Rearranged(old(a[..]), a[..], l, u)
      ensures AtMost(lt, a[..], l, i - 1, a[i]) && AtLeast(lt, a[..], i + 1, u, a[i])
    {
      hide WeakOrder, Rearranged, AtMost, AtLeast, Le;
      var m := (l + u) / 2;
      var p := a[m];
      Swap(m, u - 1, l, u);
      ghost var s1 := a[..];
      ok, i := Partition(l, u, p);
      if !ok {
        return;
      }
      ghost var s2 := a[..];
      RearrangedTrans(old(a[..]), s1, s2, l, u);
      PivotPlaced(lt, s2, l, i, u);
      Swap(u - 1, i, l, u);
      RearrangedTrans(old(a[..]), s2, a[..], l, u);
    }

    /** One round of the loop of `auxsort` up to the recursion. Two or three elements are sorted by it;
        with more of them, the pivot at `i` separates the rest. */
    method Arrange(l: int, u: int) returns (ok: bool, more: bool, i: int)
      requires WeakOrder(lt) && 0 < l < u < a.Length
      modifies a
      ensures ok && Rearranged(old(a[..]), a[..], l, u) && (more ==> l < i < u)
      ensures if more then AtMost(lt, a[..], l, i - 1, a[i]) && AtLeast(lt, a[..], i + 1, u, a[i]) else Sorted(lt, a[..], l, u)
    {
      hide WeakOrder, Rearranged, AtMost, AtLeast, Le, Sorted;
      ghost var s0 := a[..];
      RearrangedSame(s0, l, u);
      NotLess(lt, a[u], a[l]);
      if lt(a[u], a[l]) {
        Swap(l, u, l, u);
        SwappedEnds(lt, s0, l, u);
      }
      if u - l == 1 {
        SortedTwo(lt, a[..], l);
        return true, false, l;
      }
      ghost var s1 := a[..];
      OrderThree(l, (l + u) / 2, u);
      ghost var s2 := a[..];
      RearrangedTrans(s0, s1, s2, l, u);
      if u - l == 2 {
        SortedThree(lt, a[..], l);
        return true, false, l;
      }
      ok, i := Split(l, u);
      more := true;
      RearrangedTrans(s0, s2, a[..], l, u);
    }

    /** `auxsort`: the stretch from `l0` to `u0` is sorted, nothing else changes, the order function is
        never found invalid, and calls nest no deeper than the logarithm of the length. */
    method AuxSort(l0: int, u0: int) returns (ok: bool, ghost depth: nat)
      requires WeakOrder(lt) && 0 < l0 <= u0 + 1 <= a.Length
      modifies a
      ensures ok && Rearranged(old(a[..]), a[..], l0, u0) && Sorted(lt, a[..], l0, u0)
      ensures depth <= DepthBound(u0 - l0 + 1)
      decreases u0 - l0 + 1
    {
      hide *;
      var l, u := l0, u0;
      ok, depth := true, 1;
      DepthBase(u0 - l0 + 1);
      Begin(lt, a[..], l0, u0);
      while l < u
        invariant ok && l0 <= l <= u + 1 && u <= u0 && depth <= DepthBound(u0 - l0 + 1)
        invariant Rearranged(old(a[..]), a[..], l0, u0) && Done(lt, a[..], l0, l, u, u0)
        decreases u - l
      {
        ghost var s0 := a[..];
        var more, i;
        ok, more, i := Arrange(l, u);
        if !ok {
          return;
        }
        ghost var s3 := a[..];
        DoneKept(lt, s0, s3, l0, l, u, u0);
        Wider(old(a[..]), s0, s3, l, u, l0, u0);
        if !more {
          DoneShort(lt, s3, l0, l, u, u0);
          return;
        }
        DoneSplit(lt, s3, l0, l, i, u, u0);
        ghost var l1, u1, pivot := l, u, i;
        var j;
        if i - l < u - i {
          j, i, l := l, i - 1, i + 1;
        } else {
          j, i, u := i + 1, u, i - 1;
        }
        ghost var d;
        ok, d := AuxSort(j, i);
        Deeper(u0 - l0 + 1, u1 - l1 + 1, i - j + 1, d);
        depth := if 1 + d > depth then 1 + d else depth;
        Wider(old(a[..]), s3, a[..], j, i, l0, u0);
        if l > l1 {
          DoneLeft(lt, s3, a[..], l0, l1, pivot, u1, u0);
        } else {
          DoneRight(lt, s3, a[..], l0, l1, pivot, u1, u0);
        }
      }
      DoneAll(lt, a[..], l0, l, u, u0);
    }

    /** `sort`: a sorted rearrangement of the elements 1 to `n`. */
    method Sort(n: nat) returns (ok: bool)
      requires WeakOrder(lt) && n < a.Length
      modifies a
      ensures ok && Sorted(lt, a[..], 1, n) && multiset(a[..]) == multiset(old(a[..])) && Rearranged(old(a[..]), a[..], 1, n)
    {
      ghost var depth;
      ok, depth := AuxSort(1, n);
    }
  }

  // ------------------------------------------------------------- what is in order already

  /** The elements in front of `l` and behind `u` are in their final places. */
  ghost predicate Done(lt: Order, s: seq<Val>, l0: int, l: int, u: int, u0: int)
    requires 0 < l0 <= l <= u + 1 && u <= u0 < |s|
  {
    && Sorted(lt, s, l0, l - 1) && Sorted(lt, s, u + 1, u0)
    && Apart(lt, s, l0, l - 1, l, u0) && Apart(lt, s, l0, u, u + 1, u0)
  }

  lemma NotLess(lt: Order, x: Val, y: Val)
    ensures !lt(x, y) <==> Le(lt, y, x)
  {
  }

  lemma SortedTwo(lt: Order, s: seq<Val>, l: int)
    requires 0 < l && l + 1 < |s| && Le(lt, s[l], s[l + 1])
    ensures Sorted(lt, s, l, l + 1)
  {
  }

  lemma SortedThree(lt: Order, s: seq<Val>, l: int)
    requires WeakOrder(lt) && 0 < l && l + 2 < |s| && Le(lt, s[l], s[l + 1]) && Le(lt, s[l + 1], s[l + 2])
    ensures Sorted(lt, s, l, l + 2)
  {
    LeTrans(lt, s[l], s[l + 1], s[l + 2]);
  }

  lemma Begin(lt: Order, s: seq<Val>, l0: int, u0: int)
    requires 0 < l0 <= u0 + 1 <= |s|
    ensures Rearranged(s, s, l0, u0) && Done(lt, s, l0, l0, u0, u0)
  {
  }

  /** Rearranging what is not in order yet does not disturb the rest. */
  lemma DoneKept(lt: Order, s: seq<Val>, s': seq<Val>, l0: int, l: int, u: int, u0: int)
    requires 0 < l0 <= l <= u + 1 && u <= u0 < |s| && Done(lt, s, l0, l, u, u0) && Rearranged(s, s', l, u) && |s'| == |s|
    ensures Done(lt, s', l0, l, u, u0)
  {
    hide Rearranged, Sorted, Apart;
    SortedKept(lt, s, s', l, u, l0, l - 1);
    SortedKept(lt, s, s', l, u, u + 1, u0);
    ApartKept(lt, s, s', l, u, l0, l - 1, l, u0);
    ApartKept(lt, s, s', l, u, l0, u, u + 1, u0);
  }

  lemma Wider(s: seq<Val>, s1: seq<Val>, s2: seq<Val>, l: int, u: int, l0: int, u0: int)
    requires 0 <= l0 <= l <= u + 1 && u <= u0 < |s| && |s1| == |s| && Rearranged(s, s1, l0, u0) && Rearranged(s1, s2, l, u)
    ensures Rearranged(s, s2, l0, u0)
  {
    RearrangedWider(s1, s2, l, u, l0, u0);
    RearrangedTrans(s, s1, s2, l0, u0);
  }

  lemma SwappedEnds(lt: Order, s: seq<Val>, l: int, u: int)
    requires WeakOrder(lt) && 0 < l < u < |s| && lt(s[u], s[l])
    ensures var s' := s[l := s[u]][u := s[l]]; Le(lt, s'[l], s'[u])
  {
  }

  lemma DoneShort(lt: Order, s: seq<Val>, l0: int, l: int, u: int, u0: int)
    requires 0 < l0 <= l < u <= u0 < |s| && Done(lt, s, l0, l, u, u0) && Sorted(lt, s, l, u)
    ensures Sorted(lt, s, l0, u0)
  {
  }

  /** Once the pivot is in its place, either side of it can be sorted on its own. */
  ghost predicate SplitAt(lt: Order, s: seq<Val>, l0: int, l: int, i: int, u: int, u0: int)
    requires 0 < l0 <= l <= i <= u <= u0 < |s|
  {
    && Done(lt, s, l0, l, u, u0)
    && Apart(lt, s, l, i - 1, i, u) && Apart(lt, s, l, i, i + 1, u)
  }

  lemma DoneSplit(lt: Order, s: seq<Val>, l0: int, l: int, i: int, u: int, u0: int)
    requires WeakOrder(lt) && 0 < l0 <= l < i < u <= u0 < |s| && Done(lt, s, l0, l, u, u0)
    requires AtMost(lt, s, l, i - 1, s[i]) && AtLeast(lt, s, i + 1, u, s[i])
    ensures SplitAt(lt, s, l0, l, i, u, u0)
  {
    hide Done;
    forall x, y | l <= x <= i && i <= y <= u && (x < i || y > i)
      ensures Le(lt, s[x], s[y])
    {
      if x < i && y > i {
        LeTrans(lt, s[x], s[i], s[y]);
      }
    }
  }

  lemma SplitKept(lt: Order, s: seq<Val>, s': seq<Val>, l0: int, l: int, i: int, u: int, u0: int, from: int, last: int)
    requires 0 < l0 <= l < i < u <= u0 < |s| && SplitAt(lt, s, l0, l, i, u, u0) && |s'| == |s|
    requires (from == l && last == i - 1) || (from == i + 1 && last == u)
    requires Rearranged(s, s', from, last)
    ensures SplitAt(lt, s', l0, l, i, u, u0)
  {
    hide Rearranged, Sorted, Apart;
    SortedKept(lt, s, s', from, last, l0, l - 1);
    SortedKept(lt, s, s', from, last, u + 1, u0);
    ApartKept(lt, s, s', from, last, l0, l - 1, l, u0);
    ApartKept(lt, s, s', from, last, l0, u, u + 1, u0);
    ApartKept(lt, s, s', from, last, l, i - 1, i, u);
    ApartKept(lt, s, s', from, last, l, i, i + 1, u);
  }

  /** The left part is sorted: what is left to do begins behind the pivot. */
  lemma DoneLeft(lt: Order, s: seq<Val>, s': seq<Val>, l0: int, l: int, i: int, u: int, u0: int)
    requires 0 < l0 <= l < i < u <= u0 < |s| && SplitAt(lt, s, l0, l, i, u, u0) && |s'| == |s|
    requires Rearranged(s, s', l, i - 1) && Sorted(lt, s', l, i - 1)
    ensures Done(lt, s', l0, i + 1, u, u0)
  {
    hide Rearranged;
    SplitKept(lt, s, s', l0, l, i, u, u0, l, i - 1);
  }

  /** The right part is sorted: what is left to do ends in front of the pivot. */
  lemma DoneRight(lt: Order, s: seq<Val>, s': seq<Val>, l0: int, l: int, i: int, u: int, u0: int)
    requires 0 < l0 <= l < i < u <= u0 < |s| && SplitAt(lt, s, l0, l, i, u, u0) && |s'| == |s|
    requires Rearranged(s, s', i + 1, u) && Sorted(lt, s', i + 1, u)
    ensures Done(lt, s', l0, l, i - 1, u0)
  {
    hide Rearranged;
    SplitKept(lt, s, s', l0, l, i, u, u0, i + 1, u);
  }

  lemma DoneAll(lt: Order, s: seq<Val>, l0: int, l: int, u: int, u0: int)
    requires 0 < l0 <= l <= u + 1 && u <= u0 < |s| && Done(lt, s, l0, l, u, u0) && l >= u
    ensures Sorted(lt, s, l0, u0)
  {
  }

  lemma DepthBase(n: int)
    ensures DepthBound(n) >= 1
  {
  }

  lemma Deeper(all: int, n: int, m: int, d: nat)
    requires 2 <= n <= all && m <= n / 2 && d <= DepthBound(m)
    ensures 1 + d <= DepthBound(all)
  {
    hide DepthBound;
    DepthOfHalf(n, m);
    DepthMonotone(n, all);
  }

  lemma EndsInPlace(lt: Order, s: seq<Val>, l: int, u: int, p: Val)
    requires WeakOrder(lt) && 0 < l < u < |s| && s[u - 1] == p && Le(lt, s[l], p) && Le(lt, p, s[u])
    ensures AtMost(lt, s, l, l, p) && AtLeast(lt, s, u - 1, u, p)
  {
  }

  /** The searches end where they meet what has been looked at. */
  lemma Stops(lt: Order, s: seq<Val>, l: int, i: int, j: int, u: int, p: Val, up: int, down: int)
    requires 0 < l <= i <= j <= u - 1 && u < |s| && AtMost(lt, s, l, i, p) && AtLeast(lt, s, j, u, p)
    requires (i == j ==> l < j <= u - 2) && up == (if i < j then j else j + 1) && down == (if i < j then i else i - 1)
    ensures Le(lt, p, s[up]) && Le(lt, s[down], p)
  {
  }

  lemma Crossed(lt: Order, s: seq<Val>, j: int, i: int, u: int, p: Val)
    requires 0 <= j < i && u < |s| && AtLeast(lt, s, j + 1, u, p)
    ensures AtLeast(lt, s, i, u, p)
  {
  }

  lemma SidesSwapped(lt: Order, s: seq<Val>, l: int, i: int, j: int, u: int, p: Val)
    requires 0 < l <= i <= j <= u < |s| && AtMost(lt, s, l, i - 1, p) && AtLeast(lt, s, j + 1, u, p)
    requires Le(lt, p, s[i]) && Le(lt, s[j], p)
    ensures var s' := s[i := s[j]][j := s[i]]; AtMost(lt, s', l, i, p) && AtLeast(lt, s', j, u, p)
  {
  }

  lemma PivotPlaced(lt: Order, s: seq<Val>, l: int, i: int, u: int)
    requires 0 < l < i < u < |s| && AtMost(lt, s, l, i - 1, s[u - 1]) && AtLeast(lt, s, i, u, s[u - 1])
    ensures var s' := s[u - 1 := s[i]][i := s[u - 1]]; AtMost(lt, s', l, i - 1, s'[i]) && AtLeast(lt, s', i + 1, u, s'[i])
  {
  }

  lemma PivotNotLess(lt: Order, p: Val)
    requires WeakOrder(lt)
    ensures Le(lt, p, p)
  {
  }

  lemma RearrangedSame(s: seq<Val>, from: int, last: int)
    requires 0 <= from <= last + 1 <= |s|
    ensures Rearranged(s, s, from, last)
  {
  }
}
