/**
 Quicksort (auxsort in ltablib.c): the median of three is the pivot, the smaller part is sorted
 by recursion and the larger one by going round the loop.
 */
module TableSort {
  import opened Tables
  import opened TableRehash

  /** The comparison: `<`, or the function that the caller gives. */
  type Order = (Val, Val) -> bool

  /** A strict weak order: no two elements are less than each other, and what is put between two
      elements that are ordered is ordered with one of them. */
  ghost predicate WeakOrder(lt: Order) {
    && (forall x, y :: lt(x, y) ==> !lt(y, x))
    && (forall x, y, z {:trigger lt(x, y), lt(x, z)} {:trigger lt(x, y), lt(z, y)} :: lt(x, y) ==> lt(x, z) || lt(z, y))
  }

  /** Not greater. In a strict weak order this is transitive and total. */
  predicate Le(lt: Order, x: Val, y: Val) {
    !lt(y, x)
  }

  lemma LeTrans(lt: Order, x: Val, y: Val, z: Val)
    requires WeakOrder(lt) && Le(lt, x, y) && Le(lt, y, z)
    ensures Le(lt, x, z)
  {
  }

  lemma LtIsLe(lt: Order, x: Val, y: Val)
    requires WeakOrder(lt) && lt(x, y)
    ensures Le(lt, x, y)
  {
  }

  // ------------------------------------------------------------- stretches of a sequence

  /** No element of the stretch is greater than `p`; places count from 1 as in Lua. */
  ghost predicate AtMost(lt: Order, s: seq<Val>, from: int, last: int, p: Val)
    requires 0 <= from && last < |s|
  {
    forall k :: from <= k <= last ==> Le(lt, s[k], p)
  }

  ghost predicate AtLeast(lt: Order, s: seq<Val>, from: int, last: int, p: Val)
    requires 0 <= from && last < |s|
  {
    forall k :: from <= k <= last ==> Le(lt, p, s[k])
  }

  ghost predicate Sorted(lt: Order, s: seq<Val>, from: int, last: int)
    requires 0 <= from && last < |s|
  {
    forall i, j :: from <= i < j <= last ==> Le(lt, s[i], s[j])
  }

  /** Nothing in the first stretch is greater than anything in the second. */
  ghost predicate Apart(lt: Order, s: seq<Val>, from: int, last: int, from2: int, last2: int)
    requires 0 <= from && last < |s| && 0 <= from2 && last2 < |s|
  {
    forall i, j :: from <= i <= last && from2 <= j <= last2 ==> Le(lt, s[i], s[j])
  }

  /** The stretch has been rearranged, and nothing else. */
  ghost predicate Rearranged(s: seq<Val>, s': seq<Val>, from: int, last: int)
    requires 0 <= from <= last + 1 <= |s|
  {
    |s'| == |s| && s'[..from] == s[..from] && s'[last + 1..] == s[last + 1..] && multiset(s') == multiset(s)
  }

  lemma RearrangedTrans(s: seq<Val>, s1: seq<Val>, s2: seq<Val>, from: int, last: int)
    requires 0 <= from <= last + 1 <= |s| && Rearranged(s, s1, from, last) && Rearranged(s1, s2, from, last)
    ensures Rearranged(s, s2, from, last)
  {
  }

  /** A rearrangement of a part is one of the whole. */
  lemma RearrangedWider(s: seq<Val>, s': seq<Val>, from: int, last: int, from2: int, last2: int)
    requires 0 <= from2 <= from <= last + 1 <= last2 + 1 <= |s| && Rearranged(s, s', from, last)
    ensures Rearranged(s, s', from2, last2)
  {
    assert s'[..from2] == s'[..from][..from2] == s[..from2];
    assert s'[last2 + 1..] == s'[last + 1..][last2 - last..] == s[last2 + 1..];
  }

  /** Outside the stretch nothing has changed. */
  lemma RearrangedOutside(s: seq<Val>, s': seq<Val>, from: int, last: int, k: int)
    requires 0 <= from <= last + 1 <= |s| && Rearranged(s, s', from, last) && 0 <= k < |s| && (k < from || k > last)
    ensures s'[k] == s[k]
  {
    if k < from {
      assert s'[k] == s'[..from][k] == s[..from][k];
    } else {
      assert s'[k] == s'[last + 1..][k - last - 1] == s[last + 1..][k - last - 1];
    }
  }

  /** The elements of the stretch come from the stretch. */
  lemma RearrangedInside(s: seq<Val>, s': seq<Val>, from: int, last: int, k: int) returns (i: int)
    requires 0 <= from <= last + 1 <= |s| && Rearranged(s, s', from, last) && from <= k <= last
    ensures from <= i <= last && s[i] == s'[k]
  {
    var m, m' := s[from..last + 1], s'[from..last + 1];
    assert s == s[..from] + m + s[last + 1..];
    assert s' == s'[..from] + m' + s'[last + 1..];
    assert s'[..from] == s[..from] && s'[last + 1..] == s[last + 1..];
    assert multiset(s) == multiset(s[..from]) + multiset(m) + multiset(s[last + 1..]);
    assert multiset(s') == multiset(s[..from]) + multiset(m') + multiset(s[last + 1..]);
    forall v
      ensures multiset(m')[v] == multiset(m)[v]
    {
      assert multiset(s)[v] == multiset(s[..from])[v] + multiset(m)[v] + multiset(s[last + 1..])[v];
      assert multiset(s')[v] == multiset(s[..from])[v] + multiset(m')[v] + multiset(s[last + 1..])[v];
    }
    assert m'[k - from] == s'[k];
    assert s'[k] in multiset(m');
    var j :| 0 <= j < |m| && m[j] == s'[k];
    i := from + j;
  }

  /** Stretches stay apart when the elements of a part of one of them, or of elsewhere, are rearranged. */
  lemma ApartKept(lt: Order, s: seq<Val>, s': seq<Val>, from: int, last: int, a: int, b: int, c: int, d: int)
    requires 0 <= from <= last + 1 <= |s| && Rearranged(s, s', from, last)
    requires 0 <= a && b < |s| && 0 <= c && d < |s| && Apart(lt, s, a, b, c, d)
    requires (a <= from && last <= b) || last < a || b < from
    requires (c <= from && last <= d) || last < c || d < from
    ensures Apart(lt, s', a, b, c, d)
  {
    forall i, j | a <= i <= b && c <= j <= d
      ensures Le(lt, s'[i], s'[j])
    {
      var i0, j0 := i, j;
      if from <= i <= last {
        i0 := RearrangedInside(s, s', from, last, i);
      } else {
        RearrangedOutside(s, s', from, last, i);
      }
      if from <= j <= last {
        j0 := RearrangedInside(s, s', from, last, j);
      } else {
        RearrangedOutside(s, s', from, last, j);
      }
      assert Le(lt, s[i0], s[j0]);
    }
  }

  lemma SortedKept(lt: Order, s: seq<Val>, s': seq<Val>, from: int, last: int, a: int, b: int)
    requires 0 <= from <= last + 1 <= |s| && Rearranged(s, s', from, last)
    requires 0 <= a && b < |s| && Sorted(lt, s, a, b) && (last < a || b < from)
    ensures Sorted(lt, s', a, b)
  {
    forall i, j | a <= i < j <= b
      ensures Le(lt, s'[i], s'[j])
    {
      RearrangedOutside(s, s', from, last, i);
      RearrangedOutside(s, s', from, last, j);
    }
  }

  lemma SwapRearranges(s: seq<Val>, i: int, j: int, from: int, last: int)
    requires 0 <= from <= i <= last < |s| && from <= j <= last
    ensures Rearranged(s, s[i := s[j]][j := s[i]], from, last)
  {
    var s' := s[i := s[j]][j := s[i]];
    SwapMultiset(s, i, j);
    assert s'[..from] == s[..from] && s'[last + 1..] == s[last + 1..];
  }

  lemma SwapMultiset(s: seq<Val>, i: int, j: int)
    requires 0 <= i < |s| && 0 <= j < |s|
    ensures multiset(s[i := s[j]][j := s[i]]) == multiset(s)
  {
  }

  // ------------------------------------------------------------- the depth of the recursion

  /** How deep calls may nest when a stretch of `n` elements is sorted. */
  function DepthBound(n: int): nat {
    if n <= 1 then 1 else Log2(n) + 1
  }

  lemma DepthOfHalf(n: int, m: int)
    requires n >= 2 && m <= n / 2
    ensures 1 + DepthBound(m) <= DepthBound(n)
  {
    Log2Monotone(if m < 0 then 0 else m, n / 2);
  }

  lemma {:induction false} Log2Monotone(m: nat, n: nat)
    requires m <= n
    ensures Log2(m) <= Log2(n)
    decreases n
  {
    if m > 0 {
      Log2Monotone(m / 2, n / 2);
    }
  }

  lemma DepthMonotone(m: int, n: int)
    requires m <= n
    ensures DepthBound(m) <= DepthBound(n)
  {
    if m > 1 {
      Log2Monotone(m, n);
    }
  }
}
