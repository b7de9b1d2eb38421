/**
 Counting the keys of a table by powers of two (numusearray, numusehash, countint, computesizes).
 */
module TableCounts {
  import opened Tables
  import opened TableRehash
  import opened Sequences

  /** How many of the keys are integers in `(2^(j-1), 2^j]`. */
  function Slice(keys: seq<Key>, j: nat): int {
    Cnt(keys, Pow2(j)) - (if j == 0 then 0 else Cnt(keys, Pow2(j - 1)))
  }

  lemma SliceConcat(a: seq<Key>, b: seq<Key>, j: nat)
    ensures Slice(a + b, j) == Slice(a, j) + Slice(b, j)
  {
    CntConcat(a, b, Pow2(j));
    if j > 0 {
      CntConcat(a, b, Pow2(j - 1));
    }
  }

  lemma CntOne(k: Key, m: int)
    ensures Cnt([k], m) == if InRange(k, m) then 1 else 0
  {
    assert [k][..0] == [];
  }

  /** The slice of an integer is that of its `ceillog2`. */
  lemma SliceOne(k: Key, j: nat)
    requires j <= MAXBITS
    ensures Slice([k], j) == if InRange(k, MAXASIZE) && j == CeilLog2(k.i) then 1 else 0
    ensures InRange(k, MAXASIZE) ==> CeilLog2(k.i) <= MAXBITS
  {
    hide Pow2, Cnt, CeilLog2;
    CntOne(k, Pow2(j));
    if j > 0 {
      CntOne(k, Pow2(j - 1));
      Pow2Monotone(j - 1, j);
    }
    Pow2Monotone(j, MAXBITS);
    if InRange(k, MAXASIZE) {
      CeilLog2Is(k.i);
      var c := CeilLog2(k.i);
      if c > MAXBITS {
        Pow2Monotone(MAXBITS, c - 1);
      }
      if c < j {
        Pow2Monotone(c, j - 1);
      }
      if c > j {
        Pow2Monotone(j, c - 1);
      }
    }
  }

  /** The table of `luaO_log2`. */
  const LOG_2: seq<int> :=
    [0, 1, 2, 2, 3, 3, 3, 3, 4, 4, 4, 4, 4, 4, 4, 4, 5, 5, 5, 5, 5, 5, 5, 5, 5, 5, 5, 5, 5, 5, 5, 5] +
    [6, 6, 6, 6, 6, 6, 6, 6, 6, 6, 6, 6, 6, 6, 6, 6, 6, 6, 6, 6, 6, 6, 6, 6, 6, 6, 6, 6, 6, 6, 6, 6] +
    [7, 7, 7, 7, 7, 7, 7, 7, 7, 7, 7, 7, 7, 7, 7, 7, 7, 7, 7, 7, 7, 7, 7, 7, 7, 7, 7, 7, 7, 7, 7, 7] +
    [7, 7, 7, 7, 7, 7, 7, 7, 7, 7, 7, 7, 7, 7, 7, 7, 7, 7, 7, 7, 7, 7, 7, 7, 7, 7, 7, 7, 7, 7, 7, 7] +
    [8, 8, 8, 8, 8, 8, 8, 8, 8, 8, 8, 8, 8, 8, 8, 8, 8, 8, 8, 8, 8, 8, 8, 8, 8, 8, 8, 8, 8, 8, 8, 8] +
    [8, 8, 8, 8, 8, 8, 8, 8, 8, 8, 8, 8, 8, 8, 8, 8, 8, 8, 8, 8, 8, 8, 8, 8, 8, 8, 8, 8, 8, 8, 8, 8] +
    [8, 8, 8, 8, 8, 8, 8, 8, 8, 8, 8, 8, 8, 8, 8, 8, 8, 8, 8, 8, 8, 8, 8, 8, 8, 8, 8, 8, 8, 8, 8, 8] +
    [8, 8, 8, 8, 8, 8, 8, 8, 8, 8, 8, 8, 8, 8, 8, 8, 8, 8, 8, 8, 8, 8, 8, 8, 8, 8, 8, 8, 8, 8, 8, 8]

  /** The binary digits of a byte. */
  function Digits(x: nat): nat {
    if x < 1 then 0 else if x < 2 then 1 else if x < 4 then 2 else if x < 8 then 3 else if x < 16 then 4
    else if x < 32 then 5 else if x < 64 then 6 else if x < 128 then 7 else 8
  }

  lemma LowEntries()
    ensures |LOG_2| == 256 && LOG_2[0] == 0 && LOG_2[1] == 1 && LOG_2[2] == LOG_2[3] == 2
    ensures forall x :: 4 <= x < 8 ==> LOG_2[x] == 3
  {
  }

  lemma MiddleEntries()
    ensures |LOG_2| == 256 && forall x :: 8 <= x < 16 ==> LOG_2[x] == 4
    ensures forall x :: 16 <= x < 32 ==> LOG_2[x] == 5
  {
  }

  lemma HighEntries()
    ensures |LOG_2| == 256 && forall x :: 32 <= x < 64 ==> LOG_2[x] == 6
    ensures forall x :: 64 <= x < 128 ==> LOG_2[x] == 7
  {
  }

  lemma TopEntries()
    ensures |LOG_2| == 256 && forall x :: 128 <= x < 256 ==> LOG_2[x] == 8
  {
  }

  /** Every entry is one more than the logarithm of its place, which is -1 for 0. */
  lemma LogTableIs(x: nat)
    requires x < 256
    ensures |LOG_2| == 256 && LOG_2[x] == Log2(x) + 1
  {
    hide LOG_2, Pow2, Log2;
    LowEntries();
    MiddleEntries();
    HighEntries();
    TopEntries();
    PowersTo256();
    if x > 0 {
      Log2Exact(x, Digits(x) - 1);
    } else {
      assert Log2(0) == -1;
    }
  }

  lemma PowersTo256()
    ensures Pow2(0) == 1 && Pow2(1) == 2 && Pow2(2) == 4 && Pow2(3) == 8 && Pow2(4) == 16
    ensures Pow2(5) == 32 && Pow2(6) == 64 && Pow2(7) == 128 && Pow2(8) == 256
  {
    assert Pow2(4) == 16;
  }

  lemma Log2Halves(x: nat)
    requires x >= 16
    ensures Log2(x) == 4 + Log2(x / 16)
  {
    assert Log2(x) == 1 + Log2(x / 2);
    assert Log2(x / 2) == 1 + Log2(x / 2 / 2);
    assert Log2(x / 2 / 2) == 1 + Log2(x / 2 / 2 / 2);
    assert Log2(x / 2 / 2 / 2) == 1 + Log2(x / 2 / 2 / 2 / 2);
    assert x / 2 / 2 / 2 / 2 == x / 16;
  }

  lemma Log2Byte(x: nat)
    requires x >= 256
    ensures Log2(x) == 8 + Log2(x / 256)
  {
    Log2Halves(x);
    Log2Halves(x / 16);
    assert x / 16 / 16 == x / 256;
  }

  /** `luaO_log2`: a byte at a time, and a table for the last one. */
  method ComputeLog2(n: nat) returns (l: int)
    ensures l == Log2(n)
  {
    l := -1;
    var x: nat := n;
    while x >= 256
      invariant Log2(n) == l + 1 + Log2(x)
    {
      Log2Byte(x);
      l := l + 8;
      x := x / 256;
    }
    LogTableIs(x);
    l := l + LOG_2[x];
  }

  // ------------------------------------------------------------- the array part

  lemma ArrSplit(arr: seq<Val>, m: nat)
    requires arr != []
    ensures Cnt(ArrKeys(arr), m) == Cnt(ArrKeys(arr[..|arr| - 1]), m) + (if arr[|arr| - 1] != Nil && |arr| <= m then 1 else 0)
    ensures |ArrKeys(arr)| == |ArrKeys(arr[..|arr| - 1])| + (if arr[|arr| - 1] != Nil then 1 else 0)
  {
    hide Cnt;
    var z := |arr| - 1;
    CntConcat(ArrKeys(arr[..z]), if arr[z] != Nil then [Int(|arr|)] else [], m);
    CntOne(Int(|arr|), m);
    CntEmpty(m);
  }

  lemma CntEmpty(m: nat)
    ensures Cnt([], m) == 0
  {
  }

  lemma {:induction false} ArrStep(arr: seq<Val>, m: nat)
    requires m < |arr|
    ensures Cnt(ArrKeys(arr), m + 1) == Cnt(ArrKeys(arr), m) + (if arr[m] != Nil then 1 else 0)
    decreases |arr|
  {
    hide Cnt, ArrKeys;
    var z := |arr| - 1;
    ArrSplit(arr, m);
    ArrSplit(arr, m + 1);
    if m < z {
      ArrStep(arr[..z], m);
    } else {
      ArrAll(arr[..z], m);
      ArrAll(arr[..z], m + 1);
    }
  }

  lemma {:induction false} ArrAll(arr: seq<Val>, m: nat)
    requires m >= |arr|
    ensures Cnt(ArrKeys(arr), m) == |ArrKeys(arr)|
    decreases |arr|
  {
    if arr != [] {
      hide Cnt, ArrKeys;
      ArrSplit(arr, m);
      ArrAll(arr[..|arr| - 1], m);
    }
  }

  lemma ArrNothing(arr: seq<Val>)
    ensures Cnt(ArrKeys(arr), 0) == 0
  {
    CntNone(ArrKeys(arr));
  }

  /** Beyond the array part nothing is counted. */
  lemma SliceBeyond(arr: seq<Val>, j: nat)
    requires j > 0 && Pow2(j - 1) >= |arr|
    ensures Slice(ArrKeys(arr), j) == 0
  {
    Pow2Monotone(j - 1, j);
    ArrAll(arr, Pow2(j));
    ArrAll(arr, Pow2(j - 1));
  }

  // ------------------------------------------------------------- computesizes

  lemma BestStep(keys: seq<Key>, i: nat)
    ensures BestFrom(keys, i) == if Worth(keys, i) then Pow2(i) else if i == 0 then 0 else BestFrom(keys, i - 1)
  {
  }

  /** A slice without keys does not make a size worth having. */
  lemma EmptySlice(keys: seq<Key>, i: nat)
    requires NoDup(keys) && Slice(keys, i) <= 0
    ensures !Worth(keys, i)
  {
    if i > 0 {
      CntBound(keys, Pow2(i - 1));
    }
  }

  /** If no size from `i` on is worth having, the search can stop below. */
  lemma {:induction false} NothingAbove(keys: seq<Key>, i: nat, m: nat)
    requires i <= m && forall j :: i < j <= m ==> !Worth(keys, j)
    ensures BestFrom(keys, m) == BestFrom(keys, i)
    decreases m
  {
    if i < m {
      NothingAbove(keys, i, m - 1);
    }
  }

  /** All integer keys are counted: larger sizes are not worth having. */
  lemma AllCounted(keys: seq<Key>, i: nat)
    requires NoDup(keys) && i <= MAXBITS && Cnt(keys, Pow2(i)) == Cnt(keys, MAXASIZE)
    ensures BestSize(keys) == BestFrom(keys, i)
  {
    hide Pow2, Cnt, BestFrom;
    forall j | i < j <= MAXBITS
      ensures !Worth(keys, j)
    {
      CntBound(keys, Pow2(i));
      Pow2Monotone(j, MAXBITS);
      CntMonotone(keys, Pow2(j), MAXASIZE);
      Pow2Monotone(i, j - 1);
      Pow2Double(j);
    }
    NothingAbove(keys, i, MAXBITS);
  }

  lemma Pow2Double(j: nat)
    requires j > 0
    ensures Pow2(j) == 2 * Pow2(j - 1)
  {
  }

  /** There are too few keys for this size and all larger ones. */
  lemma TooFew(keys: seq<Key>, i: nat)
    requires Cnt(keys, MAXASIZE) <= Pow2(i) / 2
    ensures forall j :: i <= j <= MAXBITS ==> !Worth(keys, j)
  {
    forall j | i <= j <= MAXBITS
      ensures !Worth(keys, j)
    {
      Pow2Monotone(i, j);
      Pow2Monotone(j, MAXBITS);
      CntMonotone(keys, Pow2(j), MAXASIZE);
    }
  }

  lemma {:induction false} NoneWorth(keys: seq<Key>, m: nat)
    requires forall j :: 0 <= j <= m ==> !Worth(keys, j)
    ensures BestFrom(keys, m) == 0
  {
    if m > 0 {
      NoneWorth(keys, m - 1);
    }
  }

  /** `computesizes`: from the slices to the size of the array part and the number of keys in it. */
  method ComputeSizes(nums: array<int>, narray: int, ghost keys: seq<Key>) returns (n: nat, na: nat)
    requires nums.Length == MAXBITS + 1 && NoDup(keys) && narray == Cnt(keys, MAXASIZE)
    requires forall j :: 0 <= j <= MAXBITS ==> nums[j] == Slice(keys, j)
    ensures n == BestSize(keys) && na == Cnt(keys, n)
  {
    var i, twotoi, a := 0, 1, 0;
    n, na := 0, 0;
    CntNone(keys);
    while twotoi / 2 < narray
      invariant 0 <= i <= MAXBITS + 1 && twotoi == Pow2(i)
      invariant a == if i == 0 then 0 else Cnt(keys, Pow2(i - 1))
      invariant n == if i == 0 then 0 else BestFrom(keys, i - 1)
      invariant na == Cnt(keys, n)
      decreases MAXBITS + 1 - i
    {
      if i == MAXBITS + 1 {
        CntBound(keys, MAXASIZE);
        assert false;
      }
      BestStep(keys, i);
      if nums[i] > 0 {
        a := a + nums[i];
        if a > twotoi / 2 {
          n := twotoi;
          na := a;
        }
      } else {
        EmptySlice(keys, i);
        SliceNonneg(keys, i);
      }
      if a == narray {
        AllCounted(keys, i);
        return;
      }
      i := i + 1;
      twotoi := twotoi * 2;
    }
    if i <= MAXBITS {
      TooFew(keys, i);
      if i == 0 {
        NoneWorth(keys, MAXBITS);
      } else {
        NothingAbove(keys, i - 1, MAXBITS);
      }
    }
  }

  lemma SliceNonneg(keys: seq<Key>, i: nat)
    ensures Slice(keys, i) >= 0
  {
    if i > 0 {
      Pow2Monotone(i - 1, i);
      CntMonotone(keys, Pow2(i - 1), Pow2(i));
    }
  }

  /** The size that `computesizes` finds is the largest power of two, up to the limit, with more than
      half of its slots in use, and 0 if there is none. */
  lemma BestSizeIs(keys: seq<Key>)
    ensures BestSize(keys) == 0 || exists j: nat :: j <= MAXBITS && BestSize(keys) == Pow2(j) && Cnt(keys, Pow2(j)) > Pow2(j) / 2
    ensures forall j: nat :: j <= MAXBITS && Cnt(keys, Pow2(j)) > Pow2(j) / 2 ==> Pow2(j) <= BestSize(keys)
  {
    hide Pow2, Cnt, BestFrom;
    BestFromIs(keys, MAXBITS);
    forall j: nat | j <= MAXBITS && Cnt(keys, Pow2(j)) > Pow2(j) / 2
      ensures Pow2(j) <= BestSize(keys)
    {
      assert Worth(keys, j);
    }
  }
}
