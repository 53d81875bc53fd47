/**
  The controller's in-place Lomuto quicksort and the nearest-rank-floor
  percentile computed on a sorted copy of the samples. Durations are
  milliseconds here (the firmware sorts the same values as seconds in
  `float`; dividing by 1000 preserves their order).
 */
module Sorting {
  import opened Common

  predicate Sorted(s: seq<int>) {
    forall i, j :: 0 <= i < j < |s| ==> s[i] <= s[j]
  }

  // ---------------------------------------------------------------------
  // Reference sort: the specification of "the sorted samples"
  // ---------------------------------------------------------------------

  function Insert(x: int, s: seq<int>): seq<int> {
    if s == [] || x <= s[0] then [x] + s else [s[0]] + Insert(x, s[1..])
  }

  function Sort(s: seq<int>): seq<int> {
    if s == [] then [] else Insert(s[0], Sort(s[1..]))
  }

  predicate AllBelow(s: seq<int>, p: int) {
    forall k :: 0 <= k < |s| ==> s[k] < p
  }

  predicate AllAtLeast(s: seq<int>, p: int) {
    forall k :: 0 <= k < |s| ==> p <= s[k]
  }

  lemma AllBelowPerm(s: seq<int>, t: seq<int>, p: int)
    requires multiset(s) == multiset(t) && AllBelow(s, p)
    ensures AllBelow(t, p)
  {
    forall k | 0 <= k < |t|
      ensures t[k] < p
    {
      assert t[k] in multiset(s);
    }
  }

  lemma AllAtLeastPerm(s: seq<int>, t: seq<int>, p: int)
    requires multiset(s) == multiset(t) && AllAtLeast(s, p)
    ensures AllAtLeast(t, p)
  {
    forall k | 0 <= k < |t|
      ensures p <= t[k]
    {
      assert t[k] in multiset(s);
    }
  }

  lemma {:induction false} InsertMultiset(x: int, s: seq<int>)
    ensures multiset(Insert(x, s)) == multiset(s) + multiset{x}
    ensures |Insert(x, s)| == |s| + 1
  {
    if s != [] && x > s[0] {
      InsertMultiset(x, s[1..]);
      assert s == [s[0]] + s[1..];
    }
  }

  /** Putting a head no larger than the first element before an ascending sequence keeps it ascending. */
  lemma SortedCons(h: int, t: seq<int>)
    requires Sorted(t) && (t == [] || h <= t[0])
    ensures Sorted([h] + t)
  {
  }

  lemma {:induction false} InsertSorted(x: int, s: seq<int>)
    requires Sorted(s)
    ensures Sorted(Insert(x, s))
  {
    if s != [] && x > s[0] {
      var u := s[1..];
      InsertSorted(x, u);
      var t := Insert(x, u);
      assert u != [] ==> t[0] == x || t[0] == u[0];
      SortedCons(s[0], t);
    }
  }

  lemma InsertCorrect(x: int, s: seq<int>)
    requires Sorted(s)
    ensures Sorted(Insert(x, s))
    ensures multiset(Insert(x, s)) == multiset(s) + multiset{x}
  {
    InsertMultiset(x, s);
    InsertSorted(x, s);
  }

  /** The reference sort yields the same samples, in ascending order. */
  lemma {:induction false} SortCorrect(s: seq<int>)
    ensures Sorted(Sort(s))
    ensures multiset(Sort(s)) == multiset(s)
    ensures |Sort(s)| == |s|
  {
    if s != [] {
      SortCorrect(s[1..]);
      InsertCorrect(s[0], Sort(s[1..]));
      assert s == [s[0]] + s[1..];
      assert |Sort(s)| == |multiset(Sort(s))|;
    }
  }

  lemma SortedHeadIsLeast(s: seq<int>, x: int)
    requires Sorted(s) && x in multiset(s)
    ensures s[0] <= x
  {
    var k :| 0 <= k < |s| && s[k] == x;
  }

  /** Two ascending sequences holding the same samples are equal. */
  lemma {:induction false} SortedUnique(a: seq<int>, b: seq<int>)
    requires Sorted(a) && Sorted(b)
    requires multiset(a) == multiset(b)
    ensures a == b
  {
    if a == [] {
      assert |multiset(b)| == 0;
    } else {
      assert a[0] in multiset(a);
      assert b != [];
      assert b[0] in multiset(b);
      SortedHeadIsLeast(a, b[0]);
      SortedHeadIsLeast(b, a[0]);
      assert a[0] == b[0];
      assert a == [a[0]] + a[1..];
      assert b == [b[0]] + b[1..];
      assert multiset(a) == multiset{a[0]} + multiset(a[1..]);
      assert multiset(b) == multiset{b[0]} + multiset(b[1..]);
      assert multiset(a[1..]) == multiset(a) - multiset{a[0]};
      assert multiset(b[1..]) == multiset(b) - multiset{b[0]};
      SortedUnique(a[1..], b[1..]);
    }
  }

  // ---------------------------------------------------------------------
  // quickSort (Lomuto partition), in place
  // ---------------------------------------------------------------------

  /** Every slot of `a` outside `lo..hi` (both included) holds what `b` holds. */
  ghost predicate SameOutside<T>(a: seq<T>, b: seq<T>, lo: int, hi: int) {
    |a| == |b| && forall k :: 0 <= k < |a| && !(lo <= k <= hi) ==> a[k] == b[k]
  }

  lemma SplitMultiset<T>(s: seq<T>, lo: int, hi: int)
    requires 0 <= lo <= hi <= |s|
    ensures multiset(s) == multiset(s[..lo]) + multiset(s[lo..hi]) + multiset(s[hi..])
  {
    assert s == s[..lo] + s[lo..hi] + s[hi..];
  }

  lemma RangeMultiset<T>(s: seq<T>, t: seq<T>, lo: int, hi: int)
    requires 0 <= lo <= hi + 1 <= |s|
    requires multiset(s) == multiset(t) && SameOutside(s, t, lo, hi)
    ensures multiset(s[lo..hi + 1]) == multiset(t[lo..hi + 1])
  {
    assert s[..lo] == t[..lo];
    assert s[hi + 1..] == t[hi + 1..];
    SplitMultiset(s, lo, hi + 1);
    SplitMultiset(t, lo, hi + 1);
    assert multiset(s[lo..hi + 1]) == multiset(s) - multiset(s[..lo]) - multiset(s[hi + 1..]);
    assert multiset(t[lo..hi + 1]) == multiset(t) - multiset(t[..lo]) - multiset(t[hi + 1..]);
  }

  method Swap(a: array<int>, i: int, j: int)
    requires 0 <= i < a.Length && 0 <= j < a.Length
    modifies a
    ensures a[..] == old(a[..])[i := old(a[j])][j := old(a[i])]
    ensures multiset(a[..]) == multiset(old(a[..]))
  {
    var temp := a[i];
    a[i] := a[j];
    a[j] := temp;
  }

  /** The Lomuto loop's picture of `a[low..high]` after `j` steps: `a[low..i]` below the pivot, `a[i+1..j-1]` not. */
  ghost predicate Partitioned(a: seq<int>, low: int, i: int, j: int, pivot: int) {
    0 <= low && low - 1 <= i < j <= |a|
    && (forall k :: low <= k <= i ==> a[k] < pivot)
    && (forall k :: i < k < j ==> pivot <= a[k])
  }

  /**
    Partitions `a[low..high]` around the pivot `a[high]`: smaller elements
    end up left of the returned index, the others right of it.
   */
  method Partition(a: array<int>, low: int, high: int) returns (pi: int)
    requires 0 <= low < high < a.Length
    modifies a
    ensures low <= pi <= high
    ensures AllBelow(a[low..pi], a[pi]) && AllAtLeast(a[pi + 1..high + 1], a[pi])
    ensures multiset(a[..]) == multiset(old(a[..]))
    ensures SameOutside(a[..], old(a[..]), low, high)
  {
    var pivot := a[high];
    var i := low - 1;
    var j := low;
    while j < high
      invariant low <= j <= high
      invariant Partitioned(a[..], low, i, j, pivot)
      invariant a[high] == pivot
      invariant multiset(a[..]) == multiset(old(a[..]))
      invariant SameOutside(a[..], old(a[..]), low, high)
    {
      i := PartitionStep(a, low, high, i, j, pivot);
      j := j + 1;
    }
    Swap(a, i + 1, high);
    pi := i + 1;
  }

  /** One step of the Lomuto loop: a smaller `a[j]` is swapped into the lower part. */
  method PartitionStep(a: array<int>, low: int, high: int, i: int, j: int, pivot: int) returns (i': int)
    requires low <= j < high < a.Length
    requires Partitioned(a[..], low, i, j, pivot) && a[high] == pivot
    modifies a
    ensures Partitioned(a[..], low, i', j + 1, pivot) && a[high] == pivot
    ensures multiset(a[..]) == multiset(old(a[..]))
    ensures SameOutside(a[..], old(a[..]), low, high)
  {
    i' := i;
    if a[j] < pivot {
      i' := i + 1;
      Swap(a, i', j);
    }
  }

  lemma SortedJoin(l: seq<int>, p: int, r: seq<int>)
    requires Sorted(l) && Sorted(r)
    requires AllBelow(l, p) && AllAtLeast(r, p)
    ensures Sorted(l + [p] + r)
  {
  }

  /** The two recursive calls of quickSort, on either side of the pivot, finish the job. */
  lemma QuickSortJoin(mid: seq<int>, left: seq<int>, fin: seq<int>, low: int, pi: int, high: int)
    requires 0 <= low <= pi <= high < |mid|
    requires AllBelow(mid[low..pi], mid[pi]) && AllAtLeast(mid[pi + 1..high + 1], mid[pi])
    requires multiset(left) == multiset(mid) && SameOutside(left, mid, low, pi - 1)
    requires Sorted(left[low..pi])
    requires multiset(fin) == multiset(left) && SameOutside(fin, left, pi + 1, high)
    requires Sorted(fin[pi + 1..high + 1])
    ensures Sorted(fin[low..high + 1])
    ensures SameOutside(fin, mid, low, high)
  {
    var p := mid[pi];
    RangeMultiset(left, mid, low, pi - 1);
    AllBelowPerm(mid[low..pi], left[low..pi], p);
    RangeMultiset(fin, left, pi + 1, high);
    assert left[pi + 1..high + 1] == mid[pi + 1..high + 1];
    AllAtLeastPerm(mid[pi + 1..high + 1], fin[pi + 1..high + 1], p);
    assert fin[low..pi] == left[low..pi];
    assert fin[pi] == p;
    SortedJoin(fin[low..pi], p, fin[pi + 1..high + 1]);
    assert fin[low..high + 1] == fin[low..pi] + [p] + fin[pi + 1..high + 1];
  }

  /** quickSort(arr, low, high): sorts `a[low..high]` (both ends included) in place. */
  method QuickSort(a: array<int>, low: int, high: int)
    requires 0 <= low <= high + 1 <= a.Length
    modifies a
    ensures Sorted(a[low..high + 1])
    ensures multiset(a[..]) == multiset(old(a[..]))
    ensures SameOutside(a[..], old(a[..]), low, high)
    decreases high - low
  {
    if low < high {
      var pi := Partition(a, low, high);
      ghost var mid := a[..];
      QuickSort(a, low, pi - 1);
      ghost var left := a[..];
      QuickSort(a, pi + 1, high);
      QuickSortJoin(mid, left, a[..], low, pi, high);
    }
  }

  // ---------------------------------------------------------------------
  // calcularPercentil
  // ---------------------------------------------------------------------

  /** Rank of percentile `percent` among `n` samples: floor(percent * n / 100), capped at n - 1. */
  function RankIndex(percent: nat, n: nat): (k: nat)
    requires n > 0
    ensures k < n
    ensures k <= percent * n / 100
  {
    if percent * n / 100 >= n then n - 1 else percent * n / 100
  }

  /** The percentile `percent` of `samples` as the firmware defines it; 0 for no samples. */
  function PercentileOf(samples: seq<int>, percent: nat): int {
    if |samples| == 0 then 0
    else SortCorrect(samples); Sort(samples)[RankIndex(percent, |samples|)]
  }

  /**
    calcularPercentil: sorts a copy of the first `n` samples (the caller's
    array is left alone) and returns the sample at the percentile's rank,
    or 0 when there are no samples.
   */
  method Percentile(data: array<int>, n: int, percent: nat) returns (r: int)
    requires 0 <= n <= data.Length && n <= MAX_PEDIDOS
    ensures r == PercentileOf(data[..n], percent)
    ensures n > 0 ==> r in data[..n]
  {
    if n == 0 {
      return 0;
    }
    var temp := new int[MAX_PEDIDOS];
    for i := 0 to n
      invariant temp[..i] == data[..i]
    {
      temp[i] := data[i];
    }
    ghost var copied := temp[..];
    QuickSort(temp, 0, n - 1);
    RangeMultiset(temp[..], copied, 0, n - 1);
    assert temp[..n] == temp[..][0..n - 1 + 1];
    assert copied[0..n - 1 + 1] == data[..n];
    SortedPercentile(temp[..n], data[..n], percent);
    r := temp[RankIndex(percent, n)];
  }

  /** Reading the rank off any ascending rearrangement of the samples gives their percentile. */
  lemma SortedPercentile(t: seq<int>, d: seq<int>, percent: nat)
    requires |d| > 0 && Sorted(t) && multiset(t) == multiset(d)
    ensures |t| == |d|
    ensures t[RankIndex(percent, |d|)] == PercentileOf(d, percent)
    ensures t[RankIndex(percent, |d|)] in d
  {
    assert |t| == |multiset(t)| == |multiset(d)| == |d|;
    SortCorrect(d);
    SortedUnique(t, Sort(d));
    assert t[RankIndex(percent, |d|)] in multiset(d);
  }

  /** A higher percentile never reports a smaller sample (p50 <= p95). */
  lemma PercentileMonotone(s: seq<int>, p: nat, q: nat)
    requires p <= q
    ensures PercentileOf(s, p) <= PercentileOf(s, q)
  {
    if |s| > 0 {
      SortCorrect(s);
      RankMonotone(p, q, |s|);
      var t := Sort(s);
      var i, j := RankIndex(p, |s|), RankIndex(q, |s|);
      assert i <= j < |t|;
      assert t[i] <= t[j];
    }
  }

  /** The rank grows with the percentile. */
  lemma RankMonotone(p: nat, q: nat, n: nat)
    requires p <= q && n > 0
    ensures RankIndex(p, n) <= RankIndex(q, n)
  {
    MulMonotone(p, q, n);
    DivMonotone(p * n, q * n);
  }

  /** The 0th percentile is the smallest sample and the 100th the largest. */
  lemma Extremes(s: seq<int>)
    requires |s| > 0
    ensures forall k :: 0 <= k < |s| ==> PercentileOf(s, 0) <= s[k] <= PercentileOf(s, 100)
  {
    SortCorrect(s);
    var t := Sort(s);
    forall k | 0 <= k < |s|
      ensures t[0] <= s[k] <= t[|s| - 1]
    {
      assert s[k] in multiset(t);
      var j :| 0 <= j < |t| && t[j] == s[k];
    }
  }

  lemma MulMonotone(p: nat, q: nat, n: nat)
    requires p <= q
    ensures p * n <= q * n
  {
    assert q * n - p * n == (q - p) * n;
  }

  lemma DivMonotone(a: nat, b: nat)
    requires a <= b
    ensures a / 100 <= b / 100
  {
  }
}
