/** `mean` and `median` (app.js:21-33) on the parsed list of numbers,
    with numbers modelled as mathematical reals. */
module Statistics {
  import opened Ordering

  /** The value of a statistic: one number, or (for a tied mode) an array
      of numbers. */
  datatype Value = Scalar(x: real) | List(items: seq<real>)

  /** The numbers a value holds, a scalar counting as one. */
  function Items(v: Value): seq<real> {
    match v
    case Scalar(x) => [x]
    case List(items) => items
  }

  /** `nums.reduce((acc, cur) => acc + cur, 0)`: a left fold from 0. */
  function Sum(xs: seq<real>): real
    decreases |xs|
  {
    if |xs| == 0 then 0.0 else Sum(xs[..|xs| - 1]) + xs[|xs| - 1]
  }

  /** The least element. */
  function Min(xs: seq<real>): (m: real)
    requires |xs| > 0
    ensures forall i :: 0 <= i < |xs| ==> m <= xs[i]
    ensures m in xs
  {
    if |xs| == 1 then xs[0]
    else
      var rest := Min(xs[1..]);
      assert forall i :: 1 <= i < |xs| ==> xs[i] == xs[1..][i - 1];
      if xs[0] <= rest then xs[0] else rest
  }

  /** The greatest element. */
  function Max(xs: seq<real>): (m: real)
    requires |xs| > 0
    ensures forall i :: 0 <= i < |xs| ==> xs[i] <= m
    ensures m in xs
  {
    if |xs| == 1 then xs[0]
    else
      var rest := Max(xs[1..]);
      assert forall i :: 1 <= i < |xs| ==> xs[i] == xs[1..][i - 1];
      if rest <= xs[0] then xs[0] else rest
  }

  /** The sum of a concatenation is the sum of the parts. */
  lemma {:induction false} SumAppend(a: seq<real>, b: seq<real>)
    ensures Sum(a + b) == Sum(a) + Sum(b)
    decreases |b|
  {
    if |b| == 0 {
      assert a + b == a;
    } else {
      assert (a + b)[..|a + b| - 1] == a + b[..|b| - 1];
      SumAppend(a, b[..|b| - 1]);
    }
  }

  /** The order of summation does not matter: the sum depends only on the
      multiset of values. */
  lemma {:induction false} SumPermutation(a: seq<real>, b: seq<real>)
    requires multiset(a) == multiset(b)
    ensures Sum(a) == Sum(b)
    decreases |a|
  {
    if |a| == 0 {
      assert |b| == |multiset(b)| == 0;
    } else {
      var n := |a| - 1;
      var x := a[n];
      assert a == a[..n] + [x];
      assert x in multiset(b);
      var j :| 0 <= j < |b| && b[j] == x;
      var rest := b[..j] + b[j + 1..];
      assert b == b[..j] + [x] + b[j + 1..];
      assert multiset(rest) == multiset(a[..n]) by {
        assert multiset(rest) == multiset(b[..j]) + multiset(b[j + 1..]);
        assert multiset(b) == multiset(b[..j]) + multiset{x} + multiset(b[j + 1..]);
        assert multiset(a) == multiset(a[..n]) + multiset{x};
        assert multiset(rest) == multiset(b) - multiset{x};
        assert multiset(a[..n]) == multiset(a) - multiset{x};
      }
      SumPermutation(a[..n], rest);
      SumAppend(b[..j] + [x], b[j + 1..]);
      SumAppend(b[..j], [x]);
      SumAppend(b[..j], b[j + 1..]);
      assert Sum([x]) == x by {
        assert [x][..0] == [];
      }
      assert Sum(a) == Sum(a[..n]) + x;
    }
  }

  /** `x` added to itself `n` times, starting from 0. */
  function Scale(n: nat, x: real): real {
    if n == 0 then 0.0 else Scale(n - 1, x) + x
  }

  /** Repeated addition is multiplication by the count. */
  lemma {:induction false} ScaleIsProduct(n: nat, x: real)
    ensures Scale(n, x) == (n as real) * x
  {
    if n > 0 {
      ScaleIsProduct(n - 1, x);
    }
  }

  /** Repeated addition of a larger number gives a larger total. */
  lemma {:induction false} ScaleMonotonic(n: nat, a: real, b: real)
    requires n > 0 && a < b
    ensures Scale(n, a) < Scale(n, b)
  {
    if n > 1 {
      ScaleMonotonic(n - 1, a, b);
    }
  }

  /** Bounds on the elements bound the sum. */
  lemma {:induction false} SumBetween(xs: seq<real>, lo: real, hi: real)
    requires forall i :: 0 <= i < |xs| ==> lo <= xs[i] <= hi
    ensures Scale(|xs|, lo) <= Sum(xs) <= Scale(|xs|, hi)
    decreases |xs|
  {
    if |xs| > 0 {
      SumBetween(xs[..|xs| - 1], lo, hi);
    }
  }

  /** `mean(nums)`: the sum divided by the count; that is, the number
      which, taken once for every element, adds up to the same total. */
  function Mean(xs: seq<real>): (r: real)
    requires |xs| > 0
    ensures Scale(|xs|, r) == Sum(xs)
  {
    var n, total := |xs| as real, Sum(xs);
    QuotientTimesDivisor(total / n, total, n);
    ScaleIsProduct(|xs|, total / n);
    total / n
  }

  lemma QuotientTimesDivisor(q: real, total: real, n: real)
    requires n > 0.0 && q == total / n
    ensures n * q == total
  {
  }

  /** The mean lies between the least and the greatest element. */
  lemma MeanBetweenExtremes(xs: seq<real>)
    requires |xs| > 0
    ensures Min(xs) <= Mean(xs) <= Max(xs)
  {
    var m := Mean(xs);
    SumBetween(xs, Min(xs), Max(xs));
    if m < Min(xs) {
      ScaleMonotonic(|xs|, m, Min(xs));
    }
    if Max(xs) < m {
      ScaleMonotonic(|xs|, Max(xs), m);
    }
  }

  /** The mean does not depend on the order of the numbers, so computing it
      before or after `median` has sorted the array gives the same value. */
  lemma MeanPermutation(xs: seq<real>, ys: seq<real>)
    requires |xs| > 0 && multiset(xs) == multiset(ys)
    ensures |ys| > 0 && Mean(xs) == Mean(ys)
  {
    assert |xs| == |multiset(xs)| == |ys|;
    SumPermutation(xs, ys);
  }

  /** The state `median` leaves behind: the array it sorted in place and
      the value it returned. */
  datatype MedianRun = MedianRun(sorted: seq<real>, median: real)

  /** `median(nums)`: sorts the array ascending, then reads the middle
      element, or the average of the two middle elements when the count is
      even. `Math.floor(n / 2)` on a non-negative count is `n / 2`. */
  function SortAndMedian(xs: seq<real>): (r: MedianRun)
    requires |xs| > 0
    ensures Sorted(r.sorted) && multiset(r.sorted) == multiset(xs)
    ensures |r.sorted| == |xs|
    ensures |xs| % 2 == 1 ==> r.median == r.sorted[|xs| / 2]
    ensures |xs| % 2 == 0 ==> r.median == (r.sorted[|xs| / 2 - 1] + r.sorted[|xs| / 2]) / 2.0
    ensures Min(xs) <= r.median <= Max(xs)
  {
    var s := Sort(xs);
    assert |s| == |multiset(s)| == |xs|;
    var mid := |s| / 2;
    assert s[mid] in multiset(xs);
    if |s| % 2 == 0 then
      assert s[mid - 1] in multiset(xs);
      MedianRun(s, (s[mid - 1] + s[mid]) / 2.0)
    else
      MedianRun(s, s[mid])
  }

  /** The value `median` returns. */
  function Median(xs: seq<real>): real
    requires |xs| > 0
  {
    SortAndMedian(xs).median
  }

  /** The middle rule holds of every ascending arrangement of the input,
      not only of the one `median` builds. */
  lemma MedianOfSortedArrangement(xs: seq<real>, s: seq<real>)
    requires |xs| > 0
    requires Sorted(s) && multiset(s) == multiset(xs)
    ensures |s| == |xs| && SortAndMedian(xs).sorted == s
    ensures |xs| % 2 == 1 ==> Median(xs) == s[|xs| / 2]
    ensures |xs| % 2 == 0 ==> Median(xs) == (s[|xs| / 2 - 1] + s[|xs| / 2]) / 2.0
  {
    assert |s| == |multiset(s)| == |xs|;
    SortedUnique(SortAndMedian(xs).sorted, s);
  }

  /** The median does not depend on the input order. */
  lemma MedianPermutation(xs: seq<real>, ys: seq<real>)
    requires |xs| > 0 && multiset(xs) == multiset(ys)
    ensures |ys| > 0 && Median(xs) == Median(ys)
  {
    assert |xs| == |multiset(xs)| == |ys|;
    SortedUnique(SortAndMedian(xs).sorted, SortAndMedian(ys).sorted);
  }

  /** `median` on an array: the array is sorted in place, which later
      readers of the same array observe. */
  method MedianInPlace(a: array<real>) returns (m: real)
    requires a.Length > 0
    modifies a
    ensures Sorted(a[..]) && multiset(a[..]) == multiset(old(a[..]))
    ensures m == Median(old(a[..]))
  {
    var run := SortAndMedian(a[..]);
    forall i | 0 <= i < a.Length {
      a[i] := run.sorted[i];
    }
    assert a[..] == run.sorted;
    m := run.median;
  }
}
