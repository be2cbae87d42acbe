/** Column statistics over the present (non-null) values of a column: sum, mean
    and median as pandas computes them, with exact reals instead of floats. */
module Stats {
  import opened Values

  /** Sum of a sequence of reals; the empty sum is 0, as in pandas. */
  function Sum(xs: seq<real>): real
  {
    if |xs| == 0 then 0.0 else Sum(xs[..|xs|-1]) + xs[|xs|-1]
  }

  lemma {:induction false} SumAppend(a: seq<real>, b: seq<real>)
    ensures Sum(a + b) == Sum(a) + Sum(b)
    decreases |b|
  {
    if |b| == 0 {
      assert a + b == a;
    } else {
      var b' := b[..|b|-1];
      assert (a + b)[..|a + b| - 1] == a + b';
      SumAppend(a, b');
    }
  }

  /** Every element at least `lo` makes the sum at least `|xs| * lo`; at most `hi`, at most `|xs| * hi`. */
  lemma {:induction false} SumBounds(xs: seq<real>, lo: real, hi: real)
    requires forall i :: 0 <= i < |xs| ==> lo <= xs[i] <= hi
    ensures |xs| as real * lo <= Sum(xs) <= |xs| as real * hi
    decreases |xs|
  {
    if |xs| > 0 {
      var n := (|xs| - 1) as real;
      SumBounds(xs[..|xs|-1], lo, hi);
      assert lo <= xs[|xs|-1] <= hi;
      assert |xs| as real == n + 1.0;
      assert (n + 1.0) * lo == n * lo + lo;
      assert (n + 1.0) * hi == n * hi + hi;
    }
  }

  /** Arithmetic mean; absent for no values (pandas returns NaN). */
  function Mean(xs: seq<real>): (m: Option<real>)
    ensures m.Some? <==> |xs| > 0
    ensures m.Some? ==> m.value * |xs| as real == Sum(xs)
  {
    if |xs| == 0 then None else Some(Sum(xs) / |xs| as real)
  }

  /** The mean lies between any lower and upper bound of the values. */
  lemma MeanWithin(xs: seq<real>, lo: real, hi: real)
    requires |xs| > 0
    requires forall i :: 0 <= i < |xs| ==> lo <= xs[i] <= hi
    ensures lo <= Mean(xs).value <= hi
  {
    SumBounds(xs, lo, hi);
    QuotientWithin(Sum(xs), |xs| as real, lo, hi);
  }

  lemma QuotientWithin(s: real, n: real, lo: real, hi: real)
    requires n > 0.0 && n * lo <= s <= n * hi
    ensures lo <= s / n <= hi
  {
    assert s / n * n == s;
    assert (s / n - lo) * n == s - n * lo;
    assert (hi - s / n) * n == n * hi - s;
  }

  /** Ascending order, stated on neighbours. */
  predicate Sorted(xs: seq<real>)
  {
    forall i :: 0 < i < |xs| ==> xs[i - 1] <= xs[i]
  }

  /** Insert `x` into a sorted sequence, keeping it sorted. */
  function Insert(x: real, s: seq<real>): (r: seq<real>)
    requires Sorted(s)
    ensures Sorted(r)
    ensures multiset(r) == multiset(s) + multiset{x}
    ensures |r| == |s| + 1
    ensures r[0] == if |s| > 0 && s[0] < x then s[0] else x
  {
    if |s| == 0 then [x]
    else if x <= s[0] then [x] + s
    else
      assert s == [s[0]] + s[1..];
      [s[0]] + Insert(x, s[1..])
  }

  /** Ascending sort; the order the median is read off. */
  function Sort(xs: seq<real>): (r: seq<real>)
    ensures Sorted(r)
    ensures multiset(r) == multiset(xs)
    ensures |r| == |xs|
  {
    if |xs| == 0 then []
    else
      assert xs == xs[..|xs|-1] + [xs[|xs|-1]];
      Insert(xs[|xs|-1], Sort(xs[..|xs|-1]))
  }

  /** The middle of a sequence: its middle element for an odd length, the mean
      of the two middle elements for an even one. */
  function Middle(s: seq<real>): real
    requires |s| > 0
  {
    if |s| % 2 == 1 then s[|s| / 2] else (s[|s| / 2 - 1] + s[|s| / 2]) / 2.0
  }

  /** pandas' median: the middle of the sorted values; absent for no values. */
  function Median(xs: seq<real>): (m: Option<real>)
    ensures m.Some? <==> |xs| > 0
    ensures m.Some? ==> Sort(xs)[(|xs| - 1) / 2] <= m.value <= Sort(xs)[|xs| / 2]
    ensures m.Some? && |xs| % 2 == 0 ==> 2.0 * m.value == Sort(xs)[|xs| / 2 - 1] + Sort(xs)[|xs| / 2]
  {
    if |xs| == 0 then None
    else
      MiddleBetween(Sort(xs));
      Some(Middle(Sort(xs)))
  }

  /** In a sorted sequence every earlier element is at most every later one. */
  lemma {:induction false} SortedMonotone(s: seq<real>, i: int, j: int)
    requires Sorted(s) && 0 <= i <= j < |s|
    ensures s[i] <= s[j]
    decreases j - i
  {
    if i < j {
      SortedMonotone(s, i, j - 1);
    }
  }

  /** The median lies between the two middle sorted values (which coincide
      for an odd count). */
  lemma MedianBetween(xs: seq<real>)
    requires |xs| > 0
    ensures Sort(xs)[(|xs| - 1) / 2] <= Median(xs).value <= Sort(xs)[|xs| / 2]
  {
    MiddleBetween(Sort(xs));
  }

  lemma MiddleBetween(s: seq<real>)
    requires Sorted(s) && |s| > 0
    ensures s[(|s| - 1) / 2] <= Middle(s) <= s[|s| / 2]
  {
    var n := |s|;
    if n % 2 == 0 {
      assert s[n / 2 - 1] <= s[n / 2];
    }
  }

  /** The median splits the values in half: the lower half of the sorted
      values (the middle one included) lies at or below it, the upper half at
      or above it. */
  lemma MedianSplits(xs: seq<real>)
    requires |xs| > 0
    ensures var s, m := Sort(xs), Median(xs).value;
      && (forall i :: 0 <= i <= (|xs| - 1) / 2 ==> s[i] <= m)
      && (forall i :: |xs| / 2 <= i < |xs| ==> m <= s[i])
  {
    var s, n := Sort(xs), |xs|;
    var m := Median(xs).value;
    MedianBetween(xs);
    forall i | 0 <= i <= (n - 1) / 2
      ensures s[i] <= m
    {
      SortedMonotone(s, i, (n - 1) / 2);
    }
    forall i | n / 2 <= i < n
      ensures m <= s[i]
    {
      SortedMonotone(s, n / 2, i);
    }
  }

  /** Every element of a permutation of `xs` is an element of `xs`. */
  lemma SortedElement(xs: seq<real>, i: int)
    requires 0 <= i < |xs|
    ensures Sort(xs)[i] in xs
  {
    var s := Sort(xs);
    assert s[i] in multiset(s);
  }

  /** The median lies within any bounds the values lie within; in particular
      it is one of the values or the mean of two of them. */
  lemma MedianWithin(xs: seq<real>, lo: real, hi: real)
    requires |xs| > 0
    requires forall x :: x in xs ==> lo <= x <= hi
    ensures lo <= Median(xs).value <= hi
  {
    var s := Sort(xs);
    var n := |s|;
    SortedElement(xs, n / 2);
    if n % 2 == 0 {
      SortedElement(xs, n / 2 - 1);
    }
  }
}
