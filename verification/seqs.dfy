/** Sequence arithmetic shared by the signal-processing modules: the numpy
    reductions the source relies on (sum, mean, mean square, population
    variance, median), and the bounded-deque operations behind Python's
    `collections.deque(maxlen=...)`. */
module Seqs {

  /** `np.sum`: sum of the elements, added from the front. */
  function Sum(s: seq<real>): real
    decreases |s|
  {
    if |s| == 0 then 0.0 else Sum(s[..|s| - 1]) + s[|s| - 1]
  }

  /** Sum of squares, `np.sum(x ** 2)`. */
  function SumSq(s: seq<real>): (r: real)
    ensures r >= 0.0
    decreases |s|
  {
    if |s| == 0 then 0.0 else SumSq(s[..|s| - 1]) + s[|s| - 1] * s[|s| - 1]
  }

  /** `np.mean` of a non-empty array. */
  function Mean(s: seq<real>): real
    requires |s| > 0
  {
    Sum(s) / (|s| as real)
  }

  /** `np.mean(x ** 2)`: the mean-square power of a non-empty signal. */
  function MeanSquare(s: seq<real>): (r: real)
    requires |s| > 0
    ensures r >= 0.0
  {
    SumSq(s) / (|s| as real)
  }

  /** Every element shifted by `-c` (`x - c` on an array). */
  function Shift(s: seq<real>, c: real): (r: seq<real>)
    ensures |r| == |s|
    ensures forall i :: 0 <= i < |s| ==> r[i] == s[i] - c
  {
    seq(|s|, i requires 0 <= i < |s| => s[i] - c)
  }

  /** `np.var`: population variance (divides by n). */
  function Variance(s: seq<real>): (r: real)
    requires |s| > 0
    ensures r >= 0.0
  {
    MeanSquare(Shift(s, Mean(s)))
  }

  predicate AllNonNegative(s: seq<real>) {
    forall i :: 0 <= i < |s| ==> 0.0 <= s[i]
  }

  predicate AllBetween(s: seq<real>, lo: real, hi: real) {
    forall i :: 0 <= i < |s| ==> lo <= s[i] <= hi
  }

  lemma {:induction false} SumAppend(a: seq<real>, b: seq<real>)
    ensures Sum(a + b) == Sum(a) + Sum(b)
    decreases |b|
  {
    if |b| == 0 {
      assert a + b == a;
    } else {
      var b' := b[..|b| - 1];
      assert (a + b)[..|a + b| - 1] == a + b';
      SumAppend(a, b');
    }
  }

  /** Subtracting a constant from every element lowers the sum by n times it. */
  lemma {:induction false} SumShift(s: seq<real>, c: real)
    ensures Sum(Shift(s, c)) == Sum(s) - (|s| as real) * c
    decreases |s|
  {
    if |s| > 0 {
      var p := s[..|s| - 1];
      var t := Shift(s, c);
      assert t[..|s| - 1] == Shift(p, c);
      assert Sum(t) == Sum(Shift(p, c)) + (s[|s| - 1] - c);
      SumShift(p, c);
      assert Sum(s) == Sum(p) + s[|s| - 1];
      assert (|s| as real) * c == ((|s| - 1) as real) * c + c;
    }
  }

  /** A mean-centred signal has mean zero (the DC removal of `preprocess_signal`). */
  lemma CenteredMeanIsZero(s: seq<real>)
    requires |s| > 0
    ensures Mean(Shift(s, Mean(s))) == 0.0
  {
    SumShift(s, Mean(s));
    assert Sum(s) - (|s| as real) * Mean(s) == 0.0;
  }

  lemma {:induction false} SumNonNegative(s: seq<real>)
    requires AllNonNegative(s)
    ensures Sum(s) >= 0.0
    decreases |s|
  {
    if |s| > 0 {
      SumNonNegative(s[..|s| - 1]);
    }
  }

  /** An all-zero sequence has no energy. */
  lemma {:induction false} ZerosSumSq(s: seq<real>)
    requires forall i :: 0 <= i < |s| ==> s[i] == 0.0
    ensures SumSq(s) == 0.0
    decreases |s|
  {
    if |s| > 0 {
      ZerosSumSq(s[..|s| - 1]);
    }
  }

  /** A sum over a prefix of a non-negative sequence never exceeds a longer prefix. */
  lemma {:induction false} PrefixSumMonotone(s: seq<real>, i: nat, j: nat)
    requires AllNonNegative(s)
    requires i <= j <= |s|
    ensures Sum(s[..i]) <= Sum(s[..j])
    decreases j - i
  {
    if i < j {
      PrefixSumMonotone(s, i, j - 1);
      assert s[..j][..j - 1] == s[..j - 1];
    }
  }

  // ---------------------------------------------------------------------
  // Bounded deques (`collections.deque(maxlen=cap)`), oldest element first.

  /** `deque.extend(xs)` on a deque of capacity `cap`: the oldest elements are
      evicted until at most `cap` remain. */
  function DequeExtend<T>(d: seq<T>, xs: seq<T>, cap: nat): (r: seq<T>)
    ensures |r| == if |d| + |xs| <= cap then |d| + |xs| else cap
    ensures |d| + |xs| <= cap ==> r == d + xs
    ensures forall i :: 0 <= i < |r| ==> r[i] == (d + xs)[|d| + |xs| - |r| + i]
  {
    var t := d + xs;
    if |t| <= cap then t else t[|t| - cap..]
  }

  /** `deque.append(x)` on a deque of capacity `cap`. */
  function DequeAppend<T>(d: seq<T>, x: T, cap: nat): (r: seq<T>)
    requires |d| <= cap
    ensures |r| == if |d| < cap then |d| + 1 else cap
    ensures cap > 0 ==> r[|r| - 1] == x
    ensures |d| < cap ==> r == d + [x]
    ensures |d| == cap && cap > 0 ==> r == d[1..] + [x]
  {
    DequeExtend(d, [x], cap)
  }

  /** `for _ in range(n): if len(d) > 0: d.popleft()`. */
  function DropFront<T>(d: seq<T>, n: int): (r: seq<T>)
    ensures n <= 0 ==> r == d
    ensures |r| == if n <= 0 then |d| else if n >= |d| then 0 else |d| - n
    ensures forall i :: 0 <= i < |r| ==> r[i] == d[|d| - |r| + i]
  {
    if n <= 0 then d else if n >= |d| then [] else d[n..]
  }

  /** Python's `lst[-n:]`: the last `n` elements, or the whole list when
      `n` is zero or at least its length. */
  function PyTail<T>(d: seq<T>, n: nat): (r: seq<T>)
    ensures 0 < n <= |d| ==> |r| == n
    ensures (n == 0 || n >= |d|) ==> r == d
    ensures forall i :: 0 <= i < |r| ==> r[i] == d[|d| - |r| + i]
  {
    if n == 0 || n >= |d| then d else d[|d| - n..]
  }

  // ---------------------------------------------------------------------
  // Sorting and `np.median`.

  predicate Sorted(s: seq<real>) {
    forall i, j :: 0 <= i < j < |s| ==> s[i] <= s[j]
  }

  /** Insertion of `x` into a sorted list at its place. */
  function Insert(x: real, s: seq<real>): (r: seq<real>)
    requires Sorted(s)
    ensures Sorted(r)
    ensures |r| == |s| + 1
    ensures forall j :: 0 <= j < |r| ==> r[j] == x || r[j] in s
  {
    if |s| == 0 then [x]
    else if x <= s[0] then [x] + s
    else
      var t := Insert(x, s[1..]);
      assert forall j :: 0 <= j < |t| ==> s[0] <= t[j];
      [s[0]] + t
  }

  /** Insertion adds exactly one occurrence of `x`. */
  lemma {:induction false} InsertPermutes(x: real, s: seq<real>)
    requires Sorted(s)
    ensures multiset(Insert(x, s)) == multiset(s) + multiset{x}
    decreases |s|
  {
    if |s| > 0 && x > s[0] {
      InsertPermutes(x, s[1..]);
      assert s == [s[0]] + s[1..];
    }
  }

  /** Insertion sort: a sorted permutation of the input. */
  function Sort(s: seq<real>): (r: seq<real>)
    ensures Sorted(r)
    ensures multiset(r) == multiset(s)
    ensures |r| == |s|
  {
    if |s| == 0 then []
    else
      assert s == [s[0]] + s[1..];
      InsertPermutes(s[0], Sort(s[1..]));
      Insert(s[0], Sort(s[1..]))
  }

  /** `np.median`: the middle element of the sorted list, or the mean of the
      two middle elements when the length is even. */
  function Median(s: seq<real>): real
    requires |s| > 0
  {
    var t := Sort(s);
    var h := |t| / 2;
    if |t| % 2 == 1 then t[h] else (t[h - 1] + t[h]) / 2.0
  }

  /** The median lies within any bounds that hold for every element. */
  lemma MedianWithin(s: seq<real>, lo: real, hi: real)
    requires |s| > 0
    requires AllBetween(s, lo, hi)
    ensures lo <= Median(s) <= hi
  {
    var t := Sort(s);
    forall j | 0 <= j < |t|
      ensures lo <= t[j] <= hi
    {
      assert t[j] in multiset(t);
      assert t[j] in multiset(s);
      var i :| 0 <= i < |s| && s[i] == t[j];
    }
  }

  /** The median is at least the least element and at most the greatest. */
  lemma MedianBetweenMembers(s: seq<real>)
    requires |s| > 0
    ensures exists i :: 0 <= i < |s| && s[i] <= Median(s)
    ensures exists i :: 0 <= i < |s| && Median(s) <= s[i]
  {
    var t := Sort(s);
    var h := |t| / 2;
    var a := if |t| % 2 == 1 then h else h - 1;
    assert t[a] <= Median(s) <= t[h];
    assert t[a] in multiset(s) by { assert t[a] in multiset(t); }
    assert t[h] in multiset(s) by { assert t[h] in multiset(t); }
    var i :| 0 <= i < |s| && s[i] == t[a];
    var k :| 0 <= k < |s| && s[k] == t[h];
  }
  // ---------------------------------------------------------------------
  // Extremes (`np.max`, `np.min`, `np.argmax`).

  function MaxOf(s: seq<real>): (m: real)
    requires |s| > 0
    ensures m in s
    ensures forall i :: 0 <= i < |s| ==> s[i] <= m
    decreases |s|
  {
    if |s| == 1 then s[0]
    else
      var m := MaxOf(s[..|s| - 1]);
      if s[|s| - 1] > m then s[|s| - 1] else m
  }

  function MinOf(s: seq<real>): (m: real)
    requires |s| > 0
    ensures m in s
    ensures forall i :: 0 <= i < |s| ==> m <= s[i]
    decreases |s|
  {
    if |s| == 1 then s[0]
    else
      var m := MinOf(s[..|s| - 1]);
      if s[|s| - 1] < m then s[|s| - 1] else m
  }

  /** `np.argmax`: the index of the FIRST greatest element. */
  function ArgMax(s: seq<real>): (k: nat)
    requires |s| > 0
    ensures k < |s|
    ensures forall i :: 0 <= i < |s| ==> s[i] <= s[k]
    ensures forall i :: 0 <= i < k ==> s[i] < s[k]
    decreases |s|
  {
    if |s| == 1 then 0
    else
      var k := ArgMax(s[..|s| - 1]);
      if s[|s| - 1] > s[k] then |s| - 1 else k
  }

  /** Comparing a quotient with a bound is comparing the numerator with the
      bound scaled by the (positive) denominator. */
  lemma RatioAbove(n: real, d: real, t: real)
    requires d > 0.0
    ensures n / d > t <==> n > t * d
  {
    var q := n / d;
    assert q * d == n;
    if q > t {
      assert (q - t) * d > 0.0;
    } else {
      assert (t - q) * d >= 0.0;
    }
  }

  lemma RatioBelow(n: real, d: real, t: real)
    requires d > 0.0
    ensures n / d < t <==> n < t * d
  {
    var q := n / d;
    assert q * d == n;
    if q < t {
      assert (t - q) * d > 0.0;
    } else {
      assert (q - t) * d >= 0.0;
    }
  }

  /** Python's two-argument `min` and `max` on floats. */
  function MinReal(a: real, b: real): (r: real)
    ensures r <= a && r <= b && (r == a || r == b)
  {
    if a <= b then a else b
  }

  function MaxReal(a: real, b: real): (r: real)
    ensures r >= a && r >= b && (r == a || r == b)
  {
    if a >= b then a else b
  }

  /** `np.clip(v, lo, hi)` on a scalar. */
  function Clamp(v: real, lo: real, hi: real): (r: real)
    ensures lo <= hi ==> lo <= r <= hi
    ensures lo <= v <= hi ==> r == v
  {
    MinReal(MaxReal(v, lo), hi)
  }

  function Abs(v: real): (r: real)
    ensures r >= 0.0 && (r == v || r == -v)
  {
    if v < 0.0 then -v else v
  }

  /** `np.abs` applied elementwise. */
  function AbsAll(s: seq<real>): (r: seq<real>)
    ensures |r| == |s| && forall i :: 0 <= i < |s| ==> r[i] == Abs(s[i])
  {
    seq(|s|, i requires 0 <= i < |s| => Abs(s[i]))
  }
}
