/**
 * Sums, prefix sums and a key-ordered sort over sequences of reals: the numpy building blocks
 * (`np.sum`, `np.cumsum`, `np.argsort`, `np.sort`) in exact real arithmetic.
 */
module Numeric {

  /** `np.sum`, accumulated from the left as `np.cumsum` does. */
  function Sum(s: seq<real>): real {
    if s == [] then 0.0 else Sum(s[..|s| - 1]) + s[|s| - 1]
  }

  predicate AllAtLeast(s: seq<real>, c: real) {
    forall i :: 0 <= i < |s| ==> s[i] >= c
  }

  predicate AllAtMost(s: seq<real>, c: real) {
    forall i :: 0 <= i < |s| ==> s[i] <= c
  }

  /** Extending a prefix by one element adds that element to its sum. */
  lemma SumPrefixStep(s: seq<real>, j: nat)
    requires j < |s|
    ensures Sum(s[..j + 1]) == Sum(s[..j]) + s[j]
  {
    assert s[..j + 1][..j] == s[..j];
  }

  lemma SumWhole(s: seq<real>)
    ensures Sum(s[..|s|]) == Sum(s)
  {
    assert s[..|s|] == s;
  }

  /** A sum of values in [lo, hi] lies in [|s|·lo, |s|·hi]. */
  lemma SumBounds(s: seq<real>, lo: real, hi: real)
    requires AllAtLeast(s, lo) && AllAtMost(s, hi)
    ensures |s| as real * lo <= Sum(s) <= |s| as real * hi
  {
    SumLowerBound(s, lo);
    SumUpperBound(s, hi);
  }

  lemma {:induction false} SumLowerBound(s: seq<real>, lo: real)
    requires AllAtLeast(s, lo)
    ensures Sum(s) >= |s| as real * lo
  {
    if s != [] {
      var n := |s| - 1;
      SumLowerBound(s[..n], lo);
      assert |s| as real * lo == n as real * lo + lo;
    }
  }

  lemma {:induction false} SumUpperBound(s: seq<real>, hi: real)
    requires AllAtMost(s, hi)
    ensures Sum(s) <= |s| as real * hi
  {
    if s != [] {
      var n := |s| - 1;
      SumUpperBound(s[..n], hi);
      assert |s| as real * hi == n as real * hi + hi;
    }
  }

  /** Prefix sums of non-negative values never decrease. */
  lemma {:induction false} PrefixSumMonotone(s: seq<real>, i: nat, j: nat)
    requires AllAtLeast(s, 0.0)
    requires i <= j <= |s|
    ensures Sum(s[..i]) <= Sum(s[..j])
  {
    if i < j {
      PrefixSumMonotone(s, i, j - 1);
      SumPrefixStep(s, j - 1);
    }
  }

  lemma {:induction false} SumConcat(a: seq<real>, b: seq<real>)
    ensures Sum(a + b) == Sum(a) + Sum(b)
  {
    if b != [] {
      assert (a + b)[..|a + b| - 1] == a + b[..|b| - 1];
      SumConcat(a, b[..|b| - 1]);
    } else {
      assert a + b == a;
    }
  }

  /** A sum of non-negative values is at least each of them. */
  lemma {:induction false} SumAtLeastElement(s: seq<real>, i: nat)
    requires AllAtLeast(s, 0.0) && i < |s|
    ensures Sum(s) >= s[i]
  {
    var n := |s| - 1;
    if i < n {
      SumAtLeastElement(s[..n], i);
    } else {
      SumLowerBound(s[..n], 0.0);
    }
  }

  /** `n` copies of `c`. */
  function Constant(n: nat, c: real): (s: seq<real>)
    ensures |s| == n && AllAtLeast(s, c) && AllAtMost(s, c)
  {
    seq(n, i => c)
  }

  lemma SumConstant(n: nat, c: real)
    ensures Sum(Constant(n, c)) == n as real * c
  {
    SumBounds(Constant(n, c), c, c);
  }

  /** Element-wise product, as numpy's `a * w`. */
  function Products(a: seq<real>, w: seq<real>): (r: seq<real>)
    requires |a| == |w|
    ensures |r| == |a| && forall i :: 0 <= i < |a| ==> r[i] == a[i] * w[i]
  {
    seq(|a|, i requires 0 <= i < |a| => a[i] * w[i])
  }

  /** Multiplying by all-ones weights changes nothing. */
  lemma ProductsWithOnes(a: seq<real>)
    ensures Products(a, Constant(|a|, 1.0)) == a
  {
  }

  /** Scaling distributes over a sum. */
  lemma {:induction false} SumScaled(a: seq<real>, w: seq<real>, c: real)
    requires |a| == |w|
    requires forall i :: 0 <= i < |a| ==> w[i] == c * a[i]
    ensures Sum(w) == c * Sum(a)
  {
    if a != [] {
      SumScaled(a[..|a| - 1], w[..|w| - 1], c);
    }
  }

  lemma MulMonotone(x: real, y: real, c: real)
    requires x <= y && c >= 0.0
    ensures x * c <= y * c
  {
    assert (y - x) * c >= 0.0;
  }

  lemma ProductsPrefix(a: seq<real>, w: seq<real>, n: nat)
    requires |a| == |w| && n <= |a|
    ensures Products(a, w)[..n] == Products(a[..n], w[..n])
  {
    assert forall i :: 0 <= i < n ==> Products(a, w)[..n][i] == Products(a[..n], w[..n])[i];
  }

  /** One step of a weighted sum: adding x·c with x >= lo keeps the sum at least lo times the weight. */
  lemma WeightedStepLower(sp: real, sw: real, x: real, c: real, lo: real, total: real, weight: real)
    requires sp >= lo * sw && x >= lo && c >= 0.0
    requires total == sp + x * c && weight == sw + c
    ensures total >= lo * weight
  {
    MulMonotone(lo, x, c);
  }

  lemma WeightedStepUpper(sp: real, sw: real, x: real, c: real, hi: real, total: real, weight: real)
    requires sp <= hi * sw && x <= hi && c >= 0.0
    requires total == sp + x * c && weight == sw + c
    ensures total <= hi * weight
  {
    MulMonotone(x, hi, c);
  }

  /** A weighted sum of values that are at least `lo`, with non-negative weights, is at least lo·Σw. */
  lemma {:induction false} WeightedSumLowerBound(a: seq<real>, w: seq<real>, lo: real)
    requires |a| == |w| && AllAtLeast(a, lo) && AllAtLeast(w, 0.0)
    ensures Sum(Products(a, w)) >= lo * Sum(w)
  {
    if a != [] {
      var n := |a| - 1;
      var p := Products(a, w);
      var sp, sw := Sum(p[..n]), Sum(w[..n]);
      assert sp >= lo * sw by {
        ProductsPrefix(a, w, n);
        WeightedSumLowerBound(a[..n], w[..n], lo);
      }
      var x, c := a[n], w[n];
      assert Sum(p) == sp + x * c by { assert p[n] == x * c; }
      assert Sum(w) == sw + c;
      WeightedStepLower(sp, sw, x, c, lo, Sum(p), Sum(w));
    }
  }

  lemma {:induction false} WeightedSumUpperBound(a: seq<real>, w: seq<real>, hi: real)
    requires |a| == |w| && AllAtMost(a, hi) && AllAtLeast(w, 0.0)
    ensures Sum(Products(a, w)) <= hi * Sum(w)
  {
    if a != [] {
      var n := |a| - 1;
      var p := Products(a, w);
      var sp, sw := Sum(p[..n]), Sum(w[..n]);
      assert sp <= hi * sw by {
        ProductsPrefix(a, w, n);
        WeightedSumUpperBound(a[..n], w[..n], hi);
      }
      var x, c := a[n], w[n];
      assert Sum(p) == sp + x * c by { assert p[n] == x * c; }
      assert Sum(w) == sw + c;
      WeightedStepUpper(sp, sw, x, c, hi, Sum(p), Sum(w));
    }
  }

  // ---------------------------------------------------------------------------
  // Sorting by a real-valued key.

  predicate SortedBy<T>(s: seq<T>, key: T -> real) {
    forall i, j :: 0 <= i < j < |s| ==> key(s[i]) <= key(s[j])
  }

  /** Inserts `x` before the first element of `s` whose key is not smaller than its own. */
  function InsertBy<T>(x: T, s: seq<T>, key: T -> real): (r: seq<T>)
    ensures |r| == |s| + 1
    ensures multiset(r) == multiset(s) + multiset{x}
    ensures r[0] == x || (|s| > 0 && r[0] == s[0])
  {
    if s == [] then [x]
    else if key(x) <= key(s[0]) then [x] + s
    else
      assert s == [s[0]] + s[1..];
      [s[0]] + InsertBy(x, s[1..], key)
  }

  /** Inserting into a key-sorted sequence keeps it key-sorted. */
  lemma {:induction false} InsertBySorted<T>(x: T, s: seq<T>, key: T -> real)
    requires SortedBy(s, key)
    ensures SortedBy(InsertBy(x, s, key), key)
  {
    if s != [] && key(x) > key(s[0]) {
      var rest := InsertBy(x, s[1..], key);
      InsertBySorted(x, s[1..], key);
      var r := [s[0]] + rest;
      assert key(s[0]) <= key(rest[0]);
      forall i, j | 0 <= i < j < |r| ensures key(r[i]) <= key(r[j]) {
        if i == 0 && j > 1 {
          assert key(rest[0]) <= key(rest[j - 1]);
        }
      }
    }
  }

  /** Insertion sort by key: a key-sorted permutation of `s`. */
  function SortBy<T>(s: seq<T>, key: T -> real): (r: seq<T>)
    ensures SortedBy(r, key)
    ensures multiset(r) == multiset(s)
    ensures |r| == |s|
  {
    if s == [] then []
    else
      assert s == [s[0]] + s[1..];
      var t := SortBy(s[1..], key);
      InsertBySorted(s[0], t, key);
      InsertBy(s[0], t, key)
  }

  function Identity(x: real): real {
    x
  }

  /** `np.sort`: the values in ascending order. */
  function Sorted(s: seq<real>): (r: seq<real>)
    ensures |r| == |s| && multiset(r) == multiset(s)
    ensures forall i, j :: 0 <= i < j < |r| ==> r[i] <= r[j]
  {
    var r := SortBy(s, Identity);
    assert forall i, j :: 0 <= i < j < |r| ==> Identity(r[i]) <= Identity(r[j]);
    r
  }

  /** Every element of a permutation of `s` lies within any bounds of `s`. */
  lemma PermutationBounds(s: seq<real>, r: seq<real>, lo: real, hi: real)
    requires multiset(r) == multiset(s)
    requires AllAtLeast(s, lo) && AllAtMost(s, hi)
    ensures AllAtLeast(r, lo) && AllAtMost(r, hi)
  {
    forall i | 0 <= i < |r| ensures lo <= r[i] <= hi {
      assert r[i] in multiset(r);
      assert r[i] in s;
    }
  }
}
