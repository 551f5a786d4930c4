/**
  The data helpers of lib/Utility.cpp: one-hot encoding of integer labels
  and the proportional split of a data set into windows of a shuffled row
  order.  `size_t` arithmetic is modelled modulo 2^64.
*/
module Utility {
  import opened Matrices

  // ---------------------------------------------------------------- one-hot

  /**
    The matrix oneHotEncode returns: numClasses x |labels|, with column i
    holding a 1 at row labels[i] when that row exists, and 0 elsewhere.
  */
  function OneHot(labels: seq<int>, numClasses: nat): (m: Matrix)
    ensures HasShape(m, numClasses, |labels|)
  {
    Build(numClasses, |labels|, (r, i) => if 0 <= i < |labels| && labels[i] == r then 1.0 else 0.0)
  }

  /**
    oneHotEncode: a zero matrix, then one write per in-range label.  The
    labels are already the `int`s the source truncates them to; the class
    count is a `nat` because Eigen's Zero asserts a non-negative size.
  */
  method OneHotEncode(labels: seq<int>, numClasses: nat) returns (oneHot: Matrix)
    ensures oneHot == OneHot(labels, numClasses)
  {
    oneHot := Zero(numClasses, |labels|);
    var i := 0;
    while i < |labels|
      invariant 0 <= i <= |labels|
      invariant HasShape(oneHot, numClasses, |labels|)
      invariant forall r, c :: 0 <= r < numClasses && 0 <= c < |labels| ==>
                  At(oneHot, r, c) == if c < i && labels[c] == r then 1.0 else 0.0
    {
      var y := labels[i];
      if y >= 0 && y < numClasses {
        oneHot := SetEntry(oneHot, y, i, 1.0);
      }
      i := i + 1;
    }
    Extensionality(oneHot, OneHot(labels, numClasses));
  }

  /** A vector with one 1 and 0 everywhere else sums to 1. */
  lemma {:induction false} IndicatorSum(v: Vector, p: nat)
    requires p < |v| && v[p] == 1.0
    requires forall k :: 0 <= k < |v| && k != p ==> v[k] == 0.0
    ensures Sum(v) == 1.0
    decreases |v|
  {
    var init := v[..|v| - 1];
    if p < |v| - 1 {
      IndicatorSum(init, p);
    } else {
      ZeroSum(init);
    }
  }

  lemma {:induction false} ZeroSum(v: Vector)
    requires forall k :: 0 <= k < |v| ==> v[k] == 0.0
    ensures Sum(v) == 0.0
    decreases |v|
  {
    if |v| > 0 {
      ZeroSum(v[..|v| - 1]);
    }
  }

  /** An in-range label's column is 1 at that label's row and 0 elsewhere, so it sums to 1. */
  lemma OneHotInRange(labels: seq<int>, numClasses: nat, i: nat)
    requires i < |labels| && 0 <= labels[i] < numClasses
    ensures At(OneHot(labels, numClasses), labels[i], i) == 1.0
    ensures forall r :: 0 <= r < numClasses && r != labels[i] ==> At(OneHot(labels, numClasses), r, i) == 0.0
    ensures Sum(Column(OneHot(labels, numClasses), i)) == 1.0
  {
    IndicatorSum(Column(OneHot(labels, numClasses), i), labels[i]);
  }

  /** A negative label, or one of numClasses or more, gives an all-zero column. */
  lemma OneHotOutOfRange(labels: seq<int>, numClasses: nat, i: nat)
    requires i < |labels| && (labels[i] < 0 || labels[i] >= numClasses)
    ensures forall r :: 0 <= r < numClasses ==> At(OneHot(labels, numClasses), r, i) == 0.0
    ensures Sum(Column(OneHot(labels, numClasses), i)) == 0.0
  {
    ZeroSum(Column(OneHot(labels, numClasses), i));
  }

  /** `target.maxCoeff()` over integer labels. */
  function MaxLabel(labels: seq<int>): (m: int)
    requires |labels| > 0
    ensures forall i :: 0 <= i < |labels| ==> labels[i] <= m
    ensures exists i :: 0 <= i < |labels| && labels[i] == m
  {
    if |labels| == 1 then labels[0]
    else
      var r := MaxLabel(labels[..|labels| - 1]);
      if labels[|labels| - 1] > r then labels[|labels| - 1] else r
  }

  /** At the width train uses, MaxLabel + 1, every non-negative label is in range, so its column sums to 1. */
  lemma OneHotWidthCoversLabels(labels: seq<int>, i: nat)
    requires |labels| > 0 && MaxLabel(labels) >= -1 && i < |labels| && labels[i] >= 0
    ensures Sum(Column(OneHot(labels, MaxLabel(labels) + 1), i)) == 1.0
  {
    OneHotInRange(labels, MaxLabel(labels) + 1, i);
  }

  // ------------------------------------------------------------------ split

  const SizeModulus: int := 0x1_0000_0000_0000_0000

  /** static_cast<size_t>(p * n) is defined: the product truncates to a representable size. */
  predicate SizeFits(p: real, n: nat) {
    -1.0 < p * (n as real) < SizeModulus as real
  }

  /** static_cast<size_t>(p * n): truncation toward zero. */
  function RawSize(p: real, n: nat): (s: nat)
    requires SizeFits(p, n)
    ensures s < SizeModulus
    ensures (s as real) <= p * (n as real) < (s as real) + 1.0 || (s == 0 && p * (n as real) < 1.0)
  {
    if p * (n as real) < 1.0 then 0 else (p * (n as real)).Floor
  }

  predicate AllFit(proportions: seq<real>, n: nat) {
    forall k :: 0 <= k < |proportions| ==> SizeFits(proportions[k], n)
  }

  /** The sizes before the remainder is added. */
  function RawSizes(proportions: seq<real>, n: nat): (s: seq<nat>)
    requires AllFit(proportions, n)
    ensures |s| == |proportions|
  {
    seq(|proportions|, k requires 0 <= k < |proportions| => RawSize(proportions[k], n))
  }

  function SumNat(s: seq<nat>): nat {
    if |s| == 0 then 0 else SumNat(s[..|s| - 1]) + s[|s| - 1]
  }

  /** The same sum accumulated in a size_t. */
  function SumMod(s: seq<nat>): (t: nat)
    ensures t < SizeModulus
  {
    if |s| == 0 then 0 else (SumMod(s[..|s| - 1]) + s[|s| - 1]) % SizeModulus
  }

  /** The final sizes: the raw sizes with `n - total` added to the last, in size_t arithmetic. */
  function SplitSizes(proportions: seq<real>, n: nat): (s: seq<nat>)
    requires AllFit(proportions, n)
    ensures |s| == |proportions|
  {
    var raw := RawSizes(proportions, n);
    if |raw| == 0 then [] else raw[|raw| - 1 := LastSize(raw[|raw| - 1], SumMod(raw), n)]
  }

  /** `sizes.back() += n - total` in size_t arithmetic. */
  function LastSize(last: nat, total: nat, n: nat): (s: nat)
    ensures s < SizeModulus
  {
    (last + (n - total) % SizeModulus) % SizeModulus
  }

  /**
    What splitXY needs for its windows to stay inside the data: every
    product converts to a size, and the sizes before the last fit in n (else
    `n - total` wraps and the last window runs past the rows).
  */
  predicate SplitDefined(proportions: seq<real>, n: nat) {
    n < SizeModulus && AllFit(proportions, n) &&
    (|proportions| > 0 ==> SumNat(RawSizes(proportions, n)[..|proportions| - 1]) <= n)
  }

  lemma {:induction false} SumModExact(s: seq<nat>)
    requires SumNat(s) < SizeModulus
    ensures SumMod(s) == SumNat(s)
    decreases |s|
  {
    if |s| > 0 {
      SumModExact(s[..|s| - 1]);
    }
  }

  /** When the earlier sizes s fit in n, the wrapped total (s + r) mod 2^64 still leaves the last size n - s. */
  lemma WrapAround(s: nat, r: nat, n: nat)
    requires s <= n < SizeModulus && r < SizeModulus
    ensures LastSize(r, (s + r) % SizeModulus, n) == n - s
  {
    var t := (s + r) % SizeModulus;
    var q := (s + r) / SizeModulus;
    assert s + r == q * SizeModulus + t;
    assert q == 0 || q == 1;
  }

  /** The last size is what the earlier ones leave of n. */
  lemma SplitSizesLast(proportions: seq<real>, n: nat)
    requires SplitDefined(proportions, n) && |proportions| > 0
    ensures SplitSizes(proportions, n)[|proportions| - 1] == n - SumNat(RawSizes(proportions, n)[..|proportions| - 1])
  {
    var raw := RawSizes(proportions, n);
    var last := |raw| - 1;
    var init := raw[..last];
    SumModExact(init);
    var s, r := SumNat(init), raw[last];
    assert SumMod(raw) == (s + r) % SizeModulus;
    WrapAround(s, r, n);
  }

  /**
    Every size but the last is floor(p_k * n), and the sizes add up to n:
    the remainder lands on the last split.
  */
  lemma SplitSizesCover(proportions: seq<real>, n: nat)
    requires SplitDefined(proportions, n) && |proportions| > 0
    ensures SumNat(SplitSizes(proportions, n)) == n
    ensures forall k :: 0 <= k < |proportions| - 1 ==> SplitSizes(proportions, n)[k] == RawSize(proportions[k], n)
  {
    var raw := RawSizes(proportions, n);
    var last := |raw| - 1;
    var sizes := SplitSizes(proportions, n);
    SplitSizesLast(proportions, n);
    assert sizes[..last] == raw[..last];
  }

  /** Split k starts after the earlier ones: the sum of the sizes before it. */
  function Start(sizes: seq<nat>, k: nat): nat
    requires k <= |sizes|
  {
    SumNat(sizes[..k])
  }

  lemma StartStep(sizes: seq<nat>, k: nat)
    requires k < |sizes|
    ensures Start(sizes, k + 1) == Start(sizes, k) + sizes[k]
  {
    assert sizes[..k + 1][..k] == sizes[..k];
  }

  lemma {:induction false} StartMonotone(sizes: seq<nat>, j: nat, k: nat)
    requires j <= k <= |sizes|
    ensures Start(sizes, j) <= Start(sizes, k)
    decreases k - j
  {
    if j < k {
      StartStep(sizes, j);
      StartMonotone(sizes, j + 1, k);
    }
  }

  /** Every window lies inside the rows the sizes add up to. */
  lemma WindowInside(sizes: seq<nat>, k: nat)
    requires k < |sizes|
    ensures Start(sizes, k) + sizes[k] <= SumNat(sizes)
  {
    StartStep(sizes, k);
    StartMonotone(sizes, k + 1, |sizes|);
    assert sizes[..|sizes|] == sizes;
  }

  /** Each position below the total falls in some window. */
  lemma {:induction false} LocateWindow(sizes: seq<nat>, p: nat)
    requires p < SumNat(sizes)
    ensures exists k :: 0 <= k < |sizes| && Start(sizes, k) <= p < Start(sizes, k) + sizes[k]
    decreases |sizes|
  {
    var last := |sizes| - 1;
    var init := sizes[..last];
    if p >= SumNat(init) {
      assert Start(sizes, last) <= p < Start(sizes, last) + sizes[last];
    } else {
      LocateWindow(init, p);
      var k :| 0 <= k < |init| && Start(init, k) <= p < Start(init, k) + init[k];
      assert init[..k] == sizes[..k];
      assert Start(sizes, k) <= p < Start(sizes, k) + sizes[k];
    }
  }

  /** Windows do not overlap. */
  lemma WindowsDisjoint(sizes: seq<nat>, k1: nat, r1: nat, k2: nat, r2: nat)
    requires k1 < |sizes| && r1 < sizes[k1] && k2 < |sizes| && r2 < sizes[k2]
    requires Start(sizes, k1) + r1 == Start(sizes, k2) + r2
    ensures k1 == k2 && r1 == r2
  {
    if k1 < k2 {
      StartStep(sizes, k1);
      StartMonotone(sizes, k1 + 1, k2);
    } else if k2 < k1 {
      StartStep(sizes, k2);
      StartMonotone(sizes, k2 + 1, k1);
    }
  }

  /** The position in the shuffled order of row r of split k. */
  function Place(sizes: seq<nat>, k: nat, r: nat): nat
    requires k <= |sizes|
  {
    Start(sizes, k) + r
  }

  /**
    Windows of sizes adding up to n over a permutation of the rows take
    every row exactly once.
  */
  lemma EveryRowInOneWindow(sizes: seq<nat>, order: seq<nat>, n: nat, row: nat)
    requires SumNat(sizes) == n && IsPermutation(order, n) && row < n
    ensures exists k, r :: 0 <= k < |sizes| && 0 <= r < sizes[k] && Place(sizes, k, r) < n && order[Place(sizes, k, r)] == row
    ensures forall k1, r1, k2, r2 ::
              0 <= k1 < |sizes| && 0 <= r1 < sizes[k1] && Place(sizes, k1, r1) < n && order[Place(sizes, k1, r1)] == row &&
              0 <= k2 < |sizes| && 0 <= r2 < sizes[k2] && Place(sizes, k2, r2) < n && order[Place(sizes, k2, r2)] == row
              ==> k1 == k2 && r1 == r2
  {
    assert row in order;
    var p :| 0 <= p < n && order[p] == row;
    LocateWindow(sizes, p);
    var k :| 0 <= k < |sizes| && Start(sizes, k) <= p < Start(sizes, k) + sizes[k];
    assert order[Place(sizes, k, p - Start(sizes, k))] == row;
    forall k1, r1, k2, r2 |
      0 <= k1 < |sizes| && 0 <= r1 < sizes[k1] && Place(sizes, k1, r1) < n && order[Place(sizes, k1, r1)] == row &&
      0 <= k2 < |sizes| && 0 <= r2 < sizes[k2] && Place(sizes, k2, r2) < n && order[Place(sizes, k2, r2)] == row
      ensures k1 == k2 && r1 == r2
    {
      var a := Place(sizes, k1, r1);
      var b := Place(sizes, k2, r2);
      assert a == b;
      WindowsDisjoint(sizes, k1, r1, k2, r2);
    }
  }

  /** One part of the split: its rows of X and the matching entries of Y. */
  datatype Split = Split(X: Matrix, Y: Vector)

  /** s holds, in order, rows order[start .. start + size) of X and the same entries of Y. */
  predicate Window(s: Split, X: Matrix, Y: Vector, order: seq<nat>, start: nat, size: nat) {
    HasShape(s.X, size, X.cols) && |s.Y| == size && start + size <= |order| &&
    forall r :: 0 <= r < size ==>
      order[start + r] < |X.e| && order[start + r] < |Y| &&
      s.X.e[r] == X.e[order[start + r]] && s.Y[r] == Y[order[start + r]]
  }

  /** Appending to the sizes adds to the size_t total. */
  lemma SumModPush(s: seq<nat>, x: nat)
    ensures SumMod(s + [x]) == (SumMod(s) + x) % SizeModulus
  {
    assert (s + [x])[..|s|] == s;
  }

  /** Patching the last raw size with the size_t total gives the final sizes. */
  lemma PatchLast(proportions: seq<real>, n: nat, raw: seq<nat>, total: nat)
    requires AllFit(proportions, n) && raw == RawSizes(proportions, n) && total == SumMod(raw)
    ensures SplitSizes(proportions, n) ==
              if |raw| == 0 then raw else raw[|raw| - 1 := (raw[|raw| - 1] + (n - total) % SizeModulus) % SizeModulus]
  {
  }

  /** The sizes loop of splitXY and the patch of the last size, in size_t arithmetic. */
  method ComputeSizes(proportions: seq<real>, nRows: nat) returns (sizes: seq<nat>)
    requires AllFit(proportions, nRows)
    ensures sizes == SplitSizes(proportions, nRows)
  {
    sizes := [];
    var total := 0;
    var i := 0;
    while i < |proportions|
      invariant 0 <= i <= |proportions| && |sizes| == i
      invariant forall k :: 0 <= k < i ==> sizes[k] == RawSize(proportions[k], nRows)
      invariant total == SumMod(sizes)
    {
      var sz := RawSize(proportions[i], nRows);
      SumModPush(sizes, sz);
      sizes := sizes + [sz];
      total := (total + sz) % SizeModulus;
      i := i + 1;
    }
    assert sizes == RawSizes(proportions, nRows);
    PatchLast(proportions, nRows, sizes, total);
    if |sizes| > 0 {
      sizes := sizes[|sizes| - 1 := (sizes[|sizes| - 1] + (nRows - total) % SizeModulus) % SizeModulus];
    }
  }

  /** The row-copy loop of splitXY: rows indices[start .. start + sz) of X and the same entries of Y. */
  method CopyWindow(X: Matrix, Y: Vector, indices: seq<nat>, start: nat, sz: nat) returns (split: Split)
    requires WellFormed(X) && start + sz <= |indices|
    requires forall t :: 0 <= t < |indices| ==> indices[t] < X.rows && indices[t] < |Y|
    ensures Window(split, X, Y, indices, start, sz)
  {
    var xSplit := Zero(sz, X.cols);
    var ySplit: Vector := seq(sz, _ => 0.0);
    var i := 0;
    while i < sz
      invariant 0 <= i <= sz
      invariant HasShape(xSplit, sz, X.cols) && |ySplit| == sz
      invariant forall t :: 0 <= t < i ==> xSplit.e[t] == X.e[indices[start + t]] && ySplit[t] == Y[indices[start + t]]
    {
      xSplit := SetRow(xSplit, i, X.e[indices[start + i]]);
      ySplit := ySplit[i := Y[indices[start + i]]];
      i := i + 1;
    }
    split := Split(xSplit, ySplit);
  }

  /**
    splitXY with the outcome of the shuffle passed in as `order`: the index
    vector 0 .. n-1 after std::shuffle.  Split k holds, in order, rows
    order[Start_k], ..., order[Start_k + size_k - 1] of X and the same
    entries of Y.
  */
  method SplitXY(X: Matrix, Y: Vector, proportions: seq<real>, order: seq<nat>) returns (splits: seq<Split>)
    requires WellFormed(X) && X.rows <= |Y|
    requires IsPermutation(order, X.rows)
    requires SplitDefined(proportions, X.rows)
    ensures |splits| == |proportions|
    ensures forall k :: 0 <= k < |splits| ==>
              Window(splits[k], X, Y, order, Start(SplitSizes(proportions, X.rows), k), SplitSizes(proportions, X.rows)[k])
  {
    var nRows := X.rows;
    var indices := order;
    var sizes := ComputeSizes(proportions, nRows);
    if |sizes| > 0 {
      SplitSizesCover(proportions, nRows);
    }
    assert forall t :: 0 <= t < |indices| ==> indices[t] < X.rows && indices[t] < |Y|;
    splits := [];
    var start := 0;
    var k := 0;
    while k < |sizes|
      invariant 0 <= k <= |sizes| && |splits| == k
      invariant start == Start(sizes, k)
      invariant forall j :: 0 <= j < k ==> Window(splits[j], X, Y, indices, Start(sizes, j), sizes[j])
    {
      var sz := sizes[k];
      WindowInside(sizes, k);
      var split := CopyWindow(X, Y, indices, start, sz);
      splits := splits + [split];
      StartStep(sizes, k);
      start := start + sz;
      k := k + 1;
    }
  }

  /** Rounding down leaves a remainder, which the last split takes: 10 rows at a third each give 3, 3, 4. */
  lemma SplitThirds()
    ensures SplitSizes([0.33, 0.33, 0.33], 10) == [3, 3, 4]
  {
    var raw := RawSizes([0.33, 0.33, 0.33], 10);
    assert raw == [3, 3, 3];
    assert SumMod([3]) == 3 by { assert [3][..0] == []; }
    assert SumMod([3, 3]) == 6 by { assert [3, 3][..1] == [3]; }
    assert SumMod([3, 3, 3]) == 9 by { assert [3, 3, 3][..2] == [3, 3]; }
  }

  /** Exact halves split 10 rows 5 and 5. */
  lemma SplitHalves()
    ensures SplitSizes([0.5, 0.5], 10) == [5, 5]
  {
    var raw := RawSizes([0.5, 0.5], 10);
    assert raw == [5, 5];
    assert SumMod([5]) == 5 by { assert [5][..0] == []; }
    assert SumMod([5, 5]) == 10 by { assert [5, 5][..1] == [5]; }
  }
}
