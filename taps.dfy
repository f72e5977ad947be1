/**
 * The inner loops of the staged convolution kernels. Each one walks a run of
 * filter taps against a row of `n` samples stored `stride` elements apart
 * (stride 1 for the contiguous kernels) and adds the products to a running
 * sum. Loops inside the row read it directly; loops past an edge produce the
 * extension on the fly by cycling a counter `k` over the row.
 */
module Taps {
  import opened Arith
  import opened Extension

  /**
   * Symmetric left edge: tap `j` reads the row forwards on even laps,
   * backwards on odd laps, and adds that sample to the running sum.
   */
  lemma LeftSymmetricStep(a: seq<real>, filter: seq<real>, i: nat, lo: nat, j: nat, base: nat, r: nat,
                          sum0: real, sum: real, v: real)
    requires |a| >= 1 && lo <= j < |filter| && Periods(base, 2 * |a|) && r < 2 * |a| && j - i - 1 == base + r
    requires v == a[if r < |a| then r else 2 * |a| - 1 - r] && sum == sum0 + TapSum(Symmetric, a, filter, i, lo, j)
    ensures sum + filter[j] * v == sum0 + TapSum(Symmetric, a, filter, i, lo, j + 1)
  {
    var n := |a|;
    ReflectShift(n, -(r + 1), base);
    assert Reflect(n, -(r + 1)) == Reflect(n, 2 * n - (r + 1));
  }

  /** Periodic left edge: tap `j` reads the row backwards from its last sample. */
  lemma LeftPeriodicStep(a: seq<real>, filter: seq<real>, i: nat, lo: nat, j: nat, base: nat, r: nat)
    requires |a| >= 1 && lo <= j < |filter| && Periods(base, |a|) && r < |a| && j - i - 1 == base + r
    ensures TapSum(Periodic, a, filter, i, lo, j + 1)
         == TapSum(Periodic, a, filter, i, lo, j) + filter[j] * a[|a| - 1 - r]
  {
    var n := |a|;
    WrapShift(n, -(r + 1), base);
    assert Wrap(n, -(r + 1)) == Wrap(n, n - (r + 1));
  }

  /**
   * Symmetric right edge: tap `t` reads the row backwards on even laps,
   * forwards on odd laps, and adds that sample to the running sum.
   */
  lemma RightSymmetricStep(a: seq<real>, filter: seq<real>, x: int, t: nat, hi: nat, base: nat, r: nat,
                           sum0: real, sum: real, v: real)
    requires |a| >= 1 && t < hi <= |filter| && Periods(base, 2 * |a|) && r < 2 * |a| && x - t - |a| == base + r
    requires v == a[if r < |a| then |a| - 1 - r else r - |a|] && sum == sum0 + TapSum(Symmetric, a, filter, x, t + 1, hi)
    ensures sum + filter[t] * v == sum0 + TapSum(Symmetric, a, filter, x, t, hi)
  {
    RightReflectAt(|a|, base, r);
    TapSumLow(Symmetric, a, filter, x, t, hi);
  }

  lemma RightReflectAt(n: nat, base: nat, r: nat)
    requires n >= 1 && Periods(base, 2 * n) && r < 2 * n
    ensures Reflect(n, n + base + r) == if r < n then n - 1 - r else r - n
  {
    ReflectShift(n, n + r, base);
    if n + r >= 2 * n {
      assert Reflect(n, n + r) == Reflect(n, r - n);
    }
  }

  /** Periodic extension at `x - t == base + r`, `base` whole periods, reads sample `r`. */
  lemma PeriodicStep(a: seq<real>, filter: seq<real>, x: int, t: nat, hi: nat, base: nat, r: nat)
    requires |a| >= 1 && t < hi <= |filter| && Periods(base, |a|) && r < |a| && x - t == base + r
    ensures TapSum(Periodic, a, filter, x, t, hi)
         == filter[t] * a[r] + TapSum(Periodic, a, filter, x, t + 1, hi)
  {
    TapSumLow(Periodic, a, filter, x, t, hi);
    WrapShift(|a|, r, base);
  }

  /** Left edge of a periodic row: tap `j` reads sample `r` back from the end of the lap starting at `base` and extends a running sum. */
  lemma LeftWrapStep(p: seq<real>, filter: seq<real>, i: nat, lo: nat, j: nat, base: nat, r: nat,
                     sum0: real, sum: real, v: real)
    requires |p| >= 1 && lo <= j < |filter| && Periods(base, |p|) && r < |p| && j - i - 1 == base + r
    requires v == p[|p| - 1 - r] && sum == sum0 + TapSum(Periodic, p, filter, i, lo, j)
    ensures sum + filter[j] * v == sum0 + TapSum(Periodic, p, filter, i, lo, j + 1)
  {
    LeftPeriodicStep(p, filter, i, lo, j, base, r);
  }

  /** Right edge of a periodic row: tap `t` reads sample `r` of the lap starting at `base` and extends a running sum. */
  lemma RightWrapStep(p: seq<real>, filter: seq<real>, x: int, t: nat, hi: nat, base: nat, r: nat,
                      sum0: real, sum: real, v: real)
    requires |p| >= 1 && t < hi <= |filter| && Periods(base, |p|) && r < |p| && x - t == base + r
    requires v == p[r] && sum == sum0 + TapSum(Periodic, p, filter, x, t + 1, hi)
    ensures sum + filter[t] * v == sum0 + TapSum(Periodic, p, filter, x, t, hi)
  {
    PeriodicStep(p, filter, x, t, hi, base, r);
  }

  /** Left edge of a padded row: a tap that lands in the padding adds the last sample to a running sum. */
  lemma LeftPadStep(a: seq<real>, padding: nat, filter: seq<real>, i: nat, lo: nat, j: nat, base: nat, k: nat,
                    sum0: real, sum: real, last: real)
    requires |a| >= 1 && lo <= j < |filter| && Periods(base, |a| + padding) && k < padding && j - i - 1 == base + k
    requires last == a[|a| - 1] && sum == sum0 + TapSum(Periodic, Padded(a, padding), filter, i, lo, j)
    ensures sum + filter[j] * last == sum0 + TapSum(Periodic, Padded(a, padding), filter, i, lo, j + 1)
  {
    var p := Padded(a, padding);
    LeftPeriodicStep(p, filter, i, lo, j, base, k);
    assert p[|p| - 1 - k] == a[|a| - 1];
  }

  /** Right edge of a padded row: a tap that lands in the padding adds the last sample to a running sum. */
  lemma RightPadStep(a: seq<real>, padding: nat, filter: seq<real>, x: int, t: nat, hi: nat, base: nat, k: nat,
                     sum0: real, sum: real, last: real)
    requires |a| >= 1 && t < hi <= |filter| && Periods(base, |a| + padding) && k < padding && x - t == base + |a| + k
    requires last == a[|a| - 1] && sum == sum0 + TapSum(Periodic, Padded(a, padding), filter, x, t + 1, hi)
    ensures sum + filter[t] * last == sum0 + TapSum(Periodic, Padded(a, padding), filter, x, t, hi)
  {
    var p := Padded(a, padding);
    PeriodicStep(p, filter, x, t, hi, base, |a| + k);
    assert p[|a| + k] == a[|a| - 1];
  }

  // Laps of the cycling edge loops. Each adds the taps from `j0` up to the
  // returned `j`, stopping after one pass over its run of samples or at the
  // end of the taps, whichever comes first.

  /** An even lap of the symmetric left edge: `sum += filter[j] * input[k]`. */
  method LeftMirrorForward(input: seq<real>, n: nat, stride: nat, ghost a: seq<real>, filter: seq<real>,
                           i: nat, j0: nat, ghost base: nat, sum0: real)
    returns (sum: real, j: nat)
    requires Stores(input, n, stride, a) && n >= 1 && j0 <= |filter| && Periods(base, 2 * n)
    requires j0 < |filter| ==> j0 - i - 1 == base
    ensures j0 <= j <= |filter| && (j < |filter| ==> j == j0 + n)
    ensures sum == sum0 + TapSum(Symmetric, a, filter, i, j0, j)
  {
    sum, j := sum0, j0;
    var k := 0;
    while k < n && j < |filter|
      invariant 0 <= k <= n && j == j0 + k <= |filter|
      invariant sum == sum0 + TapSum(Symmetric, a, filter, i, j0, j)
    {
      var v := Sample(input, n, stride, k);
      LeftSymmetricStep(a, filter, i, j0, j, base, k, sum0, sum, v);
      sum := sum + filter[j] * v;
      j, k := j + 1, k + 1;
    }
  }

  /** An odd lap of the symmetric left edge: `sum += filter[j] * input[N-1-k]`. */
  method LeftMirrorBackward(input: seq<real>, n: nat, stride: nat, ghost a: seq<real>, filter: seq<real>,
                            i: nat, j0: nat, ghost base: nat, sum0: real)
    returns (sum: real, j: nat)
    requires Stores(input, n, stride, a) && n >= 1 && j0 <= |filter| && Periods(base, 2 * n)
    requires j0 < |filter| ==> j0 - i - 1 == base + n
    ensures j0 <= j <= |filter| && (j < |filter| ==> j == j0 + n)
    ensures sum == sum0 + TapSum(Symmetric, a, filter, i, j0, j)
  {
    sum, j := sum0, j0;
    var k := 0;
    while k < n && j < |filter|
      invariant 0 <= k <= n && j == j0 + k <= |filter|
      invariant sum == sum0 + TapSum(Symmetric, a, filter, i, j0, j)
    {
      var v := Sample(input, n, stride, n - 1 - k);
      LeftSymmetricStep(a, filter, i, j0, j, base, n + k, sum0, sum, v);
      sum := sum + filter[j] * v;
      j, k := j + 1, k + 1;
    }
  }

  /**
   * A lap of the periodic left edge over the row `p` (the input, or the
   * input followed by `pad` padding samples): `sum += filter[j] * input[N-1-k]`.
   */
  method LeftWrapBackward(input: seq<real>, n: nat, stride: nat, ghost a: seq<real>, ghost p: seq<real>, ghost pad: nat,
                          filter: seq<real>, i: nat, j0: nat, ghost base: nat, sum0: real)
    returns (sum: real, j: nat)
    requires Stores(input, n, stride, a) && n >= 1 && |p| == n + pad && p[..n] == a
    requires j0 <= |filter| && Periods(base, |p|)
    requires j0 < |filter| ==> j0 - i - 1 == base + pad
    ensures j0 <= j <= |filter| && (j < |filter| ==> j == j0 + n)
    ensures sum == sum0 + TapSum(Periodic, p, filter, i, j0, j)
  {
    sum, j := sum0, j0;
    var k := 0;
    while k < n && j < |filter|
      invariant 0 <= k <= n && j == j0 + k <= |filter|
      invariant sum == sum0 + TapSum(Periodic, p, filter, i, j0, j)
    {
      var v := Sample(input, n, stride, n - 1 - k);
      assert v == p[n - 1 - k] by {
        assert p[..n][n - 1 - k] == a[n - 1 - k];
      }
      LeftWrapStep(p, filter, i, j0, j, base, pad + k, sum0, sum, v);
      sum := sum + filter[j] * v;
      j, k := j + 1, k + 1;
    }
  }

  /** The padding lap of the periodization left edge: `sum += filter[j] * input[N-1]`. */
  method LeftPadLap(input: seq<real>, n: nat, stride: nat, ghost a: seq<real>, padding: nat,
                    filter: seq<real>, i: nat, j0: nat, ghost base: nat, sum0: real)
    returns (sum: real, j: nat)
    requires Stores(input, n, stride, a) && n >= 1 && j0 <= |filter| && Periods(base, n + padding)
    requires j0 < |filter| ==> j0 - i - 1 == base
    ensures j0 <= j <= |filter| && (j < |filter| ==> j == j0 + padding)
    ensures sum == sum0 + TapSum(Periodic, Padded(a, padding), filter, i, j0, j)
  {
    sum, j := sum0, j0;
    var k := 0;
    while k < padding && j < |filter|
      invariant 0 <= k <= padding && j == j0 + k <= |filter|
      invariant sum == sum0 + TapSum(Periodic, Padded(a, padding), filter, i, j0, j)
    {
      var last := Sample(input, n, stride, n - 1);
      LeftPadStep(a, padding, filter, i, j0, j, base, k, sum0, sum, last);
      sum := sum + filter[j] * last;
      j, k := j + 1, k + 1;
    }
  }

  /** An even lap of the symmetric right edge, taps walked downwards: `sum += filter[i-N-j] * input[N-1-k]`. */
  method RightMirrorBackward(input: seq<real>, n: nat, stride: nat, ghost a: seq<real>, filter: seq<real>,
                             i: nat, j0: nat, ghost base: nat, sum0: real)
    returns (sum: real, j: nat)
    requires Stores(input, n, stride, a) && n >= 1 && n <= i && i - n < |filter| && Periods(base, 2 * n)
    requires j0 <= i - n + 1 && (j0 <= i - n ==> j0 == base)
    ensures j0 <= j <= i - n + 1 && (j <= i - n ==> j == j0 + n)
    ensures sum == sum0 + TapSum(Symmetric, a, filter, i, i - n + 1 - j, i - n + 1 - j0)
  {
    assert |a| == n;
    sum, j := sum0, j0;
    var k := 0;
    while k < n && i - j >= n
      invariant 0 <= k <= n && j == j0 + k <= i - n + 1
      invariant sum == sum0 + TapSum(Symmetric, a, filter, i, i - n + 1 - j, i - n + 1 - j0)
    {
      var t := i - n - j;
      var v := Sample(input, n, stride, n - 1 - k);
      RightSymmetricStep(a, filter, i, t, i - n + 1 - j0, base, k, sum0, sum, v);
      sum := sum + filter[t] * v;
      j, k := j + 1, k + 1;
    }
  }

  /** An odd lap of the symmetric right edge, taps walked downwards: `sum += filter[i-N-j] * input[k]`. */
  method RightMirrorForward(input: seq<real>, n: nat, stride: nat, ghost a: seq<real>, filter: seq<real>,
                            i: nat, j0: nat, ghost base: nat, sum0: real)
    returns (sum: real, j: nat)
    requires Stores(input, n, stride, a) && n >= 1 && n <= i && i - n < |filter| && Periods(base, 2 * n)
    requires j0 <= i - n + 1 && (j0 <= i - n ==> j0 == base + n)
    ensures j0 <= j <= i - n + 1 && (j <= i - n ==> j == j0 + n)
    ensures sum == sum0 + TapSum(Symmetric, a, filter, i, i - n + 1 - j, i - n + 1 - j0)
  {
    sum, j := sum0, j0;
    var k := 0;
    while k < n && i - j >= n
      invariant 0 <= k <= n && j == j0 + k <= i - n + 1
      invariant sum == sum0 + TapSum(Symmetric, a, filter, i, i - n + 1 - j, i - n + 1 - j0)
    {
      var t := i - n - j;
      var v := Sample(input, n, stride, k);
      RightSymmetricStep(a, filter, i, t, i - n + 1 - j0, base, n + k, sum0, sum, v);
      sum := sum + filter[t] * v;
      j, k := j + 1, k + 1;
    }
  }

  /**
   * A lap of the periodic right edge over the row `p` (the input, or the input
   * followed by padding), taps walked downwards: `sum += filter[i-N-j] * input[k]`.
   */
  method RightWrapForward(input: seq<real>, n: nat, stride: nat, ghost a: seq<real>, ghost p: seq<real>,
                          filter: seq<real>, i: nat, j0: nat, ghost base: nat, sum0: real)
    returns (sum: real, j: nat)
    requires Stores(input, n, stride, a) && n >= 1 && |p| >= n && p[..n] == a
    requires n <= i && i - n < |filter| && Periods(base, |p|)
    requires j0 <= i - n + 1 && (j0 <= i - n ==> n + j0 == base)
    ensures j0 <= j <= i - n + 1 && (j <= i - n ==> j == j0 + n)
    ensures sum == sum0 + TapSum(Periodic, p, filter, i, i - n + 1 - j, i - n + 1 - j0)
  {
    sum, j := sum0, j0;
    var k := 0;
    while k < n && i - j >= n
      invariant 0 <= k <= n && j == j0 + k <= i - n + 1
      invariant sum == sum0 + TapSum(Periodic, p, filter, i, i - n + 1 - j, i - n + 1 - j0)
    {
      var t := i - n - j;
      var v := Sample(input, n, stride, k);
      assert v == p[k] by {
        assert p[..n][k] == a[k];
      }
      RightWrapStep(p, filter, i, t, i - n + 1 - j0, base, k, sum0, sum, v);
      sum := sum + filter[t] * v;
      j, k := j + 1, k + 1;
    }
  }

  /** The padding lap of the periodization right edge, taps walked downwards: `sum += filter[i-N-j] * input[N-1]`. */
  method RightPadLap(input: seq<real>, n: nat, stride: nat, ghost a: seq<real>, padding: nat,
                     filter: seq<real>, i: nat, j0: nat, ghost base: nat, sum0: real)
    returns (sum: real, j: nat)
    requires Stores(input, n, stride, a) && n >= 1 && n <= i && i - n < |filter| && Periods(base, n + padding)
    requires j0 <= i - n + 1 && (j0 <= i - n ==> j0 == base)
    ensures j0 <= j <= i - n + 1 && (j <= i - n ==> j == j0 + padding)
    ensures sum == sum0 + TapSum(Periodic, Padded(a, padding), filter, i, i - n + 1 - j, i - n + 1 - j0)
  {
    sum, j := sum0, j0;
    var k := 0;
    while k < padding && i - j >= n
      invariant 0 <= k <= padding && j == j0 + k <= i - n + 1
      invariant sum == sum0 + TapSum(Periodic, Padded(a, padding), filter, i, i - n + 1 - j, i - n + 1 - j0)
    {
      var t := i - n - j;
      var last := Sample(input, n, stride, n - 1);
      RightPadStep(a, padding, filter, i, t, i - n + 1 - j0, base, k, sum0, sum, last);
      sum := sum + filter[t] * last;
      j, k := j + 1, k + 1;
    }
  }

  // ---------------------------------------------------------------------------
  // One filter, one running sum (the downsampling kernels).

  /** `for (j = lo; j < hi; ++j) sum += filter[j] * input[(i-j)*stride]`: taps reading inside the row. */
  method AddInside(input: seq<real>, n: nat, stride: nat, ghost a: seq<real>, filter: seq<real>, i: int, lo: nat, hi: nat, sum0: real)
    returns (sum: real)
    requires Stores(input, n, stride, a) && lo <= hi <= |filter|
    requires lo < hi ==> 0 <= i - (hi - 1) && i - lo < n
    ensures sum == sum0 + RowSum(a, filter, i, lo, hi)
  {
    sum := sum0;
    var j := lo;
    while j < hi
      invariant lo <= j <= hi
      invariant sum == sum0 + RowSum(a, filter, i, lo, j)
    {
      sum := sum + filter[j] * Sample(input, n, stride, i - j);
      j := j + 1;
    }
  }

  /** Symmetric left edge: the row forwards, then backwards, repeatedly. */
  method AddLeftSymmetric(input: seq<real>, n: nat, stride: nat, ghost a: seq<real>, filter: seq<real>, i: nat, sum0: real)
    returns (sum: real)
    requires Stores(input, n, stride, a) && n >= 1 && i < |filter|
    ensures sum == sum0 + TapSum(Symmetric, a, filter, i, i + 1, |filter|)
  {
    var F := |filter|;
    sum := sum0;
    var j := i + 1;
    ghost var base: nat := 0;
    while j < F
      invariant i + 1 <= j <= F && Periods(base, 2 * n)
      invariant j < F ==> j - i - 1 == base
      invariant sum == sum0 + TapSum(Symmetric, a, filter, i, i + 1, j)
      decreases F - j
    {
      var s1, j1 := LeftMirrorForward(input, n, stride, a, filter, i, j, base, sum);
      TapSumSplit(Symmetric, a, filter, i, i + 1, j, j1);
      var s2, j2 := LeftMirrorBackward(input, n, stride, a, filter, i, j1, base, s1);
      TapSumSplit(Symmetric, a, filter, i, i + 1, j1, j2);
      sum, j, base := s2, j2, base + 2 * n;
    }
  }

  /** Constant left edge: the first sample. */
  method AddLeftConstant(input: seq<real>, n: nat, stride: nat, ghost a: seq<real>, filter: seq<real>, i: nat, sum0: real)
    returns (sum: real)
    requires Stores(input, n, stride, a) && n >= 1 && i < |filter|
    ensures sum == sum0 + TapSum(ConstantEdge, a, filter, i, i + 1, |filter|)
  {
    sum := sum0;
    var j := i + 1;
    while j < |filter|
      invariant i + 1 <= j <= |filter|
      invariant sum == sum0 + TapSum(ConstantEdge, a, filter, i, i + 1, j)
    {
      sum := sum + filter[j] * Sample(input, n, stride, 0);
      j := j + 1;
    }
  }

  /** Smooth left edge: the first sample continued with the slope of the first two. */
  method AddLeftSmooth(input: seq<real>, n: nat, stride: nat, ghost a: seq<real>, filter: seq<real>, i: nat, sum0: real)
    returns (sum: real)
    requires Stores(input, n, stride, a) && n >= 2 && i < |filter|
    ensures sum == sum0 + TapSum(Smooth, a, filter, i, i + 1, |filter|)
  {
    var first, second := Sample(input, n, stride, 0), Sample(input, n, stride, 1);
    sum := sum0;
    var j := i + 1;
    var k := 1;
    while j < |filter|
      invariant i + 1 <= j <= |filter| && k == j - i
      invariant sum == sum0 + TapSum(Smooth, a, filter, i, i + 1, j)
    {
      sum := sum + filter[j] * (first + k as real * (first - second));
      j, k := j + 1, k + 1;
    }
  }

  /** Periodic left edge: the row backwards from its last sample, repeatedly. */
  method AddLeftPeriodic(input: seq<real>, n: nat, stride: nat, ghost a: seq<real>, filter: seq<real>, i: nat, sum0: real)
    returns (sum: real)
    requires Stores(input, n, stride, a) && n >= 1 && i < |filter|
    ensures sum == sum0 + TapSum(Periodic, a, filter, i, i + 1, |filter|)
  {
    var F := |filter|;
    sum := sum0;
    var j := i + 1;
    ghost var base: nat := 0;
    assert a[..n] == a;
    while j < F
      invariant i + 1 <= j <= F && Periods(base, n)
      invariant j < F ==> j - i - 1 == base
      invariant sum == sum0 + TapSum(Periodic, a, filter, i, i + 1, j)
      decreases F - j
    {
      var s1, j1 := LeftWrapBackward(input, n, stride, a, a, 0, filter, i, j, base, sum);
      TapSumSplit(Periodic, a, filter, i, i + 1, j, j1);
      sum, j, base := s1, j1, base + n;
    }
  }

  /** The left-edge `switch` of stages 1 and 3: taps `i + 1 .. F - 1` all lie left of the row. */
  method AddLeft(mode: Mode, input: seq<real>, n: nat, stride: nat, ghost a: seq<real>, filter: seq<real>, i: nat, sum0: real)
    returns (sum: real)
    requires Stores(input, n, stride, a) && Extendable(mode, a) && i < |filter|
    ensures sum == sum0 + TapSum(mode, a, filter, i, i + 1, |filter|)
  {
    match mode {
      case Symmetric => sum := AddLeftSymmetric(input, n, stride, a, filter, i, sum0);
      case ConstantEdge => sum := AddLeftConstant(input, n, stride, a, filter, i, sum0);
      case Smooth => sum := AddLeftSmooth(input, n, stride, a, filter, i, sum0);
      case Periodic => sum := AddLeftPeriodic(input, n, stride, a, filter, i, sum0);
      case _ =>
        TapSumZeroOutside(mode, a, filter, i, i + 1, |filter|);
        sum := sum0;
    }
  }

  /** Symmetric right edge, walking the taps downwards: the row backwards, then forwards. */
  method AddRightSymmetric(input: seq<real>, n: nat, stride: nat, ghost a: seq<real>, filter: seq<real>, i: nat, sum0: real)
    returns (sum: real, j: nat)
    requires Stores(input, n, stride, a) && n >= 1 && n <= i && i - n < |filter|
    ensures j == i - n + 1
    ensures sum == sum0 + TapSum(Symmetric, a, filter, i, 0, i - n + 1)
  {
    sum := sum0;
    j := 0;
    ghost var base: nat := 0;
    while i - j >= n
      invariant 0 <= j <= i - n + 1 && Periods(base, 2 * n)
      invariant j <= i - n ==> j == base
      invariant sum == sum0 + TapSum(Symmetric, a, filter, i, i - n + 1 - j, i - n + 1)
      decreases i - j
    {
      var s1, j1 := RightMirrorBackward(input, n, stride, a, filter, i, j, base, sum);
      TapSumSplit(Symmetric, a, filter, i, i - n + 1 - j1, i - n + 1 - j, i - n + 1);
      var s2, j2 := RightMirrorForward(input, n, stride, a, filter, i, j1, base, s1);
      TapSumSplit(Symmetric, a, filter, i, i - n + 1 - j2, i - n + 1 - j1, i - n + 1);
      sum, j, base := s2, j2, base + 2 * n;
    }
  }

  /** Constant right edge: the last sample. */
  method AddRightConstant(input: seq<real>, n: nat, stride: nat, ghost a: seq<real>, filter: seq<real>, i: nat, sum0: real)
    returns (sum: real, j: nat)
    requires Stores(input, n, stride, a) && n >= 1 && n <= i && i - n < |filter|
    ensures j == i - n + 1
    ensures sum == sum0 + TapSum(ConstantEdge, a, filter, i, 0, i - n + 1)
  {
    var last := Sample(input, n, stride, n - 1);
    sum := sum0;
    j := 0;
    while i - j >= n
      invariant 0 <= j <= i - n + 1
      invariant sum == sum0 + TapSum(ConstantEdge, a, filter, i, 0, j)
    {
      sum := sum + filter[j] * last;
      j := j + 1;
    }
  }

  /** Smooth right edge: the last sample continued with the slope of the last two. */
  method AddRightSmooth(input: seq<real>, n: nat, stride: nat, ghost a: seq<real>, filter: seq<real>, i: nat, sum0: real)
    returns (sum: real, j: nat)
    requires Stores(input, n, stride, a) && n >= 2 && n <= i && i - n < |filter|
    ensures j == i - n + 1
    ensures sum == sum0 + TapSum(Smooth, a, filter, i, 0, i - n + 1)
  {
    var last, before := Sample(input, n, stride, n - 1), Sample(input, n, stride, n - 2);
    sum := sum0;
    j := 0;
    var k := i - n + 1;
    while i - j >= n
      invariant 0 <= j <= i - n + 1 && k == i - j - n + 1
      invariant sum == sum0 + TapSum(Smooth, a, filter, i, 0, j)
    {
      sum := sum + filter[j] * (last + k as real * (last - before));
      j, k := j + 1, k - 1;
    }
  }

  /** Periodic right edge, walking the taps downwards: the row forwards from its first sample. */
  method AddRightPeriodic(input: seq<real>, n: nat, stride: nat, ghost a: seq<real>, filter: seq<real>, i: nat, sum0: real)
    returns (sum: real, j: nat)
    requires Stores(input, n, stride, a) && n >= 1 && n <= i && i - n < |filter|
    ensures j == i - n + 1
    ensures sum == sum0 + TapSum(Periodic, a, filter, i, 0, i - n + 1)
  {
    sum := sum0;
    j := 0;
    ghost var base: nat := n;
    assert a[..n] == a;
    while i - j >= n
      invariant 0 <= j <= i - n + 1 && Periods(base, n)
      invariant j <= i - n ==> n + j == base
      invariant sum == sum0 + TapSum(Periodic, a, filter, i, i - n + 1 - j, i - n + 1)
      decreases i - j
    {
      var s1, j1 := RightWrapForward(input, n, stride, a, a, filter, i, j, base, sum);
      TapSumSplit(Periodic, a, filter, i, i - n + 1 - j1, i - n + 1 - j, i - n + 1);
      sum, j, base := s1, j1, base + n;
    }
  }

  /**
   * The right-edge `switch` of stages 3 and 4: taps `0 .. i - n` all lie right of
   * the row. Zero padding and the default branch skip them (`j = i - N + 1`).
   */
  method AddRight(mode: Mode, input: seq<real>, n: nat, stride: nat, ghost a: seq<real>, filter: seq<real>, i: nat, sum0: real)
    returns (sum: real, j: nat)
    requires Stores(input, n, stride, a) && Extendable(mode, a)
    requires n <= i && i - n < |filter|
    ensures j == i - n + 1
    ensures sum == sum0 + TapSum(mode, a, filter, i, 0, i - n + 1)
  {
    match mode {
      case Symmetric => sum, j := AddRightSymmetric(input, n, stride, a, filter, i, sum0);
      case ConstantEdge => sum, j := AddRightConstant(input, n, stride, a, filter, i, sum0);
      case Smooth => sum, j := AddRightSmooth(input, n, stride, a, filter, i, sum0);
      case Periodic => sum, j := AddRightPeriodic(input, n, stride, a, filter, i, sum0);
      case _ =>
        TapSumZeroOutside(mode, a, filter, i, 0, i - n + 1);
        sum, j := sum0, i - n + 1;
    }
  }

  /**
   * Periodization, left edge: the row padded with `padding` copies of its last
   * sample is walked backwards — first the padding, then the row — repeatedly.
   */
  method AddLeftPeriodized(input: seq<real>, n: nat, stride: nat, ghost a: seq<real>, filter: seq<real>, i: nat, padding: nat, sum0: real)
    returns (sum: real)
    requires Stores(input, n, stride, a) && n >= 1 && i < |filter|
    ensures sum == sum0 + TapSum(Periodic, Padded(a, padding), filter, i, i + 1, |filter|)
  {
    ghost var p := Padded(a, padding);
    var F := |filter|;
    sum := sum0;
    var j := i + 1;
    ghost var base: nat := 0;
    while j < F
      invariant i + 1 <= j <= F && Periods(base, n + padding)
      invariant j < F ==> j - i - 1 == base
      invariant sum == sum0 + TapSum(Periodic, p, filter, i, i + 1, j)
      decreases F - j
    {
      var s1, j1 := LeftPadLap(input, n, stride, a, padding, filter, i, j, base, sum);
      TapSumSplit(Periodic, p, filter, i, i + 1, j, j1);
      var s2, j2 := LeftWrapBackward(input, n, stride, a, p, padding, filter, i, j1, base, s1);
      TapSumSplit(Periodic, p, filter, i, i + 1, j1, j2);
      sum, j, base := s2, j2, base + (n + padding);
    }
  }

  /** Periodization, right edge, taps walked downwards: the padding, then the row forwards. */
  method AddRightPeriodized(input: seq<real>, n: nat, stride: nat, ghost a: seq<real>, filter: seq<real>, i: nat, padding: nat, sum0: real)
    returns (sum: real, j: nat)
    requires Stores(input, n, stride, a) && n >= 1 && n <= i && i - n < |filter|
    ensures j == i - n + 1
    ensures sum == sum0 + TapSum(Periodic, Padded(a, padding), filter, i, 0, i - n + 1)
  {
    ghost var p := Padded(a, padding);
    sum := sum0;
    j := 0;
    ghost var base: nat := 0;
    while i - j >= n
      invariant 0 <= j <= i - n + 1 && Periods(base, n + padding)
      invariant j <= i - n ==> j == base
      invariant sum == sum0 + TapSum(Periodic, p, filter, i, i - n + 1 - j, i - n + 1)
      decreases i - j
    {
      var s1, j1 := RightPadLap(input, n, stride, a, padding, filter, i, j, base, sum);
      var s2, j2 := RightWrapForward(input, n, stride, a, p, filter, i, j1, base + (n + padding), s1);
      TapSumJoin(p, filter, i, i - n + 1 - j2, i - n + 1 - j1, i - n + 1 - j, i - n + 1, sum0, sum, s1, s2);
      sum, j, base := s2, j2, base + (n + padding);
    }
  }

  /** Two laps that extend a running sum downwards by adjacent tap ranges leave the sum over the joined range. */
  lemma TapSumJoin(p: seq<real>, filter: seq<real>, x: int, lo2: nat, lo1: nat, lo0: nat, hi: nat,
                   sum0: real, sum: real, s1: real, s2: real)
    requires |p| >= 1 && lo2 <= lo1 <= lo0 <= hi <= |filter|
    requires sum == sum0 + TapSum(Periodic, p, filter, x, lo0, hi)
    requires s1 == sum + TapSum(Periodic, p, filter, x, lo1, lo0)
    requires s2 == s1 + TapSum(Periodic, p, filter, x, lo2, lo1)
    ensures s2 == sum0 + TapSum(Periodic, p, filter, x, lo2, hi)
  {
    TapSumSplit(Periodic, p, filter, x, lo1, lo0, hi);
    TapSumSplit(Periodic, p, filter, x, lo2, lo1, hi);
  }
}
