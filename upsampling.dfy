/**
 * The reconstruction (upsampling) convolutions shared by both kernel files.
 * Upsampling by two is never materialised: input sample `i` meets the even
 * taps `filter[2j]` in output `2i` and the odd taps `filter[2j + 1]` in output
 * `2i + 1`, so every outer step accumulates one pair of outputs. Unlike the
 * downsampling kernels these add (`+=`) into the output buffer.
 */
module Upsampling {
  import opened Arith
  import opened Extension
  import opened Taps
  import opened Writes

  // ---------------------------------------------------------------------------
  // Specifications.

  /** Output `q` of the full reconstruction: the phase-`q % 2` taps over the zero-padded row at `q / 2`. */
  function FullAt(a: seq<real>, filter: seq<real>, q: nat): real {
    RowSum(a, Phase(filter, q % 2), q / 2, 0, |filter| / 2)
  }

  /** Everything the full reconstruction adds, slot by slot: `2N + F - 2` outputs for even `F`. */
  function UpsampledFull(a: seq<real>, filter: seq<real>): (r: seq<real>)
    requires |filter| >= 2
    ensures |r| == 2 * (|a| + |filter| / 2 - 1)
  {
    seq(2 * (|a| + |filter| / 2 - 1), q requires 0 <= q => FullAt(a, filter, q))
  }

  /** Output `q` of the valid-part reconstruction: the pair centred on input `q / 2 + F/2 - 1`. */
  function ValidAt(a: seq<real>, filter: seq<real>, q: nat): real {
    RowSum(a, Phase(filter, q % 2), q / 2 + |filter| / 2 - 1, 0, |filter| / 2)
  }

  /**
   * Everything the valid-part reconstruction adds: `2(N - F/2 + 1)` outputs, or none when
   * `F/2 == 0`, where the unsigned start index `F/2 - 1` wraps past every row length.
   */
  function UpsampledValid(a: seq<real>, filter: seq<real>): (r: seq<real>)
    requires |filter| / 2 <= |a|
    ensures |r| == if |filter| / 2 == 0 then 0 else 2 * (|a| - |filter| / 2 + 1)
  {
    if |filter| / 2 == 0 then []
    else seq(2 * (|a| - |filter| / 2 + 1), q requires 0 <= q => ValidAt(a, filter, q))
  }

  /**
   * The input position and tap phase behind output slot `q` of the
   * periodization reconstruction. Outer step `i` runs from `F/4`; when `F/2`
   * is even the outputs are shifted one slot right, and the pair of the last
   * step goes to slots `2N - 1` and `0`.
   */
  function PeriodizedCentre(n: nat, f: nat, q: nat): nat
    requires q < 2 * n
  {
    if (f / 2) % 2 == 1 then f / 4 + q / 2
    else if q == 0 then n + f / 4 - 1
    else f / 4 + (q - 1) / 2
  }

  function PeriodizedPhase(f: nat, q: nat): nat {
    if (f / 2) % 2 == 1 then q % 2
    else if q == 0 then 1
    else (q - 1) % 2
  }

  function PeriodizedAt(a: seq<real>, filter: seq<real>, q: nat): real
    requires q < 2 * |a|
  {
    TapSum(Periodic, a, Phase(filter, PeriodizedPhase(|filter|, q)), PeriodizedCentre(|a|, |filter|, q), 0, |filter| / 2)
  }

  /**
   * The rows and filters the periodization reconstruction finishes on
   * without leaving its buffers: a non-empty filter, and a non-empty row
   * unless the filter is odd (refused at once) or half its length is odd
   * (with an empty row every loop bound then fails at once). An empty row
   * with `F/2` even never leaves the shift loop, whose inner loop runs over
   * the row. An empty filter gives `start = 0`, so the shift loop's bound
   * `start - 1` wraps to the largest `size_t` and the loop reads past the
   * filter without end.
   */
  predicate PeriodizedRowOk(n: nat, f: nat) {
    f != 0 && (n >= 1 || f % 2 == 1 || (f / 2) % 2 == 1)
  }

  /** Everything the periodization reconstruction adds: one value per slot `0 .. 2N - 1`. */
  function UpsampledPeriodized(a: seq<real>, filter: seq<real>): (r: seq<real>)
    requires |a| >= 1
    ensures |r| == 2 * |a|
  {
    seq(2 * |a|, q requires 0 <= q < 2 * |a| => PeriodizedAt(a, filter, q))
  }

  /**
   * The order in which the periodization reconstruction accumulates its
   * outputs: slots `0, 1, ...` in turn, except that with the one-slot shift
   * the pair of the last step (slots `2N - 1` and `0`) comes first.
   */
  function PeriodizedWrites(vals: seq<real>, stride: nat, shifted: bool): (w: seq<Write>)
    requires |vals| >= 2
    ensures |w| == |vals|
  {
    if shifted then [Write((|vals| - 1) * stride, vals[|vals| - 1]), Write(0, vals[0])] + StridedWrites(vals, stride)[1..|vals| - 1]
    else StridedWrites(vals, stride)
  }

  // ---------------------------------------------------------------------------
  // Pairs of running sums accumulated in place.

  /** The buffer `b` with `s0` accumulated into slot `p0` and `s1` into slot `p1`. */
  ghost predicate Pair(out: seq<real>, b: seq<real>, p0: nat, p1: nat, s0: real, s1: real) {
    p0 != p1 && p0 < |b| && p1 < |b| && out == b[p0 := b[p0] + s0][p1 := b[p1] + s1]
  }

  /** The running sums of a pair regrouped: a lap's sum added onto the sum before it. */
  lemma PairRegroup(out: seq<real>, b: seq<real>, p0: nat, p1: nat, s0: real, t0: real, l0: real, s1: real, t1: real, l1: real)
    requires Pair(out, b, p0, p1, (s0 + t0) + l0, (s1 + t1) + l1)
    ensures Pair(out, b, p0, p1, s0 + (t0 + l0), s1 + (t1 + l1))
  {
    assert (s0 + t0) + l0 == s0 + (t0 + l0) && (s1 + t1) + l1 == s1 + (t1 + l1);
  }

  /** `output[p0] += d0; output[p1] += d1` extends both running sums. */
  lemma PairStep(out: seq<real>, b: seq<real>, p0: nat, p1: nat, s0: real, s1: real, d0: real, d1: real)
    requires Pair(out, b, p0, p1, s0, s1) && p0 < |b| && p1 < |b|
    ensures Pair(out[p0 := out[p0] + d0][p1 := out[p1] + d1], b, p0, p1, s0 + d0, s1 + d1)
  {
  }

  /** `output[p0] += w0; output[p1] += w1`. */
  method PairAdd(output: array<real>, p0: nat, p1: nat, ghost b: seq<real>, ghost s0: real, ghost s1: real, w0: real, w1: real)
    requires Pair(output[..], b, p0, p1, s0, s1) && p0 < output.Length && p1 < output.Length
    modifies output
    ensures Pair(output[..], b, p0, p1, s0 + w0, s1 + w1)
  {
    PairStep(output[..], b, p0, p1, s0, s1, w0, w1);
    output[p0] := output[p0] + w0;
    output[p1] := output[p1] + w1;
  }

  /** Taps that all fall outside the row add nothing to a zero-padded sum. */
  lemma RowSumOutside(a: seq<real>, filter: seq<real>, x: int, lo: nat, hi: nat)
    requires hi <= |filter|
    requires lo < hi ==> x - lo < 0 || x - (hi - 1) >= |a|
    ensures RowSum(a, filter, x, lo, hi) == 0.0
  {
    if |a| >= 1 {
      ZeroPadRowSum(a, filter, x, lo, hi);
      TapSumZeroOutside(ZeroPad, a, filter, x, lo, hi);
    } else {
      RowSumEmpty(a, filter, x, lo, hi);
    }
  }

  lemma {:induction false} RowSumEmpty(a: seq<real>, filter: seq<real>, x: int, lo: nat, hi: nat)
    requires hi <= |filter| && |a| == 0
    ensures RowSum(a, filter, x, lo, hi) == 0.0
    decreases hi
  {
    if lo < hi {
      RowSumEmpty(a, filter, x, lo, hi - 1);
    }
  }

  /** One more tap inside the row. */
  lemma RowSumNext(a: seq<real>, filter: seq<real>, x: int, lo: nat, j: nat)
    requires lo <= j < |filter| && 0 <= x - j < |a|
    ensures RowSum(a, filter, x, lo, j + 1) == RowSum(a, filter, x, lo, j) + filter[j] * a[x - j]
  {
  }

  /** The pair of products one inside tap contributes. */
  lemma PairTap(a: seq<real>, filter: seq<real>, x: int, lo: nat, j: nat, v: real, w0: real, w1: real)
    requires lo <= j < |filter| / 2 && 0 <= x - j < |a| && v == a[x - j]
    requires w0 == filter[2 * j] * v && w1 == filter[2 * j + 1] * v
    ensures RowSum(a, Phase(filter, 0), x, lo, j + 1) == RowSum(a, Phase(filter, 0), x, lo, j) + w0
    ensures RowSum(a, Phase(filter, 1), x, lo, j + 1) == RowSum(a, Phase(filter, 1), x, lo, j) + w1
  {
    RowSumNext(a, Phase(filter, 0), x, lo, j);
    RowSumNext(a, Phase(filter, 1), x, lo, j);
  }

  /**
   * The inner loop over taps `lo .. hi - 1` inside the row: `output[p0] += filter[2j] * input[i-j]`,
   * and the odd tap into `p1`. An empty range (`hi <= lo`) runs no iteration and touches nothing.
   */
  method PairInside(output: array<real>, p0: nat, p1: nat, ghost b: seq<real>, ghost s0: real, ghost s1: real,
                    input: seq<real>, n: nat, stride: nat, ghost a: seq<real>, filter: seq<real>, i: int, lo: nat, hi: nat)
    requires Stores(input, n, stride, a) && hi <= |filter| / 2
    requires lo < hi ==> 0 <= i - (hi - 1) && i - lo < n && Pair(output[..], b, p0, p1, s0, s1)
    modifies output
    ensures lo < hi ==> Pair(output[..], b, p0, p1, s0 + RowSum(a, Phase(filter, 0), i, lo, hi), s1 + RowSum(a, Phase(filter, 1), i, lo, hi))
    ensures hi <= lo ==> output[..] == old(output[..])
  {
    ghost var e, d := Phase(filter, 0), Phase(filter, 1);
    ghost var t0, t1 := 0.0, 0.0;
    var j := lo;
    while j < hi
      invariant lo < hi ==> lo <= j <= hi && t0 == RowSum(a, e, i, lo, j) && t1 == RowSum(a, d, i, lo, j)
      invariant lo < hi ==> Pair(output[..], b, p0, p1, s0 + t0, s1 + t1)
      invariant hi <= lo ==> j == lo && output[..] == old(output[..])
    {
      assert |b| == output.Length && |a| == n;
      var v := Sample(input, n, stride, i - j);
      var w0, w1 := filter[2 * j] * v, filter[2 * j + 1] * v;
      PairTap(a, filter, i, lo, j, v, w0, w1);
      PairAdd(output, p0, p1, b, s0 + t0, s1 + t1, w0, w1);
      t0, t1 := t0 + w0, t1 + w1;
      j := j + 1;
    }
  }

  // ---------------------------------------------------------------------------
  // Periodic edges, two phases at a time.

  /** Two adjacent periodic tap ranges join, in both phases at once. */
  lemma PairJoin(a: seq<real>, filter: seq<real>, i: int, lo: nat, mid: nat, hi: nat, t0: real, t1: real, l0: real, l1: real)
    requires |a| >= 1 && lo <= mid <= hi <= |filter| / 2
    requires l0 == TapSum(Periodic, a, Phase(filter, 0), i, lo, mid) && l1 == TapSum(Periodic, a, Phase(filter, 1), i, lo, mid)
    requires t0 == TapSum(Periodic, a, Phase(filter, 0), i, mid, hi) && t1 == TapSum(Periodic, a, Phase(filter, 1), i, mid, hi)
    ensures t0 + l0 == TapSum(Periodic, a, Phase(filter, 0), i, lo, hi)
    ensures t1 + l1 == TapSum(Periodic, a, Phase(filter, 1), i, lo, hi)
  {
    TapSumSplit(Periodic, a, Phase(filter, 0), i, lo, mid, hi);
    TapSumSplit(Periodic, a, Phase(filter, 1), i, lo, mid, hi);
  }

  lemma PairLeftTap(a: seq<real>, filter: seq<real>, i: nat, j0: nat, j: nat, base: nat, k: nat, v: real, w0: real, w1: real)
    requires |a| >= 1 && j0 <= j < |filter| / 2 && Periods(base, |a|) && k < |a| && j - i - 1 == base + k
    requires v == a[|a| - 1 - k] && w0 == filter[2 * j] * v && w1 == filter[2 * j + 1] * v
    ensures TapSum(Periodic, a, Phase(filter, 0), i, j0, j + 1) == TapSum(Periodic, a, Phase(filter, 0), i, j0, j) + w0
    ensures TapSum(Periodic, a, Phase(filter, 1), i, j0, j + 1) == TapSum(Periodic, a, Phase(filter, 1), i, j0, j) + w1
  {
    LeftPeriodicStep(a, Phase(filter, 0), i, j0, j, base, k);
    LeftPeriodicStep(a, Phase(filter, 1), i, j0, j, base, k);
  }

  lemma PairRightTap(a: seq<real>, filter: seq<real>, i: nat, t: nat, hi: nat, base: nat, k: nat, v: real, w0: real, w1: real)
    requires |a| >= 1 && t < hi <= |filter| / 2 && Periods(base, |a|) && k < |a| && i - t == base + k
    requires v == a[k] && w0 == filter[2 * t] * v && w1 == filter[2 * t + 1] * v
    ensures TapSum(Periodic, a, Phase(filter, 0), i, t, hi) == w0 + TapSum(Periodic, a, Phase(filter, 0), i, t + 1, hi)
    ensures TapSum(Periodic, a, Phase(filter, 1), i, t, hi) == w1 + TapSum(Periodic, a, Phase(filter, 1), i, t + 1, hi)
  {
    PeriodicStep(a, Phase(filter, 0), i, t, hi, base, k);
    PeriodicStep(a, Phase(filter, 1), i, t, hi, base, k);
  }

  /** One lap of the left edge: `output[p0] += filter[2j] * input[N-1-k]` for `k = 0, 1, ...`. */
  method PairLeftLap(output: array<real>, p0: nat, p1: nat, ghost b: seq<real>, ghost s0: real, ghost s1: real,
                     input: seq<real>, n: nat, stride: nat, ghost a: seq<real>, filter: seq<real>,
                     i: nat, j0: nat, ghost base: nat)
    returns (j: nat, ghost t0: real, ghost t1: real)
    requires Stores(input, n, stride, a) && n >= 1 && j0 <= |filter| / 2 && Periods(base, n)
    requires j0 < |filter| / 2 ==> j0 - i - 1 == base
    requires Pair(output[..], b, p0, p1, s0, s1) && p0 < output.Length && p1 < output.Length
    modifies output
    ensures j0 <= j <= |filter| / 2 && (j < |filter| / 2 ==> j == j0 + n)
    ensures t0 == TapSum(Periodic, a, Phase(filter, 0), i, j0, j) && t1 == TapSum(Periodic, a, Phase(filter, 1), i, j0, j)
    ensures Pair(output[..], b, p0, p1, s0 + t0, s1 + t1)
  {
    j := j0;
    var k := 0;
    t0, t1 := 0.0, 0.0;
    while k < n && j < |filter| / 2
      invariant 0 <= k <= n && j == j0 + k <= |filter| / 2
      invariant t0 == TapSum(Periodic, a, Phase(filter, 0), i, j0, j) && t1 == TapSum(Periodic, a, Phase(filter, 1), i, j0, j)
      invariant Pair(output[..], b, p0, p1, s0 + t0, s1 + t1)
    {
      assert |a| == n;
      var v := Sample(input, n, stride, n - 1 - k);
      var w0, w1 := filter[2 * j] * v, filter[2 * j + 1] * v;
      PairLeftTap(a, filter, i, j0, j, base, k, v, w0, w1);
      PairAdd(output, p0, p1, b, s0 + t0, s1 + t1, w0, w1);
      t0, t1 := t0 + w0, t1 + w1;
      j, k := j + 1, k + 1;
    }
  }

  /** The taps `j0 .. F/2 - 1` left of the row, wrapping around it as often as needed. */
  method PairLeftPeriodic(output: array<real>, p0: nat, p1: nat, ghost b: seq<real>, ghost s0: real, ghost s1: real,
                          input: seq<real>, n: nat, stride: nat, ghost a: seq<real>, filter: seq<real>, i: nat, j0: nat)
    returns (ghost t0: real, ghost t1: real)
    requires Stores(input, n, stride, a) && n >= 1 && j0 <= |filter| / 2 && (j0 < |filter| / 2 ==> j0 == i + 1)
    requires Pair(output[..], b, p0, p1, s0, s1) && p0 < output.Length && p1 < output.Length
    modifies output
    ensures t0 == TapSum(Periodic, a, Phase(filter, 0), i, j0, |filter| / 2)
    ensures t1 == TapSum(Periodic, a, Phase(filter, 1), i, j0, |filter| / 2)
    ensures Pair(output[..], b, p0, p1, s0 + t0, s1 + t1)
  {
    var j := j0;
    ghost var base: nat := 0;
    t0, t1 := 0.0, 0.0;
    while j < |filter| / 2
      invariant j0 <= j <= |filter| / 2 && Periods(base, n) && (j < |filter| / 2 ==> j - i - 1 == base)
      invariant t0 == TapSum(Periodic, a, Phase(filter, 0), i, j0, j) && t1 == TapSum(Periodic, a, Phase(filter, 1), i, j0, j)
      invariant Pair(output[..], b, p0, p1, s0 + t0, s1 + t1)
      decreases |filter| / 2 - j
    {
      var j1, l0, l1 := PairLeftLap(output, p0, p1, b, s0 + t0, s1 + t1, input, n, stride, a, filter, i, j, base);
      PairRegroup(output[..], b, p0, p1, s0, t0, l0, s1, t1, l1);
      LeftLapJoin(a, filter, i, n, j0, j, j1, base, t0, t1, l0, l1);
      j, base, t0, t1 := j1, base + n, t0 + l0, t1 + l1;
    }
  }

  /** A finished lap of the left edge extends the taps summed so far, and the next lap starts one period further. */
  lemma LeftLapJoin(a: seq<real>, filter: seq<real>, i: nat, n: nat, j0: nat, j: nat, j1: nat, base: nat,
                    t0: real, t1: real, l0: real, l1: real)
    requires |a| >= 1 && n >= 1 && j0 <= j <= j1 <= |filter| / 2 && Periods(base, n)
    requires (j1 < |filter| / 2 ==> j1 == j + n) && (j < |filter| / 2 ==> j - i - 1 == base)
    requires l0 == TapSum(Periodic, a, Phase(filter, 0), i, j, j1) && l1 == TapSum(Periodic, a, Phase(filter, 1), i, j, j1)
    requires t0 == TapSum(Periodic, a, Phase(filter, 0), i, j0, j) && t1 == TapSum(Periodic, a, Phase(filter, 1), i, j0, j)
    ensures Periods(base + n, n) && (j1 < |filter| / 2 ==> j1 - i - 1 == base + n)
    ensures t0 + l0 == TapSum(Periodic, a, Phase(filter, 0), i, j0, j1)
    ensures t1 + l1 == TapSum(Periodic, a, Phase(filter, 1), i, j0, j1)
  {
    PairJoin(a, filter, i, j0, j, j1, l0, l1, t0, t1);
    assert Periods(base + n, n);
  }

  /** One lap of the right edge, taps walked downwards: `output[p0] += filter[2(i-N-j)] * input[k]`. */
  method PairRightLap(output: array<real>, p0: nat, p1: nat, ghost b: seq<real>, ghost s0: real, ghost s1: real,
                      input: seq<real>, n: nat, stride: nat, ghost a: seq<real>, filter: seq<real>,
                      i: nat, j0: nat, ghost base: nat, ghost top: nat)
    returns (j: nat, ghost t0: real, ghost t1: real)
    requires Stores(input, n, stride, a) && n >= 1 && n <= i && i - n < |filter| / 2 && Periods(base, n)
    requires top == i - n + 1 && j0 <= top && (j0 <= i - n ==> n + j0 == base)
    requires Pair(output[..], b, p0, p1, s0, s1) && p0 < output.Length && p1 < output.Length
    modifies output
    ensures j0 <= j <= top && (j <= i - n ==> j == j0 + n)
    ensures t0 == TapSum(Periodic, a, Phase(filter, 0), i, top - j, top - j0)
    ensures t1 == TapSum(Periodic, a, Phase(filter, 1), i, top - j, top - j0)
    ensures Pair(output[..], b, p0, p1, s0 + t0, s1 + t1)
  {
    j := j0;
    var k := 0;
    ghost var hi := top - j0;
    t0, t1 := 0.0, 0.0;
    while k < n && i - j >= n
      invariant 0 <= k <= n && j == j0 + k <= top
      invariant t0 == TapSum(Periodic, a, Phase(filter, 0), i, top - j, hi)
      invariant t1 == TapSum(Periodic, a, Phase(filter, 1), i, top - j, hi)
      invariant Pair(output[..], b, p0, p1, s0 + t0, s1 + t1)
    {
      assert |a| == n;
      assert i - (i - n - j) == base + k;
      assert i - n - j < hi <= |filter| / 2;
      var v := Sample(input, n, stride, k);
      assert v == a[k];
      var w0, w1 := filter[2 * (i - n - j)] * v, filter[2 * (i - n - j) + 1] * v;
      PairRightTap(a, filter, i, i - n - j, hi, base, k, v, w0, w1);
      PairAdd(output, p0, p1, b, s0 + t0, s1 + t1, w0, w1);
      t0, t1 := t0 + w0, t1 + w1;
      j, k := j + 1, k + 1;
    }
  }

  /**
   * The taps `0 .. i - N` right of the row, wrapping around it as often as needed; returns
   * `j == i - N + 1`, or `j == 0` when the centre `i` lies inside the row and no tap is right of it.
   */
  method PairRightPeriodic(output: array<real>, p0: nat, p1: nat, ghost b: seq<real>, ghost s0: real, ghost s1: real,
                           input: seq<real>, n: nat, stride: nat, ghost a: seq<real>, filter: seq<real>, i: nat)
    returns (j: nat, ghost t0: real, ghost t1: real)
    requires Stores(input, n, stride, a) && n >= 1 && i - n < |filter| / 2
    requires Pair(output[..], b, p0, p1, s0, s1)
    modifies output
    ensures j == if n <= i then i - n + 1 else 0
    ensures t0 == TapSum(Periodic, a, Phase(filter, 0), i, 0, j)
    ensures t1 == TapSum(Periodic, a, Phase(filter, 1), i, 0, j)
    ensures Pair(output[..], b, p0, p1, s0 + t0, s1 + t1)
  {
    j := 0;
    ghost var base: nat := n;
    ghost var hi: nat := if n <= i then i - n + 1 else 0;
    t0, t1 := 0.0, 0.0;
    while i - j >= n
      invariant j <= hi && Periods(base, n) && (j <= i - n ==> n + j == base)
      invariant t0 == TapSum(Periodic, a, Phase(filter, 0), i, hi - j, hi) && t1 == TapSum(Periodic, a, Phase(filter, 1), i, hi - j, hi)
      invariant Pair(output[..], b, p0, p1, s0 + t0, s1 + t1)
      decreases hi - j
    {
      var j1, l0, l1 := PairRightLap(output, p0, p1, b, s0 + t0, s1 + t1, input, n, stride, a, filter, i, j, base, hi);
      PairRegroup(output[..], b, p0, p1, s0, t0, l0, s1, t1, l1);
      RightLapJoin(a, filter, i, n, hi, j, j1, base, t0, t1, l0, l1);
      j, base, t0, t1 := j1, base + n, t0 + l0, t1 + l1;
    }
  }

  /** A finished lap of the right edge extends the taps summed so far, and the next lap starts one period further. */
  lemma RightLapJoin(a: seq<real>, filter: seq<real>, i: nat, n: nat, hi: nat, j: nat, j1: nat, base: nat,
                     t0: real, t1: real, l0: real, l1: real)
    requires |a| >= 1 && n >= 1 && n <= i && hi == i - n + 1 && hi <= |filter| / 2
    requires j <= j1 <= hi && Periods(base, n) && (j1 <= i - n ==> j1 == j + n) && (j <= i - n ==> n + j == base)
    requires l0 == TapSum(Periodic, a, Phase(filter, 0), i, hi - j1, hi - j) && l1 == TapSum(Periodic, a, Phase(filter, 1), i, hi - j1, hi - j)
    requires t0 == TapSum(Periodic, a, Phase(filter, 0), i, hi - j, hi) && t1 == TapSum(Periodic, a, Phase(filter, 1), i, hi - j, hi)
    ensures Periods(base + n, n) && (j1 <= i - n ==> n + j1 == base + n)
    ensures t0 + l0 == TapSum(Periodic, a, Phase(filter, 0), i, hi - j1, hi)
    ensures t1 + l1 == TapSum(Periodic, a, Phase(filter, 1), i, hi - j1, hi)
  {
    PairJoin(a, filter, i, hi - j1, hi - j, hi, t0, t1, l0, l1);
    assert Periods(base + n, n);
  }

  // ---------------------------------------------------------------------------
  // Accumulating pairs of outputs into a strided buffer.

  /** The first `o` outputs have been accumulated, output `p` into slot `p * stride`. */
  ghost predicate Accumulated(out: seq<real>, buf: seq<real>, vals: seq<real>, stride: nat, o: nat) {
    o <= |vals| && out == Added(buf, StridedWrites(vals, stride)[..o])
  }

  /** Before the first tap of a pair, nothing has been accumulated yet. */
  lemma PairStart(b: seq<real>, p0: nat, p1: nat)
    requires p0 != p1 && p0 < |b| && p1 < |b|
    ensures Pair(b, b, p0, p1, 0.0, 0.0)
  {
    assert b[p0 := b[p0] + 0.0][p1 := b[p1] + 0.0] == b;
  }

  /** A finished pair is the next two accumulations of any run `w` of them. */
  lemma PairWrites(out: seq<real>, b: seq<real>, buf: seq<real>, w: seq<Write>, m: nat, p0: nat, p1: nat, s0: real, s1: real)
    requires m + 1 < |w| && b == Added(buf, w[..m])
    requires w[m] == Write(p0, s0) && w[m + 1] == Write(p1, s1) && Pair(out, b, p0, p1, s0, s1)
    ensures out == Added(buf, w[..m + 2])
  {
    assert w[..m + 1] == w[..m] + [w[m]];
    assert w[..m + 2] == w[..m + 1] + [w[m + 1]];
    AddedSnoc(buf, w[..m], w[m].at, w[m].value);
    AddedSnoc(buf, w[..m + 1], w[m + 1].at, w[m + 1].value);
  }

  /** Completing the pair of outputs `o` and `o + 1` accumulates two more outputs. */
  lemma PairDone(out: seq<real>, b: seq<real>, buf: seq<real>, vals: seq<real>, stride: nat, o: nat)
    requires Accumulated(b, buf, vals, stride, o) && o + 1 < |vals|
    requires Pair(out, b, o * stride, (o + 1) * stride, vals[o], vals[o + 1])
    ensures Accumulated(out, buf, vals, stride, o + 2)
  {
    PairWrites(out, b, buf, StridedWrites(vals, stride), o, o * stride, (o + 1) * stride, vals[o], vals[o + 1]);
  }

  /** A pair of outputs that are both zero leaves the buffer as it was. */
  lemma PairZero(out: seq<real>, buf: seq<real>, vals: seq<real>, stride: nat, o: nat)
    requires Accumulated(out, buf, vals, stride, o) && o + 1 < |vals| && vals[o] == 0.0 && vals[o + 1] == 0.0
    ensures Accumulated(out, buf, vals, stride, o + 2)
  {
    var w := StridedWrites(vals, stride);
    assert w[..o + 1] == w[..o] + [Write(o * stride, 0.0)];
    assert w[..o + 2] == w[..o + 1] + [Write((o + 1) * stride, 0.0)];
    AddedSnoc(buf, w[..o], o * stride, 0.0);
    BumpZero(out, o * stride);
    AddedSnoc(buf, w[..o + 1], (o + 1) * stride, 0.0);
    BumpZero(out, (o + 1) * stride);
  }

  // ---------------------------------------------------------------------------
  // Full reconstruction: `_upsampling_convolution_full`.

  /** Taps below `lo` fall right of the row and taps from `hi` fall left of it, so only `lo .. hi - 1` count. */
  lemma RowSumWithin(a: seq<real>, filter: seq<real>, x: int, lo: nat, hi: nat)
    requires hi <= |filter| && (lo > 0 ==> x - (lo - 1) >= |a|) && (hi < |filter| ==> x - hi < 0)
    ensures lo < hi ==> RowSum(a, filter, x, lo, hi) == RowSum(a, filter, x, 0, |filter|)
    ensures hi <= lo ==> RowSum(a, filter, x, 0, |filter|) == 0.0
  {
    if lo < hi {
      RowSumSplit(a, filter, x, 0, lo, |filter|);
      RowSumSplit(a, filter, x, lo, hi, |filter|);
      RowSumOutside(a, filter, x, 0, lo);
      RowSumOutside(a, filter, x, hi, |filter|);
    } else {
      RowSumSplit(a, filter, x, 0, hi, |filter|);
      RowSumOutside(a, filter, x, 0, hi);
      RowSumOutside(a, filter, x, hi, |filter|);
    }
  }

  /** The taps outer step `i` of the full reconstruction visits: its four loops in one formula. */
  function FullLow(n: nat, i: nat): nat {
    if i < n then 0 else i + 1 - n
  }

  function FullHigh(f: nat, i: nat): nat {
    if i < f / 2 then i + 1 else f / 2
  }

  /** The taps step `i` visits carry both of its outputs; an empty range means both are zero or past the end. */
  lemma FullStepSums(a: seq<real>, filter: seq<real>, i: nat)
    requires |filter| >= 2 && i < |a| + |filter| / 2
    ensures FullLow(|a|, i) < FullHigh(|filter|, i) ==>
      2 * i + 1 < |UpsampledFull(a, filter)|
      && FullAt(a, filter, 2 * i) == RowSum(a, Phase(filter, 0), i, FullLow(|a|, i), FullHigh(|filter|, i))
      && FullAt(a, filter, 2 * i + 1) == RowSum(a, Phase(filter, 1), i, FullLow(|a|, i), FullHigh(|filter|, i))
    ensures FullHigh(|filter|, i) <= FullLow(|a|, i) && 2 * i < |UpsampledFull(a, filter)| ==>
      2 * i + 1 < |UpsampledFull(a, filter)| && FullAt(a, filter, 2 * i) == 0.0 && FullAt(a, filter, 2 * i + 1) == 0.0
  {
    assert (2 * i) % 2 == 0 && (2 * i) / 2 == i && (2 * i + 1) % 2 == 1 && (2 * i + 1) / 2 == i;
    RowSumWithin(a, Phase(filter, 0), i, FullLow(|a|, i), FullHigh(|filter|, i));
    RowSumWithin(a, Phase(filter, 1), i, FullLow(|a|, i), FullHigh(|filter|, i));
  }

  /** The two slots of a pair lie inside the buffer and apart, for every stride. */
  lemma PairSlots(o: nat, m: nat, stride: nat, len: nat)
    requires stride >= 1 && o + 1 < m && (m - 1) * stride < len
    ensures 0 <= o * stride < (o + 1) * stride < len
  {
    MulStrict(o, o + 1, stride);
    MulMono(o + 1, m - 1, stride);
  }

  /** A finished step `i` of the full reconstruction accumulates outputs `2i` and `2i + 1`. */
  lemma FullStepDone(out: seq<real>, b: seq<real>, buf: seq<real>, a: seq<real>, filter: seq<real>, stride: nat,
                     i: nat, o: nat, s0: real, s1: real)
    requires |filter| >= 2 && i < |a| + |filter| / 2 && o == 2 * i
    requires FullLow(|a|, i) < FullHigh(|filter|, i) || o < |UpsampledFull(a, filter)|
    requires Accumulated(b, buf, UpsampledFull(a, filter), stride, o)
    requires FullLow(|a|, i) < FullHigh(|filter|, i) ==>
      Pair(out, b, o * stride, (o + 1) * stride, s0, s1)
      && s0 == RowSum(a, Phase(filter, 0), i, FullLow(|a|, i), FullHigh(|filter|, i))
      && s1 == RowSum(a, Phase(filter, 1), i, FullLow(|a|, i), FullHigh(|filter|, i))
    requires FullHigh(|filter|, i) <= FullLow(|a|, i) ==> out == b
    ensures o + 2 <= |UpsampledFull(a, filter)| && Accumulated(out, buf, UpsampledFull(a, filter), stride, o + 2)
  {
    var vals := UpsampledFull(a, filter);
    var lo, hi := FullLow(|a|, i), FullHigh(|filter|, i);
    if lo < hi {
      assert 2 * i + 1 < |vals| && vals[2 * i] == RowSum(a, Phase(filter, 0), i, lo, hi)
        && vals[2 * i + 1] == RowSum(a, Phase(filter, 1), i, lo, hi) by {
        FullStepSums(a, filter, i);
      }
      PairDone(out, b, buf, vals, stride, o);
    } else {
      assert 2 * i + 1 < |vals| && vals[2 * i] == 0.0 && vals[2 * i + 1] == 0.0 by {
        FullStepSums(a, filter, i);
      }
      PairZero(out, buf, vals, stride, o);
    }
  }

  /**
   * One outer step `i` of the full reconstruction, as the stage loops of the
   * source run it: the taps `FullLow .. FullHigh - 1` of both phases are
   * accumulated into slots `o` and `o + 1`; an empty tap range touches nothing.
   */
  method FullPairStep(input: seq<real>, n: nat, stride: nat, ghost a: seq<real>, filter: seq<real>, output: array<real>,
                      i: nat, o: nat)
    requires Stores(input, n, stride, a) && stride >= 1 && |filter| >= 2
    requires (|UpsampledFull(a, filter)| - 1) * stride < output.Length && i < n + |filter| / 2 && o == 2 * i
    modifies output
    ensures 0 <= o * stride
    ensures FullLow(n, i) < FullHigh(|filter|, i) ==>
      Pair(output[..], old(output[..]), o * stride, (o + 1) * stride,
           RowSum(a, Phase(filter, 0), i, FullLow(n, i), FullHigh(|filter|, i)),
           RowSum(a, Phase(filter, 1), i, FullLow(n, i), FullHigh(|filter|, i)))
    ensures FullHigh(|filter|, i) <= FullLow(n, i) ==> output[..] == old(output[..])
  {
    var lo := if i < n then 0 else i + 1 - n;
    var hi := if i < |filter| / 2 then i + 1 else |filter| / 2;
    assert lo == FullLow(n, i) && hi == FullHigh(|filter|, i);
    ghost var b := output[..];
    assert 0 <= o * stride && 0 <= (o + 1) * stride by {
      MulMono(0, o, stride);
      MulMono(0, o + 1, stride);
    }
    var p0: nat, p1: nat := o * stride, (o + 1) * stride;
    if lo < hi {
      assert p1 < output.Length && Pair(b, b, p0, p1, 0.0, 0.0) by {
        assert i + 1 < n + |filter| / 2;
        PairSlots(o, |UpsampledFull(a, filter)|, stride, output.Length);
        PairStart(b, p0, p1);
      }
    }
    PairInside(output, p0, p1, b, 0.0, 0.0, input, n, stride, a, filter, i, lo, hi);
  }

  /**
   * `_upsampling_convolution_full` once its filter checks have passed:
   * every output `q` of the full reconstruction is accumulated into slot
   * `q * stride`, and nothing else changes.
   */
  method FullKernel(input: seq<real>, n: nat, stride: nat, ghost a: seq<real>, filter: seq<real>, output: array<real>)
    requires Stores(input, n, stride, a) && |filter| >= 2
    requires (|UpsampledFull(a, filter)| - 1) * stride < output.Length
    modifies output
    ensures output[..] == Added(old(output[..]), StridedWrites(UpsampledFull(a, filter), stride))
  {
    ghost var buf := output[..];
    ghost var vals := UpsampledFull(a, filter);
    assert StridedWrites(vals, stride)[..0] == [];
    var i, o := 0, 0;
    while i < n + |filter| / 2
      invariant i <= n + |filter| / 2 && o == 2 * i
      invariant Accumulated(output[..], buf, vals, stride, if o <= |vals| then o else |vals|)
    {
      ghost var b := output[..];
      FullPairStep(input, n, stride, a, filter, output, i, o);
      if FullLow(n, i) < FullHigh(|filter|, i) || o < |vals| {
        FullStepDone(output[..], b, buf, a, filter, stride, i, o,
                     RowSum(a, Phase(filter, 0), i, FullLow(n, i), FullHigh(|filter|, i)),
                     RowSum(a, Phase(filter, 1), i, FullLow(n, i), FullHigh(|filter|, i)));
      }
      i, o := i + 1, o + 2;
    }
    assert StridedWrites(vals, stride)[..|vals|] == StridedWrites(vals, stride);
  }

  // ---------------------------------------------------------------------------
  // Valid-part reconstruction: `_upsampling_convolution_valid_sf`, non-periodization modes.

  /** The inner loop of one step: both phase sums of input position `i`, kept in local accumulators. */
  method PhaseSums(input: seq<real>, n: nat, stride: nat, ghost a: seq<real>, filter: seq<real>, i: nat)
    returns (even: real, odd: real)
    requires Stores(input, n, stride, a) && i < n && |filter| / 2 <= i + 1
    ensures even == RowSum(a, Phase(filter, 0), i, 0, |filter| / 2)
    ensures odd == RowSum(a, Phase(filter, 1), i, 0, |filter| / 2)
  {
    even, odd := 0.0, 0.0;
    var j := 0;
    while j < |filter| / 2
      invariant j <= |filter| / 2
      invariant even == RowSum(a, Phase(filter, 0), i, 0, j) && odd == RowSum(a, Phase(filter, 1), i, 0, j)
    {
      var v := Sample(input, n, stride, i - j);
      PairTap(a, filter, i, 0, j, v, filter[2 * j] * v, filter[2 * j + 1] * v);
      even := even + filter[2 * j] * v;
      odd := odd + filter[2 * j + 1] * v;
      j := j + 1;
    }
  }

  /** Adding the two sums of step `i` accumulates outputs `o` and `o + 1`. */
  lemma ValidStepDone(out: seq<real>, b: seq<real>, buf: seq<real>, a: seq<real>, filter: seq<real>, stride: nat,
                      i: nat, o: nat, s0: real, s1: real)
    requires 1 <= |filter| / 2 <= |a| && o % 2 == 0 && i == o / 2 + |filter| / 2 - 1 && i < |a|
    requires Accumulated(b, buf, UpsampledValid(a, filter), stride, o)
    requires Pair(out, b, o * stride, (o + 1) * stride, 0.0 + s0, 0.0 + s1)
    requires s0 == RowSum(a, Phase(filter, 0), i, 0, |filter| / 2) && s1 == RowSum(a, Phase(filter, 1), i, 0, |filter| / 2)
    ensures o + 2 <= |UpsampledValid(a, filter)| && Accumulated(out, buf, UpsampledValid(a, filter), stride, o + 2)
  {
    var vals := UpsampledValid(a, filter);
    assert o + 1 < |vals| && vals[o] == s0 && vals[o + 1] == s1 by {
      assert (o + 1) % 2 == 1 && (o + 1) / 2 == o / 2;
    }
    PairDone(out, b, buf, vals, stride, o);
  }

  /** One step of the valid-part reconstruction: two local sums, then two accumulations. */
  method ValidPairStep(input: seq<real>, n: nat, stride: nat, ghost a: seq<real>, filter: seq<real>, output: array<real>,
                       ghost buf: seq<real>, i: nat, o: nat)
    requires Stores(input, n, stride, a) && stride >= 1 && 1 <= |filter| / 2 <= n
    requires (|UpsampledValid(a, filter)| - 1) * stride < output.Length
    requires o % 2 == 0 && i == o / 2 + |filter| / 2 - 1 && i < n
    requires Accumulated(output[..], buf, UpsampledValid(a, filter), stride, o)
    modifies output
    ensures o + 2 <= |UpsampledValid(a, filter)| && Accumulated(output[..], buf, UpsampledValid(a, filter), stride, o + 2)
  {
    var even, odd := PhaseSums(input, n, stride, a, filter, i);
    ghost var b := output[..];
    assert 0 <= o * stride < (o + 1) * stride && Pair(b, b, o * stride, (o + 1) * stride, 0.0, 0.0) by {
      PairSlots(o, |UpsampledValid(a, filter)|, stride, output.Length);
      PairStart(b, o * stride, (o + 1) * stride);
    }
    PairAdd(output, o * stride, (o + 1) * stride, b, 0.0, 0.0, even, odd);
    ValidStepDone(output[..], b, buf, a, filter, stride, i, o, even, odd);
  }

  /**
   * `_upsampling_convolution_valid_sf` once its checks have passed: for
   * every input position `i` in `F/2 - 1 .. N - 1`, where the whole filter
   * overlaps the row, the two phase sums are accumulated into slots
   * `o * stride` and `(o + 1) * stride`.
   */
  method ValidKernel(input: seq<real>, n: nat, stride: nat, ghost a: seq<real>, filter: seq<real>, output: array<real>)
    requires Stores(input, n, stride, a) && stride >= 1 && |filter| / 2 <= n < SIZE_LIMIT
    requires (|UpsampledValid(a, filter)| - 1) * stride < output.Length
    modifies output
    ensures output[..] == Added(old(output[..]), StridedWrites(UpsampledValid(a, filter), stride))
  {
    ghost var buf, vals := output[..], UpsampledValid(a, filter);
    assert StridedWrites(vals, stride)[..0] == [];
    var o, i := 0, SizeT(|filter| / 2 - 1);
    while i < n
      invariant |filter| / 2 == 0 ==> o == 0 && n <= i
      invariant |filter| / 2 >= 1 ==> o % 2 == 0 && i == o / 2 + |filter| / 2 - 1 && i <= n
      invariant Accumulated(output[..], buf, vals, stride, o)
    {
      ValidPairStep(input, n, stride, a, filter, output, buf, i, o);
      i, o := i + 1, o + 2;
    }
    assert o == |vals|;
    assert StridedWrites(vals, stride)[..|vals|] == StridedWrites(vals, stride);
  }

  // ---------------------------------------------------------------------------
  // Periodization reconstruction: `_upsampling_convolution_valid_sf_periodization`.

  /** The three tap ranges of one step make up the whole filter. */
  lemma PeriodizedJoin(a: seq<real>, filter: seq<real>, i: nat, j: nat, hi: nat,
                       r0: real, r1: real, m0: real, m1: real, l0: real, l1: real)
    requires |a| >= 1 && j <= hi <= |filter| / 2 && (j < hi ==> 0 <= i - (hi - 1) && i - j < |a|)
    requires r0 == TapSum(Periodic, a, Phase(filter, 0), i, 0, j) && r1 == TapSum(Periodic, a, Phase(filter, 1), i, 0, j)
    requires m0 == RowSum(a, Phase(filter, 0), i, j, hi) && m1 == RowSum(a, Phase(filter, 1), i, j, hi)
    requires l0 == TapSum(Periodic, a, Phase(filter, 0), i, hi, |filter| / 2)
    requires l1 == TapSum(Periodic, a, Phase(filter, 1), i, hi, |filter| / 2)
    ensures r0 + m0 + l0 == TapSum(Periodic, a, Phase(filter, 0), i, 0, |filter| / 2)
    ensures r1 + m1 + l1 == TapSum(Periodic, a, Phase(filter, 1), i, 0, |filter| / 2)
  {
    assert a[..|a|] == a;
    TapSumInRow(Periodic, a, a, Phase(filter, 0), i, j, hi);
    TapSumInRow(Periodic, a, a, Phase(filter, 1), i, j, hi);
    PairJoin(a, filter, i, 0, j, hi, m0, m1, r0, r1);
    PairJoin(a, filter, i, 0, hi, |filter| / 2, l0, l1, m0 + r0, m1 + r1);
  }

  /**
   * The body of one outer step, centred on input position `i`: the taps right
   * of the row wrap around it, the taps inside read it directly, and the taps
   * left of it wrap around from its end. Every stage loop of the source runs
   * this body, with the parts that cannot apply to its range of `i` left out.
   */
  method PeriodizedPair(output: array<real>, p0: nat, p1: nat, ghost b: seq<real>,
                        input: seq<real>, n: nat, stride: nat, ghost a: seq<real>, filter: seq<real>, i: nat)
    requires Stores(input, n, stride, a) && n >= 1 && i - n < |filter| / 2
    requires Pair(output[..], b, p0, p1, 0.0, 0.0)
    modifies output
    ensures Pair(output[..], b, p0, p1, TapSum(Periodic, a, Phase(filter, 0), i, 0, |filter| / 2),
                 TapSum(Periodic, a, Phase(filter, 1), i, 0, |filter| / 2))
  {
    var j, r0, r1 := PairRightPeriodic(output, p0, p1, b, 0.0, 0.0, input, n, stride, a, filter, i);
    var hi := if i + 1 < |filter| / 2 then i + 1 else |filter| / 2;
    PairInside(output, p0, p1, b, 0.0 + r0, 0.0 + r1, input, n, stride, a, filter, i, j, hi);
    ghost var m0, m1 := RowSum(a, Phase(filter, 0), i, j, hi), RowSum(a, Phase(filter, 1), i, j, hi);
    ghost var l0, l1 := PairLeftPeriodic(output, p0, p1, b, r0 + m0, r1 + m1, input, n, stride, a, filter, i, hi);
    PeriodizedJoin(a, filter, i, j, hi, r0, r1, m0, m1, l0, l1);
  }

  /** Which slot and which output the `m`-th accumulation of the periodization reconstruction carries. */
  lemma PeriodizedWritesAt(vals: seq<real>, stride: nat, shifted: bool, m: nat)
    requires |vals| >= 2 && m < |vals|
    ensures !shifted ==> PeriodizedWrites(vals, stride, shifted)[m] == Write(m * stride, vals[m])
    ensures shifted && m == 0 ==> PeriodizedWrites(vals, stride, shifted)[m] == Write((|vals| - 1) * stride, vals[|vals| - 1])
    ensures shifted && m == 1 ==> PeriodizedWrites(vals, stride, shifted)[m] == Write(0, vals[0])
    ensures shifted && m >= 2 ==> PeriodizedWrites(vals, stride, shifted)[m] == Write((m - 1) * stride, vals[m - 1])
  {
  }

  /** The order of accumulation does not matter: each slot receives the same total either way. */
  lemma PeriodizedReorder(buf: seq<real>, vals: seq<real>, stride: nat, shifted: bool)
    requires |vals| >= 2
    ensures Added(buf, PeriodizedWrites(vals, stride, shifted)) == Added(buf, StridedWrites(vals, stride))
  {
    if shifted {
      var s := StridedWrites(vals, stride);
      var m := |vals| - 1;
      var mid := s[1..m];
      assert PeriodizedWrites(vals, stride, shifted) == [s[m]] + ([s[0]] + mid);
      assert s == ([s[0]] + mid) + [s[m]];
      forall q | 0 <= q < |buf|
        ensures Added(buf, PeriodizedWrites(vals, stride, shifted))[q] == Added(buf, s)[q]
      {
        AddedAt(buf, PeriodizedWrites(vals, stride, shifted), q);
        AddedAt(buf, s, q);
        SumAtAppend([s[m]], [s[0]] + mid, q);
        SumAtAppend([s[0]], mid, q);
        SumAtAppend([s[0]] + mid, [s[m]], q);
      }
    }
  }

  /** The first `m` accumulations of the periodization reconstruction are in place. */
  ghost predicate PerAccumulated(out: seq<real>, buf: seq<real>, vals: seq<real>, stride: nat, shifted: bool, m: nat) {
    |vals| >= 2 && m <= |vals| && out == Added(buf, PeriodizedWrites(vals, stride, shifted)[..m])
  }

  /** The one-slot shift of the periodization reconstruction: 1 when `F/2` is even. */
  function Shift(f: nat): (s: nat)
    ensures s <= 1 && (s == 1 <==> (f / 2) % 2 == 0)
  {
    if (f / 2) % 2 == 1 then 0 else 1
  }

  /** Loop step `i` writes slots `o = 2(i - F/4) + shift` and `o + 1`, whose centre is `i`, in phases 0 and 1. */
  lemma PeriodizedSlotsOf(n: nat, f: nat, i: nat, o: nat)
    requires n >= 1 && f >= 2 && f / 4 <= i < n + f / 4 - Shift(f) && o == 2 * (i - f / 4) + Shift(f)
    ensures o + Shift(f) + 1 < 2 * n
    ensures PeriodizedCentre(n, f, o) == i && PeriodizedPhase(f, o) == 0
    ensures PeriodizedCentre(n, f, o + 1) == i && PeriodizedPhase(f, o + 1) == 1
  {
    if Shift(f) == 1 {
      assert (o - 1) / 2 == i - f / 4 && (o - 1) % 2 == 0;
      assert o / 2 == i - f / 4 && o % 2 == 1;
    } else {
      assert o / 2 == i - f / 4 && o % 2 == 0;
      assert (o + 1) / 2 == i - f / 4 && (o + 1) % 2 == 1;
    }
  }

  /** The pair of slots `o`, `o + 1`, both centred on `i`, finishes accumulations `m` and `m + 1`. */
  lemma PeriodizedStepDone(out: seq<real>, b: seq<real>, buf: seq<real>, a: seq<real>, filter: seq<real>, stride: nat,
                           shifted: bool, i: nat, o: nat, m: nat, p0: nat, p1: nat)
    requires |a| >= 1 && m == o + (if shifted then 1 else 0) && m + 1 < 2 * |a| && (shifted ==> o >= 1)
    requires PeriodizedCentre(|a|, |filter|, o) == i && PeriodizedPhase(|filter|, o) == 0
    requires PeriodizedCentre(|a|, |filter|, o + 1) == i && PeriodizedPhase(|filter|, o + 1) == 1
    requires PerAccumulated(b, buf, UpsampledPeriodized(a, filter), stride, shifted, m)
    requires p0 == o * stride && p1 == (o + 1) * stride
    requires Pair(out, b, p0, p1, TapSum(Periodic, a, Phase(filter, 0), i, 0, |filter| / 2),
                  TapSum(Periodic, a, Phase(filter, 1), i, 0, |filter| / 2))
    ensures PerAccumulated(out, buf, UpsampledPeriodized(a, filter), stride, shifted, m + 2)
  {
    var vals := UpsampledPeriodized(a, filter);
    assert vals[o] == PeriodizedAt(a, filter, o) && vals[o + 1] == PeriodizedAt(a, filter, o + 1);
    SlotPair(out, b, buf, vals, stride, shifted, o, m, p0, p1, vals[o], vals[o + 1]);
  }

  /** Any outputs: accumulating outputs `o` and `o + 1` into their slots finishes accumulations `m` and `m + 1`. */
  lemma SlotPair(out: seq<real>, b: seq<real>, buf: seq<real>, vals: seq<real>, stride: nat, shifted: bool,
                 o: nat, m: nat, p0: nat, p1: nat, s0: real, s1: real)
    requires |vals| >= 2 && m == o + (if shifted then 1 else 0) && m + 1 < |vals| && (shifted ==> o >= 1)
    requires vals[o] == s0 && vals[o + 1] == s1 && p0 == o * stride && p1 == (o + 1) * stride
    requires PerAccumulated(b, buf, vals, stride, shifted, m) && Pair(out, b, p0, p1, s0, s1)
    ensures PerAccumulated(out, buf, vals, stride, shifted, m + 2)
  {
    PeriodizedWritesAt(vals, stride, shifted, m);
    PeriodizedWritesAt(vals, stride, shifted, m + 1);
    PairWrites(out, b, buf, PeriodizedWrites(vals, stride, shifted), m, p0, p1, s0, s1);
  }

  /** Loop step `i` of the periodization reconstruction, in slots `o` and `o + 1`, accumulates the next two outputs. */
  lemma PeriodizedAdvance(out: seq<real>, b: seq<real>, buf: seq<real>, a: seq<real>, filter: seq<real>, stride: nat, i: nat, o: nat)
    requires |a| >= 1 && |filter| >= 2
    requires |filter| / 4 <= i < |a| + |filter| / 4 - Shift(|filter|) && o == 2 * (i - |filter| / 4) + Shift(|filter|)
    requires PerAccumulated(b, buf, UpsampledPeriodized(a, filter), stride, Shift(|filter|) == 1, o + Shift(|filter|))
    requires 0 <= o * stride
    requires Pair(out, b, o * stride, (o + 1) * stride,
                  TapSum(Periodic, a, Phase(filter, 0), i, 0, |filter| / 2), TapSum(Periodic, a, Phase(filter, 1), i, 0, |filter| / 2))
    ensures PerAccumulated(out, buf, UpsampledPeriodized(a, filter), stride, Shift(|filter|) == 1, o + Shift(|filter|) + 2)
  {
    PeriodizedSlotsOf(|a|, |filter|, i, o);
    PeriodizedStepDone(out, b, buf, a, filter, stride, Shift(|filter|) == 1, i, o, o + Shift(|filter|), o * stride, (o + 1) * stride);
  }

  /** The pair of the last step, accumulated first into slots `2N - 1` (at `p0`) and `0`, is the first two accumulations. */
  lemma PeriodizedShiftDone(out: seq<real>, buf: seq<real>, a: seq<real>, filter: seq<real>, stride: nat, p0: nat, s0: real, s1: real)
    requires |a| >= 1 && |filter| >= 2 && (|filter| / 2) % 2 == 0 && p0 == (2 * |a| - 1) * stride
    requires s0 == TapSum(Periodic, a, Phase(filter, 0), |a| + |filter| / 4 - 1, 0, |filter| / 2)
    requires s1 == TapSum(Periodic, a, Phase(filter, 1), |a| + |filter| / 4 - 1, 0, |filter| / 2)
    requires Pair(out, buf, p0, 0, s0, s1)
    ensures PerAccumulated(out, buf, UpsampledPeriodized(a, filter), stride, true, 2)
  {
    ShiftedValues(a, filter);
    ShiftedPair(out, buf, UpsampledPeriodized(a, filter), stride, 2 * |a| - 1, p0, s0, s1);
  }

  /** With the shift, slot `2N - 1` (phase 0) and slot 0 (phase 1) are both centred on `N + F/4 - 1`. */
  lemma ShiftedValues(a: seq<real>, filter: seq<real>)
    requires |a| >= 1 && (|filter| / 2) % 2 == 0
    ensures UpsampledPeriodized(a, filter)[2 * |a| - 1] == TapSum(Periodic, a, Phase(filter, 0), |a| + |filter| / 4 - 1, 0, |filter| / 2)
    ensures UpsampledPeriodized(a, filter)[0] == TapSum(Periodic, a, Phase(filter, 1), |a| + |filter| / 4 - 1, 0, |filter| / 2)
  {
    var vals := UpsampledPeriodized(a, filter);
    var last, c := 2 * |a| - 1, |a| + |filter| / 4 - 1;
    assert PeriodizedCentre(|a|, |filter|, last) == c && PeriodizedPhase(|filter|, last) == 0;
    assert PeriodizedCentre(|a|, |filter|, 0) == c && PeriodizedPhase(|filter|, 0) == 1;
    assert vals[last] == PeriodizedAt(a, filter, last) && vals[0] == PeriodizedAt(a, filter, 0);
  }

  /** Any outputs: with the shift, accumulating the last output into its slot and then the first finishes the first two accumulations. */
  lemma ShiftedPair(out: seq<real>, buf: seq<real>, vals: seq<real>, stride: nat, last: nat, p0: nat, s0: real, s1: real)
    requires |vals| >= 2 && last == |vals| - 1 && p0 == last * stride
    requires vals[last] == s0 && vals[0] == s1 && Pair(out, buf, p0, 0, s0, s1)
    ensures PerAccumulated(out, buf, vals, stride, true, 2)
  {
    var w := PeriodizedWrites(vals, stride, true);
    PeriodizedWritesAt(vals, stride, true, 0);
    PeriodizedWritesAt(vals, stride, true, 1);
    assert w[..0] == [];
    PairWrites(out, buf, buf, w, 0, p0, 0, s0, s1);
  }

  /** One step of the stage loops: the pair centred on `i` is accumulated into slots `o` and `o + 1`. */
  method PeriodizedStep(input: seq<real>, n: nat, stride: nat, ghost a: seq<real>, filter: seq<real>, output: array<real>,
                        i: nat, o: nat)
    requires Stores(input, n, stride, a) && stride >= 1 && n >= 1 && i - n < |filter| / 2
    requires (2 * n - 1) * stride < output.Length && o + 1 < 2 * n
    modifies output
    ensures 0 <= o * stride
    ensures Pair(output[..], old(output[..]), o * stride, (o + 1) * stride,
                 TapSum(Periodic, a, Phase(filter, 0), i, 0, |filter| / 2), TapSum(Periodic, a, Phase(filter, 1), i, 0, |filter| / 2))
  {
    ghost var b := output[..];
    assert 0 <= o * stride < (o + 1) * stride && Pair(b, b, o * stride, (o + 1) * stride, 0.0, 0.0) by {
      PairSlots(o, 2 * n, stride, output.Length);
      PairStart(b, o * stride, (o + 1) * stride);
    }
    PeriodizedPair(output, o * stride, (o + 1) * stride, b, input, n, stride, a, filter, i);
  }

  /**
   * The shifted first slot of the periodization reconstruction: when `F/2` is
   * even, slot 0 and slot `2N - 1` are written before the loop; returns how
   * many slots the loop starts past.
   */
  method PeriodizedHead(input: seq<real>, n: nat, stride: nat, ghost a: seq<real>, filter: seq<real>, output: array<real>)
    returns (o: nat)
    requires Stores(input, n, stride, a) && stride >= 1 && n >= 1 && |filter| >= 2
    requires (2 * n - 1) * stride < output.Length
    modifies output
    ensures o == Shift(|filter|)
    ensures PerAccumulated(output[..], old(output[..]), UpsampledPeriodized(a, filter), stride, Shift(|filter|) == 1, 2 * o)
  {
    ghost var buf, vals := output[..], UpsampledPeriodized(a, filter);
    o := 0;
    if (|filter| / 2) % 2 == 0 {
      assert 0 <= (2 * n - 1) * stride && Pair(buf, buf, (2 * n - 1) * stride, 0, 0.0, 0.0) by {
        MulStrict(0, 2 * n - 1, stride);
        PairStart(buf, (2 * n - 1) * stride, 0);
      }
      PeriodizedPair(output, (2 * n - 1) * stride, 0, buf, input, n, stride, a, filter, n + |filter| / 4 - 1);
      PeriodizedShiftDone(output[..], buf, a, filter, stride, (2 * n - 1) * stride,
                          TapSum(Periodic, a, Phase(filter, 0), n + |filter| / 4 - 1, 0, |filter| / 2),
                          TapSum(Periodic, a, Phase(filter, 1), n + |filter| / 4 - 1, 0, |filter| / 2));
      o := 1;
    } else {
      assert PeriodizedWrites(vals, stride, false)[..0] == [];
    }
  }

  /**
   * `_upsampling_convolution_valid_sf_periodization` once its filter check
   * has passed: output slot `q` (`q < 2N`) receives the pair sum of
   * `PeriodizedAt`, in the order `PeriodizedWrites` gives; when `F/2` is even
   * the pair of the last step is accumulated first, into slots `2N - 1` and `0`.
   */
  method PeriodizedKernel(input: seq<real>, n: nat, stride: nat, ghost a: seq<real>, filter: seq<real>, output: array<real>)
    requires Stores(input, n, stride, a) && stride >= 1 && n >= 1 && |filter| >= 2
    requires (2 * n - 1) * stride < output.Length
    modifies output
    ensures output[..] == Added(old(output[..]), PeriodizedWrites(UpsampledPeriodized(a, filter), stride, (|filter| / 2) % 2 == 0))
    ensures output[..] == Added(old(output[..]), StridedWrites(UpsampledPeriodized(a, filter), stride))
  {
    ghost var buf, vals := output[..], UpsampledPeriodized(a, filter);
    ghost var shifted := Shift(|filter|) == 1;
    var start := |filter| / 4;
    var i := start;
    var end := n + start - Shift(|filter|);
    var o := PeriodizedHead(input, n, stride, a, filter, output);
    while i < end
      invariant start <= i <= end && o == 2 * (i - start) + Shift(|filter|)
      invariant PerAccumulated(output[..], buf, vals, stride, shifted, o + Shift(|filter|))
    {
      ghost var b := output[..];
      PeriodizedStep(input, n, stride, a, filter, output, i, o);
      PeriodizedAdvance(output[..], b, buf, a, filter, stride, i, o);
      i, o := i + 1, o + 2;
    }
    assert PeriodizedWrites(vals, stride, shifted)[..o + Shift(|filter|)] == PeriodizedWrites(vals, stride, shifted);
    assert Added(buf, PeriodizedWrites(vals, stride, shifted)) == Added(buf, StridedWrites(vals, stride)) by {
      PeriodizedReorder(buf, vals, stride, shifted);
    }
  }
}
