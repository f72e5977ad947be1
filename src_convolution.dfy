/**
 * The strided convolution routines of the C library
 * (`pywt/src/convolution.template.c`): the same staged kernels as the
 * extension module, reading sample `k` at `input[k * stride]` and writing
 * output `o` at `output[o * stride]`, so that a row of an n-dimensional
 * array can be processed in place.
 *
 * Two routines differ from the extension module as written: their middle
 * downsampling stage stores output `o` at `output[o]` rather than at
 * `output[o * stride]`, and the periodization padding is `N % 2` whatever
 * the step. The full reconstruction has no odd-length check.
 */
module SrcConvolution {
  import opened Arith
  import opened Extension
  import opened Writes
  import opened Downsampling
  import opened Upsampling

  /** The padding of this library's periodization kernel: one copy of the last sample for odd `N`, whatever the step. */
  function SrcPadding(n: nat): (p: nat)
    ensures p <= 1 && (n + p) % 2 == 0
  {
    n % 2
  }

  /** A strided row stores its own view. */
  lemma StoresStrided(input: seq<real>, n: nat, stride: nat)
    requires Fits(input, n, stride)
    ensures Stores(input, n, stride, View(input, n, stride))
  {
    StoresView(input, n, stride, View(input, n, stride));
  }

  /**
   * `_downsampling_convolution_periodization` as written: the middle stage
   * (centres in `min(F, N) .. N - 1`) stores output `o` at `output[o]`, the
   * other stages at `output[o * stride]`.
   */
  method DownsamplingConvolutionPeriodization(input: seq<real>, n: nat, filter: seq<real>, output: array<real>,
                                              stride: nat, step: nat)
    returns (status: int)
    requires Fits(input, n, stride) && step >= 1
    requires (PeriodizedCount(n, step) - 1) * stride < output.Length
    modifies output
    ensures status == 0
    ensures n == 0 ==> output[..] == old(output[..])
    ensures n >= 1 ==> output[..] == Stored(old(output[..]),
      StageWrites(Periodized(View(input, n, stride), filter, step, SrcPadding(n)), stride, 1, |filter| / 2, step, n, |filter|))
  {
    if n == 0 {
      // The first centre, `F/2`, already fails every stage bound (`i < N`, `i < N + F/2`).
      return 0;
    }
    StoresStrided(input, n, stride);
    var padding := n % 2;
    PeriodizationKernel(input, n, stride, 1, View(input, n, stride), filter, output, step, padding);
    status := 0;
  }

  /**
   * `_downsampling_convolution` as written: every `step`-th output of the
   * convolution of the extended row, the middle stage storing output `o` at
   * `output[o]` and the others at `output[o * stride]`. Periodization goes to
   * its own routine, the only one that accepts an empty row (and writes
   * nothing for it).
   */
  method DownsamplingConvolution(input: seq<real>, n: nat, filter: seq<real>, output: array<real>,
                                 stride: nat, step: nat, mode: Mode)
    returns (status: int)
    requires Fits(input, n, stride) && step >= 1 && (mode != Periodization ==> n >= 1)
    requires mode == Periodization ==> (PeriodizedCount(n, step) - 1) * stride < output.Length
    requires mode != Periodization ==> (DownCount(n, |filter|, step) - 1) * stride < output.Length
    modifies output
    ensures status == 0
    ensures n == 0 ==> output[..] == old(output[..])
    ensures mode == Periodization && n >= 1 ==> output[..] == Stored(old(output[..]),
      StageWrites(Periodized(View(input, n, stride), filter, step, SrcPadding(n)), stride, 1, |filter| / 2, step, n, |filter|))
    ensures mode != Periodization ==> output[..] == Stored(old(output[..]),
      StageWrites(Downsampled(mode, View(input, n, stride), filter, step), stride, 1, step - 1, step, n, |filter|))
  {
    if mode == Periodization {
      status := DownsamplingConvolutionPeriodization(input, n, filter, output, stride, step);
      return;
    }
    StoresStrided(input, n, stride);
    DownsamplingKernel(input, n, stride, 1, View(input, n, stride), filter, output, step, mode);
    status := 0;
  }

  /**
   * `_downsampling_convolution_periodization` with its middle stage storing
   * at `output[o * stride]` like the others: output `o` lands at `o * stride`.
   */
  method DownsamplingConvolutionPeriodizationStrided(input: seq<real>, n: nat, filter: seq<real>, output: array<real>,
                                                     stride: nat, step: nat)
    returns (status: int)
    requires Fits(input, n, stride) && step >= 1
    requires (PeriodizedCount(n, step) - 1) * stride < output.Length
    modifies output
    ensures status == 0
    ensures n == 0 ==> output[..] == old(output[..])
    ensures n >= 1 ==> output[..] == Stored(old(output[..]), StridedWrites(Periodized(View(input, n, stride), filter, step, SrcPadding(n)), stride))
  {
    if n == 0 {
      return 0;
    }
    StoresStrided(input, n, stride);
    var padding := n % 2;
    PeriodizationKernel(input, n, stride, stride, View(input, n, stride), filter, output, step, padding);
    SlotWritesStrided(Periodized(View(input, n, stride), filter, step, padding), stride,
                      Centres(|filter| / 2, step, if |filter| < n then |filter| else n), Centres(|filter| / 2, step, n));
    status := 0;
  }

  /**
   * `_downsampling_convolution` with its middle stage storing at
   * `output[o * stride]` like the others: output `o` lands at `o * stride`.
   */
  method DownsamplingConvolutionStrided(input: seq<real>, n: nat, filter: seq<real>, output: array<real>,
                                        stride: nat, step: nat, mode: Mode)
    returns (status: int)
    requires Fits(input, n, stride) && step >= 1 && (mode != Periodization ==> n >= 1)
    requires mode == Periodization ==> (PeriodizedCount(n, step) - 1) * stride < output.Length
    requires mode != Periodization ==> (DownCount(n, |filter|, step) - 1) * stride < output.Length
    modifies output
    ensures status == 0
    ensures n == 0 ==> output[..] == old(output[..])
    ensures mode == Periodization && n >= 1 ==>
      output[..] == Stored(old(output[..]), StridedWrites(Periodized(View(input, n, stride), filter, step, SrcPadding(n)), stride))
    ensures mode != Periodization ==>
      output[..] == Stored(old(output[..]), StridedWrites(Downsampled(mode, View(input, n, stride), filter, step), stride))
  {
    if mode == Periodization {
      status := DownsamplingConvolutionPeriodizationStrided(input, n, filter, output, stride, step);
      return;
    }
    StoresStrided(input, n, stride);
    DownsamplingKernel(input, n, stride, stride, View(input, n, stride), filter, output, step, mode);
    SlotWritesStrided(Downsampled(mode, View(input, n, stride), filter, step), stride,
                      Centres(step - 1, step, if |filter| < n then |filter| else n), Centres(step - 1, step, n));
    status := 0;
  }

  /**
   * `_upsampling_convolution_full`: the zero-padded convolution of the
   * upsampled row accumulated at `output[q * stride]`. Only a filter shorter
   * than two taps is refused (-1, nothing written); an odd filter is taken
   * as its even prefix (see `FullOddFilter`).
   */
  method UpsamplingConvolutionFull(input: seq<real>, n: nat, filter: seq<real>, output: array<real>, stride: nat)
    returns (status: int)
    requires Fits(input, n, stride)
    requires |filter| >= 2 ==> (|UpsampledFull(View(input, n, stride), filter)| - 1) * stride < output.Length
    modifies output
    ensures status == (if |filter| < 2 then -1 else 0)
    ensures status != 0 ==> output[..] == old(output[..])
    ensures status == 0 ==>
      output[..] == Added(old(output[..]), StridedWrites(UpsampledFull(View(input, n, stride), filter), stride))
  {
    if |filter| < 2 {
      return -1;
    }
    StoresStrided(input, n, stride);
    FullKernel(input, n, stride, View(input, n, stride), filter, output);
    status := 0;
  }

  /**
   * `_upsampling_convolution_valid_sf_periodization`: the periodic
   * reconstruction accumulated at `output[q * stride]` for `q < 2N`. An odd
   * filter gives -3 and writes nothing.
   */
  method UpsamplingConvolutionValidSfPeriodization(input: seq<real>, n: nat, filter: seq<real>, output: array<real>,
                                                   stride: nat)
    returns (status: int)
    requires Fits(input, n, stride) && PeriodizedRowOk(n, |filter|) && (2 * n - 1) * stride < output.Length
    modifies output
    ensures status == (if |filter| % 2 == 1 then -3 else 0)
    ensures status != 0 || n == 0 ==> output[..] == old(output[..])
    ensures status == 0 && n >= 1 ==>
      output[..] == Added(old(output[..]), StridedWrites(UpsampledPeriodized(View(input, n, stride), filter), stride))
  {
    if |filter| % 2 == 1 {
      return -3;
    }
    if n == 0 {
      // `F/2` is odd here, so the loops cover `F/4 <= i < N + F/4`: no `i` at all.
      return 0;
    }
    StoresStrided(input, n, stride);
    PeriodizedKernel(input, n, stride, View(input, n, stride), filter, output);
    status := 0;
  }

  /**
   * `_upsampling_convolution_valid_sf`: the outputs where the whole filter
   * overlaps the row, accumulated at `output[q * stride]`. An odd filter or a
   * row shorter than `F/2` gives -1 and writes nothing; periodization goes to
   * its own routine.
   */
  method UpsamplingConvolutionValidSf(input: seq<real>, n: nat, filter: seq<real>, output: array<real>,
                                      stride: nat, mode: Mode)
    returns (status: int)
    requires Fits(input, n, stride) && n < SIZE_LIMIT
    requires mode == Periodization ==> PeriodizedRowOk(n, |filter|) && (2 * n - 1) * stride < output.Length
    requires mode != Periodization && |filter| % 2 == 0 && |filter| / 2 <= n ==>
      (|UpsampledValid(View(input, n, stride), filter)| - 1) * stride < output.Length
    modifies output
    ensures mode == Periodization ==> status == (if |filter| % 2 == 1 then -3 else 0)
    ensures mode != Periodization ==> status == (if |filter| % 2 == 1 || n < |filter| / 2 then -1 else 0)
    ensures status != 0 || (mode == Periodization && n == 0) ==> output[..] == old(output[..])
    ensures mode == Periodization && status == 0 && n >= 1 ==>
      output[..] == Added(old(output[..]), StridedWrites(UpsampledPeriodized(View(input, n, stride), filter), stride))
    ensures mode != Periodization && status == 0 ==> (
      |filter| / 2 <= n
      && output[..] == Added(old(output[..]), StridedWrites(UpsampledValid(View(input, n, stride), filter), stride)))
  {
    if mode == Periodization {
      status := UpsamplingConvolutionValidSfPeriodization(input, n, filter, output, stride);
      return;
    }
    if |filter| % 2 == 1 || n < |filter| / 2 {
      return -1;
    }
    StoresStrided(input, n, stride);
    ValidKernel(input, n, stride, View(input, n, stride), filter, output);
    status := 0;
  }

  /** `_upsampled_filter_convolution` is a stub in this library: it refuses every call and writes nothing. */
  method UpsampledFilterConvolution(input: seq<real>, n: nat, filter: seq<real>, output: array<real>, step: nat, mode: Mode)
    returns (status: int)
    ensures status == -1
  {
    status := -1;
  }

  /**
   * With no odd-length check, the full reconstruction of an odd filter
   * never reads its last tap: the result is that of the even prefix.
   */
  lemma FullOddFilter(a: seq<real>, filter: seq<real>)
    requires |filter| >= 3 && |filter| % 2 == 1
    ensures UpsampledFull(a, filter) == UpsampledFull(a, filter[..|filter| - 1])
  {
    var g := filter[..|filter| - 1];
    assert Phase(filter, 0) == Phase(g, 0);
    assert Phase(filter, 1) == Phase(g, 1);
  }

  /**
   * The stores of a two-output staged loop with centres `1, 3` on a row of
   * four samples, a two-tap filter, step 2 and stride 2, when the middle
   * stage stores at `output[o]`: the second output (the only one from the
   * middle stage) goes to slot 1, which is not an output slot, and its own
   * slot 2 keeps its old value. Stored with the stride, it lands at 2.
   */
  lemma MiddleStageStores(vals: seq<real>, buf: seq<real>)
    requires |vals| == 2 && |buf| >= 3
    ensures Stored(buf, StageWrites(vals, 2, 1, 1, 2, 4, 2))[1] == vals[1]
    ensures Stored(buf, StageWrites(vals, 2, 1, 1, 2, 4, 2))[2] == buf[2]
    ensures Stored(buf, StridedWrites(vals, 2))[2] == vals[1]
    ensures Stored(buf, StridedWrites(vals, 2))[1] == buf[1]
  {
    var w := StageWrites(vals, 2, 1, 1, 2, 4, 2);
    assert Centres(1, 2, 2) == 1 && Centres(1, 2, 4) == 2;
    assert w == [Write(0, vals[0]), Write(1, vals[1])];
    assert w[..1] == [Write(0, vals[0])] && w[..1][..0] == [];
    var v := StridedWrites(vals, 2);
    assert v == [Write(0, vals[0]), Write(2, vals[1])];
    assert v[..1] == [Write(0, vals[0])] && v[..1][..0] == [];
    StoredAt(buf, w, 2);
    assert LastAt(w, 2, buf[2]) == LastAt(w[..1], 2, buf[2]) == LastAt(w[..1][..0], 2, buf[2]);
    StoredAt(buf, v, 1);
    assert LastAt(v, 1, buf[1]) == LastAt(v[..1], 1, buf[1]) == LastAt(v[..1][..0], 1, buf[1]);
  }

  /**
   * `_downsampling_convolution` as written, on a row of four samples with a
   * two-tap filter at step 2 and stride 2: output 1 overwrites slot 1 (a
   * sample of the neighbouring row) and never reaches its own slot 2. The
   * strided version stores it at slot 2 and leaves slot 1 alone.
   */
  lemma MiddleStageMisplaced(a: seq<real>, filter: seq<real>, mode: Mode, buf: seq<real>)
    requires |a| == 4 && |filter| == 2 && |buf| >= 3
    ensures |Downsampled(mode, a, filter, 2)| == 2
    ensures Stored(buf, StageWrites(Downsampled(mode, a, filter, 2), 2, 1, 1, 2, 4, 2))[1] == DownsampledAt(mode, a, filter, 2, 1)
    ensures Stored(buf, StageWrites(Downsampled(mode, a, filter, 2), 2, 1, 1, 2, 4, 2))[2] == buf[2]
    ensures Stored(buf, StridedWrites(Downsampled(mode, a, filter, 2), 2))[2] == DownsampledAt(mode, a, filter, 2, 1)
    ensures Stored(buf, StridedWrites(Downsampled(mode, a, filter, 2), 2))[1] == buf[1]
  {
    MiddleStageStores(Downsampled(mode, a, filter, 2), buf);
  }
}
