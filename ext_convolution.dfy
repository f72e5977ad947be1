/**
 * The contiguous convolution routines of the extension module
 * (`pywt/_extensions/c/convolution.template.c`): argument checks, status
 * codes and dispatch to the staged kernels, which here read and write
 * consecutive elements (stride 1).
 *
 * Status codes: 0 on success, -1 for a filter or row length the routine
 * refuses, -3 for an odd filter length where an even one is needed.
 */
module ExtConvolution {
  import opened Arith
  import opened Extension
  import opened Writes
  import opened Downsampling
  import opened Upsampling

  /** The padding of the periodization kernel: enough copies of the last sample to make `N` a multiple of `step`. */
  function ExtPadding(n: nat, step: nat): (p: nat)
    requires step >= 1
    ensures p < step && (n + p) % step == 0
  {
    var r := n % step;
    if r == 0 then
      DivModOf(step, step, 1, 0);
      (step - r) % step
    else
      DivModOf(step - r, step, 0, step - r);
      DivModOf(n + (step - r), step, n / step + 1, 0);
      (step - r) % step
  }

  /** A contiguous row is stored in its own buffer. */
  lemma StoresContiguous(input: seq<real>)
    ensures Stores(input, |input|, 1, input)
  {
    ViewUnit(input);
    StoresView(input, |input|, 1, input);
  }

  /**
   * `_downsampling_convolution_periodization`: the row padded with copies of
   * its last sample up to a multiple of `step` and extended periodically; one
   * output per `step` samples, centred on `F/2 + o * step`, written over the
   * front of `output`. An empty row writes nothing.
   */
  method DownsamplingConvolutionPeriodization(input: seq<real>, filter: seq<real>, output: array<real>, step: nat)
    returns (status: int)
    requires step >= 1 && PeriodizedCount(|input|, step) <= output.Length
    modifies output
    ensures status == 0
    ensures |input| == 0 ==> output[..] == old(output[..])
    ensures |input| >= 1 ==>
      output[..] == Periodized(input, filter, step, ExtPadding(|input|, step)) + old(output[PeriodizedCount(|input|, step)..])
  {
    if |input| == 0 {
      // The first centre, `F/2`, already fails every stage bound (`i < N`, `i < N + F/2`).
      return 0;
    }
    StoresContiguous(input);
    var padding := (step - |input| % step) % step;
    assert (PeriodizedCount(|input|, step) - 1) * 1 < output.Length;
    PeriodizationKernel(input, |input|, 1, 1, input, filter, output, step, padding);
    ContiguousStages(old(output[..]), Periodized(input, filter, step, padding), |filter| / 2, step, |input|, |filter|);
    status := 0;
  }

  /**
   * `_downsampling_convolution`: every `step`-th output of the convolution of
   * the extended input with the filter, centred on `step - 1 + o * step` and
   * written over the front of `output`. Periodization goes to its own
   * routine; smooth extension of a one-sample row falls back to constant.
   * Only periodization accepts an empty row, and writes nothing for it.
   */
  method DownsamplingConvolution(input: seq<real>, filter: seq<real>, output: array<real>, step: nat, mode: Mode)
    returns (status: int)
    requires step >= 1 && (mode != Periodization ==> |input| >= 1)
    requires mode == Periodization ==> PeriodizedCount(|input|, step) <= output.Length
    requires mode != Periodization ==> DownCount(|input|, |filter|, step) <= output.Length
    modifies output
    ensures status == 0
    ensures |input| == 0 ==> output[..] == old(output[..])
    ensures mode == Periodization && |input| >= 1 ==>
      output[..] == Periodized(input, filter, step, ExtPadding(|input|, step)) + old(output[PeriodizedCount(|input|, step)..])
    ensures mode != Periodization ==>
      output[..] == Downsampled(mode, input, filter, step) + old(output[DownCount(|input|, |filter|, step)..])
  {
    if mode == Periodization {
      status := DownsamplingConvolutionPeriodization(input, filter, output, step);
      return;
    }
    StoresContiguous(input);
    DownsamplingKernel(input, |input|, 1, 1, input, filter, output, step, mode);
    ContiguousStages(old(output[..]), Downsampled(mode, input, filter, step), step - 1, step, |input|, |filter|);
    status := 0;
  }

  /** With unit stride every stage of a staged loop stores output `o` at `o`: the values replace a prefix of the buffer. */
  lemma ContiguousStages(buf: seq<real>, vals: seq<real>, first: nat, step: nat, n: nat, f: nat)
    requires step >= 1 && |vals| <= |buf|
    ensures Stored(buf, StageWrites(vals, 1, 1, first, step, n, f)) == vals + buf[|vals|..]
  {
    SlotWritesStrided(vals, 1, Centres(first, step, if f < n then f else n), Centres(first, step, n));
    StoredContiguous(buf, vals);
  }

  /**
   * `_upsampling_convolution_full`: the zero-padded convolution of the
   * upsampled input, `2N + F - 2` outputs added onto the front of `output`.
   * A filter shorter than two taps gives -1, an odd one -3, and in both cases
   * nothing is written.
   */
  method UpsamplingConvolutionFull(input: seq<real>, filter: seq<real>, output: array<real>) returns (status: int)
    requires |filter| >= 2 && |filter| % 2 == 0 ==> |UpsampledFull(input, filter)| <= output.Length
    modifies output
    ensures status == (if |filter| < 2 then -1 else if |filter| % 2 == 1 then -3 else 0)
    ensures status != 0 ==> output[..] == old(output[..])
    ensures status == 0 ==> (
      |UpsampledFull(input, filter)| <= output.Length
      && (forall q :: 0 <= q < |UpsampledFull(input, filter)| ==> output[q] == old(output[q]) + UpsampledFull(input, filter)[q])
      && output[|UpsampledFull(input, filter)|..] == old(output[|UpsampledFull(input, filter)|..]))
  {
    if |filter| < 2 {
      return -1;
    }
    if |filter| % 2 == 1 {
      return -3;
    }
    StoresContiguous(input);
    FullKernel(input, |input|, 1, input, filter, output);
    AddedContiguous(old(output[..]), UpsampledFull(input, filter));
    status := 0;
  }

  /**
   * `_upsampling_convolution_valid_sf_periodization`: the periodic
   * reconstruction, one output per slot `0 .. 2N - 1`, added onto `output`.
   * An odd filter gives -3 and writes nothing.
   */
  method UpsamplingConvolutionValidSfPeriodization(input: seq<real>, filter: seq<real>, output: array<real>)
    returns (status: int)
    requires PeriodizedRowOk(|input|, |filter|) && 2 * |input| <= output.Length
    modifies output
    ensures status == (if |filter| % 2 == 1 then -3 else 0)
    ensures status != 0 ==> output[..] == old(output[..])
    ensures status == 0 ==> (
      (forall q :: 0 <= q < 2 * |input| ==> output[q] == old(output[q]) + UpsampledPeriodized(input, filter)[q])
      && output[2 * |input|..] == old(output[2 * |input|..]))
  {
    if |filter| % 2 == 1 {
      return -3;
    }
    if |input| == 0 {
      // `F/2` is odd here, so the loops cover `F/4 <= i < N + F/4`: no `i` at all.
      return 0;
    }
    StoresContiguous(input);
    PeriodizedKernel(input, |input|, 1, input, filter, output);
    AddedContiguous(old(output[..]), UpsampledPeriodized(input, filter));
    status := 0;
  }

  /**
   * `_upsampling_convolution_valid_sf`: only the outputs where the whole
   * filter overlaps the input, `2(N - F/2 + 1)` of them, added onto the front
   * of `output`. An odd filter or a row shorter than `F/2` gives -1 and
   * writes nothing; periodization goes to its own routine.
   */
  method UpsamplingConvolutionValidSf(input: seq<real>, filter: seq<real>, output: array<real>, mode: Mode)
    returns (status: int)
    requires |input| < SIZE_LIMIT
    requires mode == Periodization ==> PeriodizedRowOk(|input|, |filter|) && 2 * |input| <= output.Length
    requires mode != Periodization && |filter| % 2 == 0 && |filter| / 2 <= |input| ==>
      |UpsampledValid(input, filter)| <= output.Length
    modifies output
    ensures mode == Periodization ==> status == (if |filter| % 2 == 1 then -3 else 0)
    ensures mode != Periodization ==> status == (if |filter| % 2 == 1 || |input| < |filter| / 2 then -1 else 0)
    ensures status != 0 ==> output[..] == old(output[..])
    ensures mode == Periodization && status == 0 ==> (
      (forall q :: 0 <= q < 2 * |input| ==> output[q] == old(output[q]) + UpsampledPeriodized(input, filter)[q])
      && output[2 * |input|..] == old(output[2 * |input|..]))
    ensures mode != Periodization && status == 0 ==> (
      |filter| / 2 <= |input|
      && (forall q :: 0 <= q < |UpsampledValid(input, filter)| ==> output[q] == old(output[q]) + UpsampledValid(input, filter)[q])
      && output[|UpsampledValid(input, filter)|..] == old(output[|UpsampledValid(input, filter)|..]))
  {
    if mode == Periodization {
      status := UpsamplingConvolutionValidSfPeriodization(input, filter, output);
      return;
    }
    if |filter| % 2 == 1 || |input| < |filter| / 2 {
      return -1;
    }
    StoresContiguous(input);
    ValidKernel(input, |input|, 1, input, filter, output);
    AddedContiguous(old(output[..]), UpsampledValid(input, filter));
    status := 0;
  }
}
