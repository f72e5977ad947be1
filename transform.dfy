/**
 * The single-row transforms of `pywt/src/wt.template.c`: one decomposition
 * step (`downcoef`, `dec_a`, `dec_d`), the direct and the inverse
 * reconstructions (`rec_a`, `rec_d`, `idwt`) and one stationary step at a
 * given level (`swt_`, `swt_a`, `swt_d`). Each checks the caller's buffer
 * length against `common.c` and then runs the convolution kernels of
 * `pywt/_extensions/c/convolution.template.c`.
 */
module Transform {
  import opened Arith
  import opened Extension
  import opened Downsampling
  import opened Upsampling
  import opened Common
  import opened ExtConvolution
  import Reference

  datatype Option<T> = None | Some(value: T)

  /** The four filters of a wavelet; `dec_len` and `rec_len` are their lengths. */
  datatype Wavelet = Wavelet(decLo: seq<real>, decHi: seq<real>, recLo: seq<real>, recHi: seq<real>)
  {
    predicate Valid() {
      |decLo| == |decHi| < SIZE_LIMIT && |recLo| == |recHi| < SIZE_LIMIT
    }
  }

  /** The decomposition filter a coefficient is computed with. */
  function CoefFilter(w: Wavelet, coef: Coefficient): seq<real> {
    match coef
    case Approx => w.decLo
    case Detail => w.decHi
  }

  // ---------------------------------------------------------------------------
  // Decomposition.

  /**
   * What one decomposition step writes: every other output of the kernel at
   * step 2, and nothing for an empty row, which only periodization accepts.
   */
  function Decomposed(input: seq<real>, filter: seq<real>, mode: Mode): seq<real>
    requires |input| >= 1 || mode == Periodization
  {
    if |input| == 0 then []
    else if mode == Periodization then Periodized(input, filter, 2, ExtPadding(|input|, 2))
    else Downsampled(mode, input, filter, 2)
  }

  /**
   * The length `dwt_buffer_length` demands is exactly the number of
   * coefficients a step produces, so a buffer that passes the check is
   * filled to its end and never overrun.
   */
  lemma DecomposedLength(input: seq<real>, filter: seq<real>, mode: Mode)
    requires (|input| >= 1 || mode == Periodization) && 1 <= |filter| < SIZE_LIMIT && |input| + |filter| - 1 < SIZE_LIMIT
    ensures |Decomposed(input, filter, mode)| == DwtBufferLength(|input|, |filter|, mode)
  {
  }

  /**
   * The body shared by `dec_a`, `dec_d` and `downcoef`: a buffer whose
   * length differs from `dwt_buffer_length` gives -1 and is left alone;
   * otherwise the kernel fills it.
   */
  method Decompose(input: seq<real>, filter: seq<real>, output: array<real>, mode: Mode) returns (status: int)
    requires (|input| >= 1 || mode == Periodization) && 1 <= |filter| < SIZE_LIMIT && |input| + |filter| - 1 < SIZE_LIMIT
    modifies output
    ensures output.Length != DwtBufferLength(|input|, |filter|, mode) ==> status == -1 && output[..] == old(output[..])
    ensures output.Length == DwtBufferLength(|input|, |filter|, mode) ==>
      status == 0 && output[..] == Decomposed(input, filter, mode)
  {
    if output.Length != DwtBufferLength(|input|, |filter|, mode) {
      return -1;
    }
    DecomposedLength(input, filter, mode);
    status := DownsamplingConvolution(input, filter, output, 2, mode);
    assert output[..] == Decomposed(input, filter, mode) + old(output[output.Length..]);
  }

  /** `dec_a`: the approximation coefficients, with the decomposition low-pass filter. */
  method DecA(input: seq<real>, w: Wavelet, output: array<real>, mode: Mode) returns (status: int)
    requires w.Valid() && (|input| >= 1 || mode == Periodization) && |w.decLo| >= 1 && |input| + |w.decLo| - 1 < SIZE_LIMIT
    modifies output
    ensures output.Length != DwtBufferLength(|input|, |w.decLo|, mode) ==> status == -1 && output[..] == old(output[..])
    ensures output.Length == DwtBufferLength(|input|, |w.decLo|, mode) ==>
      status == 0 && output[..] == Decomposed(input, w.decLo, mode)
  {
    status := Decompose(input, w.decLo, output, mode);
  }

  /** `dec_d`: the detail coefficients, with the decomposition high-pass filter. */
  method DecD(input: seq<real>, w: Wavelet, output: array<real>, mode: Mode) returns (status: int)
    requires w.Valid() && (|input| >= 1 || mode == Periodization) && |w.decHi| >= 1 && |input| + |w.decHi| - 1 < SIZE_LIMIT
    modifies output
    ensures output.Length != DwtBufferLength(|input|, |w.decHi|, mode) ==> status == -1 && output[..] == old(output[..])
    ensures output.Length == DwtBufferLength(|input|, |w.decHi|, mode) ==>
      status == 0 && output[..] == Decomposed(input, w.decHi, mode)
  {
    status := Decompose(input, w.decHi, output, mode);
  }

  /**
   * `downcoef` with the length check of `dwt_buffer_length`: the coefficient
   * picks the low- or the high-pass filter. (The source checks against
   * `dwt_buffer_length_o`, which is one short of what the kernel writes;
   * see `Common.DwtBufferLengthOShort`.)
   */
  method Downcoef(input: seq<real>, w: Wavelet, output: array<real>, coef: Coefficient, mode: Mode) returns (status: int)
    requires w.Valid() && (|input| >= 1 || mode == Periodization) && |w.decLo| >= 1 && |input| + |w.decLo| - 1 < SIZE_LIMIT
    modifies output
    ensures output.Length != DwtBufferLength(|input|, |w.decLo|, mode) ==> status == -1 && output[..] == old(output[..])
    ensures output.Length == DwtBufferLength(|input|, |w.decLo|, mode) ==>
      status == 0 && output[..] == Decomposed(input, CoefFilter(w, coef), mode)
  {
    var filter := match coef case Approx => w.decLo case Detail => w.decHi;
    status := Decompose(input, filter, output, mode);
  }

  // ---------------------------------------------------------------------------
  // Reconstruction.

  /** `v` added onto the front of `base`; the rest of `base` is kept. */
  function AddInto(base: seq<real>, v: seq<real>): (r: seq<real>)
    ensures |r| == |base|
  {
    seq(|base|, i requires 0 <= i < |base| => base[i] + (if i < |v| then v[i] else 0.0))
  }

  /** The status of `upsampling_convolution_full`: -1 below two taps, -3 for an odd filter. */
  function FullStatus(f: nat): int {
    if f < 2 then -1 else if f % 2 == 1 then -3 else 0
  }

  /**
   * The body shared by `rec_a` and `rec_d`: a buffer whose length differs
   * from `reconstruction_buffer_length` gives -1; otherwise the full
   * reconstruction is added onto it, or the kernel's error status comes
   * back and nothing is written.
   */
  method Reconstruct(coefs: seq<real>, filter: seq<real>, output: array<real>) returns (status: int)
    requires |coefs| < SIZE_LIMIT && |filter| < SIZE_LIMIT && 2 * |coefs| + |filter| - 2 < SIZE_LIMIT
    modifies output
    ensures output.Length != ReconstructionBufferLength(|coefs|, |filter|) ==> status == -1 && output[..] == old(output[..])
    ensures output.Length == ReconstructionBufferLength(|coefs|, |filter|) ==> status == FullStatus(|filter|)
    ensures status != 0 ==> output[..] == old(output[..])
    ensures status == 0 ==> output[..] == AddInto(old(output[..]), UpsampledFull(coefs, filter))
  {
    if output.Length != ReconstructionBufferLength(|coefs|, |filter|) {
      return -1;
    }
    if |coefs| == 0 {
      // The kernel's loops run over the coefficients: nothing is added.
      status := FullStatus(|filter|);
      if status == 0 {
        assert output.Length == 0;
        assert output[..] == AddInto(old(output[..]), UpsampledFull(coefs, filter));
      }
      return;
    }
    status := UpsamplingConvolutionFull(coefs, filter, output);
    if status == 0 {
      assert |UpsampledFull(coefs, filter)| == output.Length;
      assert output[..] == AddInto(old(output[..]), UpsampledFull(coefs, filter));
    }
  }

  /** `rec_a`: the approximation reconstructed alone, with the reconstruction low-pass filter. */
  method RecA(coefs: seq<real>, w: Wavelet, output: array<real>) returns (status: int)
    requires w.Valid() && |coefs| < SIZE_LIMIT && 2 * |coefs| + |w.recLo| - 2 < SIZE_LIMIT
    modifies output
    ensures output.Length != ReconstructionBufferLength(|coefs|, |w.recLo|) ==> status == -1 && output[..] == old(output[..])
    ensures output.Length == ReconstructionBufferLength(|coefs|, |w.recLo|) ==> status == FullStatus(|w.recLo|)
    ensures status != 0 ==> output[..] == old(output[..])
    ensures status == 0 ==> output[..] == AddInto(old(output[..]), UpsampledFull(coefs, w.recLo))
  {
    status := Reconstruct(coefs, w.recLo, output);
  }

  /** `rec_d`: the detail reconstructed alone, with the reconstruction high-pass filter. */
  method RecD(coefs: seq<real>, w: Wavelet, output: array<real>) returns (status: int)
    requires w.Valid() && |coefs| < SIZE_LIMIT && 2 * |coefs| + |w.recHi| - 2 < SIZE_LIMIT
    modifies output
    ensures output.Length != ReconstructionBufferLength(|coefs|, |w.recHi|) ==> status == -1 && output[..] == old(output[..])
    ensures output.Length == ReconstructionBufferLength(|coefs|, |w.recHi|) ==> status == FullStatus(|w.recHi|)
    ensures status != 0 ==> output[..] == old(output[..])
    ensures status == 0 ==> output[..] == AddInto(old(output[..]), UpsampledFull(coefs, w.recHi))
  {
    status := Reconstruct(coefs, w.recHi, output);
  }

  /** A buffer that passes the length check is exactly as long as the full reconstruction. */
  lemma ReconstructedLength(coefs: seq<real>, filter: seq<real>)
    requires |coefs| >= 1 && |filter| >= 2 && |filter| % 2 == 0 && 2 * |coefs| + |filter| - 2 < SIZE_LIMIT
    ensures |UpsampledFull(coefs, filter)| == ReconstructionBufferLength(|coefs|, |filter|)
    ensures AddInto(seq(|UpsampledFull(coefs, filter)|, _ => 0.0), UpsampledFull(coefs, filter)) == UpsampledFull(coefs, filter)
  {
  }

  /** The length of an optional coefficient row; a missing row counts as empty. */
  function Len(x: Option<seq<real>>): nat {
    if x.Some? then |x.value| else 0
  }

  /** The status of `upsampling_convolution_valid_sf`. */
  function ValidSfStatus(n: nat, f: nat, mode: Mode): int {
    if mode == Periodization then (if f % 2 == 1 then -3 else 0)
    else if f % 2 == 1 || n < f / 2 then -1 else 0
  }

  /** A present row whose reconstruction kernel refuses it. */
  predicate Refused(x: Option<seq<real>>, filter: seq<real>, mode: Mode) {
    x.Some? && ValidSfStatus(|x.value|, |filter|, mode) < 0
  }

  /** What the valid-part kernel adds for an optional row (nothing for a missing or refused one). */
  function Part(x: Option<seq<real>>, filter: seq<real>, mode: Mode): seq<real> {
    if x.None? || ValidSfStatus(|x.value|, |filter|, mode) < 0 then []
    else if mode == Periodization then (if |x.value| >= 1 then UpsampledPeriodized(x.value, filter) else [])
    else UpsampledValid(x.value, filter)
  }

  /** `rec_len` zeros: the buffer after the `memset`. */
  function Zeros(n: nat): (z: seq<real>)
    ensures |z| == n && forall i :: 0 <= i < n ==> z[i] == 0.0
  {
    seq(n, _ => 0.0)
  }

  /** A zeroed buffer of `n` values with both rows' reconstructions added; a refused row adds nothing. */
  function Reconstructed(a: Option<seq<real>>, d: Option<seq<real>>, w: Wavelet, mode: Mode, n: nat): (r: seq<real>)
    ensures |r| == n
  {
    AddInto(AddInto(Zeros(n), Part(a, w.recLo, mode)), Part(d, w.recHi, mode))
  }

  /**
   * `idwt` with the length of `IdwtOutputLength`: a buffer of another length
   * (or a refused pairing) gives 0 and is left alone. Otherwise the buffer
   * is zeroed, the approximation is reconstructed into it with the low-pass
   * filter and the detail added with the high-pass filter; the first kernel
   * that refuses its row ends the call with -1. (The source checks against
   * `idwt_buffer_length_o`, one short of what the kernels write; see
   * `Common.IdwtBufferLengthOShort`.)
   */
  method Idwt(a: Option<seq<real>>, d: Option<seq<real>>, w: Wavelet, output: array<real>, mode: Mode) returns (status: int)
    requires w.Valid() && 2 * Longer(Len(a), Len(d)) < SIZE_LIMIT
    requires mode == Periodization && IdwtOutputLength(Len(a), Len(d), |w.recLo|, mode) == output.Length > 0 ==>
      (a.Some? ==> PeriodizedRowOk(|a.value|, |w.recLo|)) && (d.Some? ==> PeriodizedRowOk(|d.value|, |w.recHi|))
    modifies output
    ensures var rec := IdwtOutputLength(Len(a), Len(d), |w.recLo|, mode);
      rec == 0 || output.Length != rec ==> status == 0 && output[..] == old(output[..])
    ensures var rec := IdwtOutputLength(Len(a), Len(d), |w.recLo|, mode);
      rec != 0 && output.Length == rec ==> (
        status == (if Refused(a, w.recLo, mode) || Refused(d, w.recHi, mode) then -1 else 0)
        && output[..] == (
          if Refused(a, w.recLo, mode) then Zeros(rec)
          else if Refused(d, w.recHi, mode) then AddInto(Zeros(rec), Part(a, w.recLo, mode))
          else Reconstructed(a, d, w, mode, rec)))
  {
    var rec := IdwtOutputLength(Len(a), Len(d), |w.recLo|, mode);
    if rec == 0 || output.Length != rec {
      return 0;
    }
    ZeroFill(output);
    assert Paired(Len(a), Len(d));
    if a.Some? {
      var s := ReconstructRow(a.value, w.recLo, output, mode, Len(a), Len(d));
      if s < 0 {
        return -1;
      }
    }
    ghost var afterA := output[..];
    assert afterA == AddInto(Zeros(rec), Part(a, w.recLo, mode));
    if d.Some? {
      var s := ReconstructRow(d.value, w.recHi, output, mode, Len(a), Len(d));
      if s < 0 {
        return -1;
      }
    }
    status := 0;
  }

  /** The `memset` of the output row to zero. */
  method ZeroFill(output: array<real>)
    modifies output
    ensures output[..] == Zeros(output.Length)
  {
    var i := 0;
    while i < output.Length
      invariant i <= output.Length
      invariant forall k :: 0 <= k < i ==> output[k] == 0.0
    {
      output[i] := 0.0;
      i := i + 1;
    }
  }

  /**
   * One of the two kernel calls of `idwt`: a row no longer than the longer of
   * a valid pairing is reconstructed onto a buffer of `IdwtOutputLength`.
   */
  method ReconstructRow(x: seq<real>, filter: seq<real>, output: array<real>, mode: Mode, la: nat, ld: nat)
    returns (status: int)
    requires Paired(la, ld) && 2 * Longer(la, ld) < SIZE_LIMIT && |filter| < SIZE_LIMIT
    requires |x| == la || |x| == ld
    requires output.Length == IdwtOutputLength(la, ld, |filter|, mode)
    requires mode == Periodization ==> PeriodizedRowOk(|x|, |filter|)
    modifies output
    ensures status == ValidSfStatus(|x|, |filter|, mode)
    ensures output[..] == AddInto(old(output[..]), Part(Some(x), filter, mode))
  {
    assert |x| <= Longer(la, ld);
    if mode != Periodization && |filter| % 2 == 0 && |filter| / 2 <= |x| {
      assert |UpsampledValid(x, filter)| <= output.Length by {
        if |filter| / 2 != 0 {
          assert output.Length == 2 * Longer(la, ld) - |filter| + 2;
        }
      }
    }
    ghost var b := output[..];
    status := UpsamplingConvolutionValidSf(x, filter, output, mode);
    ghost var v := Part(Some(x), filter, mode);
    assert |v| <= output.Length && output[|v|..] == b[|v|..];
    assert forall q :: 0 <= q < |v| ==> output[..][q] == b[q] + v[q];
    AddedAll(b, output[..], v);
  }

  /** A buffer that gained `v` on its first `|v|` slots and kept the rest is `AddInto` of the two. */
  lemma AddedAll(b: seq<real>, o: seq<real>, v: seq<real>)
    requires |o| == |b| && |v| <= |b| && o[|v|..] == b[|v|..]
    requires forall q :: 0 <= q < |v| ==> o[q] == b[q] + v[q]
    ensures o == AddInto(b, v)
  {
    forall i | |v| <= i < |o|
      ensures o[i] == b[i]
    {
      assert o[i] == o[|v|..][i - |v|];
    }
  }

  /**
   * With a valid pairing the corrected length is exactly what the longer
   * row's kernel writes, so every output slot is written and none past the
   * end.
   */
  lemma IdwtFilled(x: seq<real>, filter: seq<real>, la: nat, ld: nat, mode: Mode)
    requires Paired(la, ld) && 2 * Longer(la, ld) < SIZE_LIMIT && |filter| < SIZE_LIMIT
    requires |x| == Longer(la, ld) && ValidSfStatus(|x|, |filter|, mode) == 0
    requires mode == Periodization || |filter| >= 2
    ensures |Part(Some(x), filter, mode)| == IdwtOutputLength(la, ld, |filter|, mode)
    ensures IdwtOutputLength(la, ld, |filter|, mode) > 0
  {
  }

  // ---------------------------------------------------------------------------
  // Stationary transform.

  /**
   * The filter of level `level`: `calloc` zeros, then tap `i` stored at
   * `i << (level - 1)`, that is the filter upsampled by `2^(level - 1)`.
   */
  method DilateFilter(filter: seq<real>, s: nat) returns (e: array<real>)
    requires s >= 1
    ensures fresh(e) && e[..] == Reference.Upsampled(filter, s)
  {
    e := new real[|filter| * s](_ => 0.0);
    var i, p := 0, 0;
    while i < |filter|
      invariant p == i * s
      invariant Reference.Placed(e[..], filter, s, i)
    {
      Reference.PlacedNext(e[..], filter, s, i, p);
      e[p] := filter[i];
      MulNext(i, s);
      i, p := i + 1, p + s;
    }
    Reference.PlacedAll(e[..], filter, s);
  }

  /** What one stationary step at `level` writes: the periodized convolution at step 1 with the dilated filter. */
  function SwtOutput(input: seq<real>, filter: seq<real>, level: nat): seq<real>
    requires |input| >= 1 && level >= 1
  {
    Periodized(input, Reference.Upsampled(filter, Pow2(level - 1)), 1, 0)
  }

  /**
   * `swt_`: a level below 1 gives -1, a level beyond `swt_max_level` gives
   * -2 and a buffer not of `swt_buffer_length` gives -1, each without
   * writing. Past level 1 the filter is dilated first; a failed allocation
   * gives -1. Otherwise the buffer holds `SwtOutput`.
   */
  method SwtStep(input: seq<real>, filter: seq<real>, output: array<real>, level: int) returns (status: int)
    requires |input| < SIZE_LIMIT
    requires level >= 1 && |input| >= 1 && |input| % Pow2(level) == 0 ==> |filter| * Pow2(level - 1) < SIZE_LIMIT
    modifies output
    ensures level < 1 ==> status == -1
    ensures level >= 1 && (|input| == 0 || |input| % Pow2(level) != 0) ==> status == -2
    ensures status != 0 ==> output[..] == old(output[..])
    ensures status == 0 ==> level >= 1 && |input| >= 1 && output[..] == SwtOutput(input, filter, level)
    ensures level >= 1 && |input| >= 1 && |input| % Pow2(level) == 0 && output.Length != |input| ==> status == -1
    ensures level >= 1 && |input| >= 1 && |input| % Pow2(level) == 0 && output.Length == |input| ==>
      status == 0 || (level > 1 && status == -1)
  {
    if level < 1 {
      return -1;
    }
    var maxLevel := SwtMaxLevel(|input|);
    if level > maxLevel {
      if |input| > 0 && |input| % Pow2(level) == 0 {
        PowDivides(|input|, maxLevel + 1, level);
      }
      return -2;
    }
    PowDivides(|input|, level, maxLevel);
    if output.Length != SwtBufferLength(|input|) {
      return -1;
    }
    DivModOf(|input|, 1, |input|, 0);
    var pad := ExtPadding(|input|, 1);
    if level > 1 {
      var failed: bool :| true;
      if failed {
        return -1;
      }
      var e := DilateFilter(filter, Pow2(level - 1));
      status := DownsamplingConvolution(input, e[..], output, 1, Periodization);
    } else {
      Reference.UpsampledOne(filter);
      status := DownsamplingConvolution(input, filter, output, 1, Periodization);
    }
    assert output[..] == SwtOutput(input, filter, level) + old(output[output.Length..]);
  }

  /** A power of two divides every larger one, so a multiple of `2^j` is one of `2^i` for `i <= j`. */
  lemma PowDivides(n: nat, i: nat, j: nat)
    requires i <= j && n % Pow2(j) == 0
    ensures n % Pow2(i) == 0
  {
    Pow2Add(i, j - i);
    MultipleOfProduct(n, Pow2(i), Pow2(j - i));
  }

  lemma MultipleOfProduct(n: nat, a: nat, b: nat)
    requires a >= 1 && b >= 1 && n % (a * b) == 0
    ensures n % a == 0
  {
    var m := a * b;
    var q := n / m;
    assert n == q * m;
    assert q * m == (q * b) * a;
    DivModOf(n, a, q * b, 0);
  }

  /** `swt_a`: the approximation of a stationary step, with the decomposition low-pass filter. */
  method SwtA(input: seq<real>, w: Wavelet, output: array<real>, level: int) returns (status: int)
    requires w.Valid() && |input| < SIZE_LIMIT
    requires level >= 1 && |input| >= 1 && |input| % Pow2(level) == 0 ==> |w.decLo| * Pow2(level - 1) < SIZE_LIMIT
    modifies output
    ensures status != 0 ==> output[..] == old(output[..])
    ensures status == 0 ==> level >= 1 && |input| >= 1 && output[..] == SwtOutput(input, w.decLo, level)
  {
    status := SwtStep(input, w.decLo, output, level);
  }

  /** `swt_d`: the detail of a stationary step, with the decomposition high-pass filter. */
  method SwtD(input: seq<real>, w: Wavelet, output: array<real>, level: int) returns (status: int)
    requires w.Valid() && |input| < SIZE_LIMIT
    requires level >= 1 && |input| >= 1 && |input| % Pow2(level) == 0 ==> |w.decHi| * Pow2(level - 1) < SIZE_LIMIT
    modifies output
    ensures status != 0 ==> output[..] == old(output[..])
    ensures status == 0 ==> level >= 1 && |input| >= 1 && output[..] == SwtOutput(input, w.decHi, level)
  {
    status := SwtStep(input, w.decHi, output, level);
  }

  /** Tap `j` of the filter spread `s` apart: `filter[j]` against the extended sample `x - j * s`. */
  function AtrousTap(mode: Mode, a: seq<real>, filter: seq<real>, s: nat, x: int, j: nat): real
    requires Extendable(mode, a) && j < |filter|
  {
    filter[j] * Ext(mode, a, x - j * s)
  }

  /** The first `k` taps of the filter spread `s` apart, ending at sample `x`. */
  function AtrousSum(mode: Mode, a: seq<real>, filter: seq<real>, s: nat, x: int, k: nat): real
    requires Extendable(mode, a) && k <= |filter|
  {
    if k == 0 then 0.0 else AtrousSum(mode, a, filter, s, x, k - 1) + AtrousTap(mode, a, filter, s, x, k - 1)
  }

  /**
   * The stationary step is the "à trous" filter: output `o` of level `L`
   * takes the `F` taps of the original filter `2^(L-1)` samples apart
   * around position `o`, reading the signal periodically; the zeros of the
   * dilated filter contribute nothing.
   */
  lemma SwtAtrous(input: seq<real>, filter: seq<real>, level: nat, o: nat)
    requires |input| >= 1 && level >= 1 && o < |input|
    ensures |SwtOutput(input, filter, level)| == |input|
    ensures SwtOutput(input, filter, level)[o]
      == AtrousSum(Periodic, input, filter, Pow2(level - 1), |filter| * Pow2(level - 1) / 2 + o, |filter|)
  {
    var s := Pow2(level - 1);
    var u := Reference.Upsampled(filter, s);
    DivModOf(|input|, 1, |input|, 0);
    assert Padded(input, 0) == input;
    Reference.UpsampledStuffed(filter, s);
    AtrousIsStuffed(Periodic, input, filter, u, s, |u| / 2 + o, |filter|);
  }

  lemma {:induction false} AtrousIsStuffed(mode: Mode, a: seq<real>, filter: seq<real>, u: seq<real>, s: nat, x: int, k: nat)
    requires Extendable(mode, a) && s >= 1 && k <= |filter| && Reference.Stuffed(u, filter, s)
    ensures k * s <= |u|
    ensures AtrousSum(mode, a, filter, s, x, k) == TapSum(mode, a, u, x, 0, k * s)
  {
    MulMono(k, |filter|, s);
    if k > 0 {
      AtrousIsStuffed(mode, a, filter, u, s, x, k - 1);
      assert k * s == (k - 1) * s + s;
      TapSumSplit(mode, a, u, x, 0, (k - 1) * s, k * s);
      AtrousBlock(mode, a, filter, u, s, x, k - 1, (k - 1) * s, s);
    }
  }

  /** Block `j` of the dilated filter, from tap `lo = j * s`: `filter[j]`, then `s - 1` zeros. */
  lemma {:induction false} AtrousBlock(mode: Mode, a: seq<real>, filter: seq<real>, u: seq<real>, s: nat, x: int, j: nat, lo: nat, m: nat)
    requires Extendable(mode, a) && s >= 1 && j < |filter| && Reference.Stuffed(u, filter, s)
    requires lo == j * s && 1 <= m <= s && lo + s <= |u|
    ensures TapSum(mode, a, u, x, lo, lo + m) == AtrousTap(mode, a, filter, s, x, j)
  {
    if m > 1 {
      AtrousBlock(mode, a, filter, u, s, x, j, lo, m - 1);
      DivModOf(lo + m - 1, s, j, m - 1);
    } else {
      DivModOf(lo, s, j, 0);
    }
  }
}
