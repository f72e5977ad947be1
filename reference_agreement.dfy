/**
 * The C kernels against the Python reference: each kernel specification
 * equals (a window of) `unified_convolution` with the parameters the test
 * suite uses for it.
 */
module ReferenceAgreement {
  import opened Arith
  import opened Extension
  import opened Reference
  import D = Downsampling
  import U = Upsampling

  /**
   * A valid convolution over an explicitly extended array `e` is the tap sum
   * over the extension it stores, shifted by the `d` leading slots.
   */
  lemma {:induction false} RowSumOfExtension(e: seq<real>, mode: Mode, a: seq<real>, f: seq<real>, x: int, d: nat, lo: nat, hi: nat)
    requires Extendable(mode, a) && hi <= |f|
    requires lo < hi ==> 0 <= x - (hi - 1) + d && x - lo + d < |e|
    requires forall y :: x - hi < y <= x - lo ==> e[y + d] == Ext(mode, a, y)
    ensures RowSum(e, f, x + d, lo, hi) == TapSum(mode, a, f, x, lo, hi)
    decreases hi
  {
    if lo < hi {
      RowSumOfExtension(e, mode, a, f, x, d, lo, hi - 1);
      var y := x - (hi - 1);
      var v := Ext(mode, a, y);
      assert e[y + d] == v;
    }
  }

  /** Without upsampling, `edge_extend` stores the mode's extension shifted by the leading pad. */
  lemma EdgeUnit(mode: Mode, a: seq<real>, n0: nat, n1: nat, x: nat)
    requires Extendable(mode, a) && x < |a| + n0 + n1
    ensures |a| * 1 == |a|
    ensures EdgeExtension(mode, a, n0, n1, 1)[x] == Ext(mode, a, x - n0)
  {
    var len := |a| * 1 + n0 + n1;
    if x < n0 {
      assert LeadSlot(n0, 1, x);
      LeftExt(mode, a, n0 - 1 - x);
    } else if x < n0 + |a| {
      assert (x - n0) % 1 == 0 && (x - n0) / 1 == x - n0;
    } else {
      assert TrailSlot(len, n1, 1, x);
      RightExt(mode, a, x - n0 - |a|);
    }
  }

  lemma ConvolveValidAt(e: seq<real>, f: seq<real>, k: nat)
    requires 1 <= |f| <= |e| && k < |e| - |f| + 1
    ensures ConvolveValid(e, f)[k] == RowSum(e, f, k + (|f| - 1), 0, |f|)
  {
  }

  /** The valid convolution of a row extended without upsampling is the tap sum over the mode's extension. */
  lemma UnitConvolved(mode: Mode, a: seq<real>, f: seq<real>, n1: nat, x: nat)
    requires Extendable(mode, a) && |f| >= 1 && x < |a| + n1
    ensures |a| * 1 + (|f| - 1) + n1 >= |f|
    ensures x < |ConvolveValid(EdgeExtension(mode, a, |f| - 1, n1, 1), f)|
    ensures ConvolveValid(EdgeExtension(mode, a, |f| - 1, n1, 1), f)[x] == TapSum(mode, a, f, x, 0, |f|)
  {
    var e := EdgeExtension(mode, a, |f| - 1, n1, 1);
    UnitWindow(mode, a, |f|, n1, x);
    ConvolveValidAt(e, f, x);
    RowSumOfExtension(e, mode, a, f, x, |f| - 1, 0, |f|);
  }

  /** The `F` slots of the extended row that output `x` reads. */
  lemma UnitWindow(mode: Mode, a: seq<real>, F: nat, n1: nat, x: nat)
    requires Extendable(mode, a) && F >= 1 && x < |a| + n1
    ensures forall y :: x - F < y <= x ==> EdgeExtension(mode, a, F - 1, n1, 1)[y + (F - 1)] == Ext(mode, a, y)
  {
    forall y | x - F < y <= x
      ensures EdgeExtension(mode, a, F - 1, n1, 1)[y + (F - 1)] == Ext(mode, a, y)
    {
      EdgeUnit(mode, a, F - 1, n1, y + (F - 1));
    }
  }

  /** A recognised mode name and a trailing pad make `unified_convolution` return the convolution for that mode. */
  lemma UnifiedNamed(a: seq<real>, f: seq<real>, iu: nat, od: nat, fu: nat, name: string, mode: Mode)
    requires |a| >= 1 && |f| >= 1 && iu >= 1 && od >= 1 && fu >= 1 && |f| * fu > iu
    requires Recognised(name) && (name == "smooth" ==> |a| >= 2) && ModeOf(name) == mode
    ensures Extendable(mode, a)
    ensures UnifiedConvolution(a, f, iu, od, fu, name) == Ok(Unified(a, f, iu, od, fu, mode))
  {
  }

  /** Without upsampling, `unified_convolution` convolves the row extended by `F - 1` slots each side. */
  lemma UnifiedUnit(a: seq<real>, f: seq<real>, od: nat, mode: Mode)
    requires Extendable(mode, a) && |f| >= 2 && od >= 1
    ensures |a| * 1 + (|f| - 1) + (|f| - 1) >= |f|
    ensures Unified(a, f, 1, od, 1, mode) == Downsample(ConvolveValid(EdgeExtension(mode, a, |f| - 1, |f| - 1, 1), f), od)
  {
    UpsampledOne(f);
    UnifiedUnfold(a, f, od, mode, Upsampled(f, 1));
  }

  /** `Unified` without upsampling of the row, for the filter `u` it convolves with. */
  lemma UnifiedUnfold(a: seq<real>, f: seq<real>, od: nat, mode: Mode, u: seq<real>)
    requires Extendable(mode, a) && |f| >= 2 && od >= 1 && u == Upsampled(f, 1)
    ensures |f| * 1 > 1 && |a| * 1 + (|u| - 1) + (|u| - 1) >= |u|
    ensures Unified(a, f, 1, od, 1, mode) == Downsample(ConvolveValid(EdgeExtension(mode, a, |u| - 1, |u| - 1, 1), u), od)
  {
  }

  /**
   * Downsampling kernels: `unified_convolution(a, f, output_downsampling =
   * step, mode)` gives exactly what the staged kernel writes, for every mode
   * the reference knows and every filter of at least two taps (one tap leaves
   * no trailing pad, and the reference raises `ValueError`).
   */
  lemma DownsamplingAgrees(a: seq<real>, f: seq<real>, step: nat, name: string)
    requires |a| >= 1 && |f| >= 2 && step >= 1 && Recognised(name) && (name == "smooth" ==> |a| >= 2)
    ensures UnifiedConvolution(a, f, 1, step, 1, name) == Ok(D.Downsampled(ModeOf(name), a, f, step))
  {
    var mode := ModeOf(name);
    var F := |f|;
    UnifiedNamed(a, f, 1, step, 1, name, mode);
    UnifiedUnit(a, f, step, mode);
    var c := ConvolveValid(EdgeExtension(mode, a, F - 1, F - 1, 1), f);
    var r := Downsample(c, step);
    forall o | 0 <= o < |r|
      ensures r[o] == D.DownsampledAt(mode, a, f, step, o)
    {
      CountSlot(o, step, |c|);
      UnitConvolved(mode, a, f, F - 1, o * step + step - 1);
    }
  }

  /**
   * The periodic padded kernel: the padded row's periodic convolution in
   * `unified_convolution`, sampled every `step` outputs from `F/2`.
   */
  lemma PeriodizationAgrees(a: seq<real>, f: seq<real>, step: nat, pad: nat)
    requires |a| >= 1 && |f| >= 2 && step >= 1 && pad < step && (|a| + pad) % step == 0
    ensures UnifiedConvolution(Padded(a, pad), f, 1, 1, 1, "periodic").Ok?
    ensures var c := UnifiedConvolution(Padded(a, pad), f, 1, 1, 1, "periodic").value;
      forall o :: 0 <= o < D.PeriodizedCount(|a|, step) ==>
        |f| / 2 + o * step < |c| && D.Periodized(a, f, step, pad)[o] == c[|f| / 2 + o * step]
  {
    var p := Padded(a, pad);
    var F := |f|;
    UnifiedNamed(p, f, 1, 1, 1, "periodic", Periodic);
    UnifiedUnit(p, f, 1, Periodic);
    var c := ConvolveValid(EdgeExtension(Periodic, p, F - 1, F - 1, 1), f);
    DownsampleUnit(c);
    PeriodizedCountPadded(|a|, step, pad);
    forall o | 0 <= o < D.PeriodizedCount(|a|, step)
      ensures F / 2 + o * step < |c| && D.Periodized(a, f, step, pad)[o] == c[F / 2 + o * step]
    {
      PeriodizedOutput(a, f, step, pad, o);
    }
  }

  /** Output `o` of the periodization kernel is output `F/2 + o * step` of the padded row's periodic convolution. */
  lemma PeriodizedOutput(a: seq<real>, f: seq<real>, step: nat, pad: nat, o: nat)
    requires |a| >= 1 && |f| >= 2 && step >= 1 && pad < step && (|a| + pad) % step == 0
    requires o < (|a| + pad) / step
    ensures |f| / 2 + o * step < |ConvolveValid(EdgeExtension(Periodic, Padded(a, pad), |f| - 1, |f| - 1, 1), f)|
    ensures D.PeriodizedAt(a, f, step, pad, o) == ConvolveValid(EdgeExtension(Periodic, Padded(a, pad), |f| - 1, |f| - 1, 1), f)[|f| / 2 + o * step]
  {
    CountSlot(o, step, |a| + pad);
    UnitConvolved(Periodic, Padded(a, pad), f, |f| - 1, |f| / 2 + o * step);
  }

  /** With the padding that completes the last step, the output count is the padded length over `step`. */
  lemma PeriodizedCountPadded(n: nat, step: nat, pad: nat)
    requires step >= 1 && pad < step && (n + pad) % step == 0
    ensures D.PeriodizedCount(n, step) == (n + pad) / step
  {
    var q := (n + pad) / step;
    assert n + pad == q * step;
    DivModOf(n + step - 1, step, q, step - 1 - pad);
  }

  // ---------------------------------------------------------------------------
  // Upsampling kernels.

  /** One term of a zero-padded sum: tap `t` against the sample `x - t`, if there is one. */
  function Tap(a: seq<real>, f: seq<real>, x: int, t: nat): real
    requires t < |f|
  {
    if 0 <= x - t < |a| then f[t] * a[x - t] else 0.0
  }

  lemma RowSumTop(a: seq<real>, f: seq<real>, x: int, hi: nat)
    requires 1 <= hi <= |f|
    ensures RowSum(a, f, x, 0, hi) == RowSum(a, f, x, 0, hi - 1) + Tap(a, f, x, hi - 1)
  {
  }

  /** Tap `t` of a sum over an upsampled row only reads a sample when `q - t` is even. */
  lemma UpsampledTap(a: seq<real>, f: seq<real>, q: int, t: nat)
    requires |a| >= 1 && t < |f|
    ensures Tap(Upsampled(a, 2), f, q, t) == if (q - t) % 2 == 0 && 0 <= (q - t) / 2 < |a| then f[t] * a[(q - t) / 2] else 0.0
  {
    var y := q - t;
    assert y == 2 * (y / 2) + y % 2;
    if 0 <= y < 2 * |a| {
      DivBelow(y, 2, |a|);
    }
  }

  /** Of the taps `2h - 2` and `2h - 1`, only the one of phase `q % 2` meets a sample of the upsampled row. */
  lemma UpsampledPair(a: seq<real>, f: seq<real>, q: int, h: nat)
    requires |a| >= 1 && 1 <= h && 2 * h <= |f|
    ensures Tap(Upsampled(a, 2), f, q, 2 * h - 2) + Tap(Upsampled(a, 2), f, q, 2 * h - 1)
      == Tap(a, Phase(f, q % 2), q / 2, h - 1)
  {
    var j := h - 1;
    UpsampledTap(a, f, q, 2 * j);
    UpsampledTap(a, f, q, 2 * j + 1);
    assert Phase(f, q % 2)[j] == f[2 * j + q % 2];
    if q % 2 == 0 {
      assert (q - 2 * j) % 2 == 0 && (q - 2 * j) / 2 == q / 2 - j && (q - (2 * j + 1)) % 2 == 1 by {
        DivModOf(q - 2 * j, 2, q / 2 - j, 0);
        DivModOf(q - (2 * j + 1), 2, q / 2 - j - 1, 1);
      }
    } else {
      assert (q - 2 * j) % 2 == 1 && (q - (2 * j + 1)) / 2 == q / 2 - j && (q - (2 * j + 1)) % 2 == 0 by {
        DivModOf(q - 2 * j, 2, q / 2 - j, 1);
        DivModOf(q - (2 * j + 1), 2, q / 2 - j, 0);
      }
    }
  }

  /**
   * Splitting the taps of an upsampled row by parity: only the taps of
   * phase `q % 2` meet a sample, and they read the row at `q / 2` downwards.
   */
  lemma {:induction false} UpsampledRowSum(a: seq<real>, f: seq<real>, q: int, h: nat)
    requires |a| >= 1 && 2 * h <= |f|
    ensures RowSum(Upsampled(a, 2), f, q, 0, 2 * h) == RowSum(a, Phase(f, q % 2), q / 2, 0, h)
  {
    if h > 0 {
      UpsampledRowSum(a, f, q, h - 1);
      UpsampledPair(a, f, q, h);
      RowSumTop(Upsampled(a, 2), f, q, 2 * h);
      RowSumTop(Upsampled(a, 2), f, q, 2 * h - 1);
      RowSumTop(a, Phase(f, q % 2), q / 2, h);
    }
  }

  /** With the input upsampled by 2, `unified_convolution` convolves the row extended by `F - 1` and `F - 2` slots. */
  lemma UnifiedTwo(a: seq<real>, f: seq<real>, mode: Mode)
    requires Extendable(mode, a) && |f| >= 3
    ensures |a| * 2 + (|f| - 1) + (|f| - 2) >= |f|
    ensures Unified(a, f, 2, 1, 1, mode) == ConvolveValid(EdgeExtension(mode, a, |f| - 1, |f| - 2, 2), f)
  {
    UpsampledOne(f);
    DownsampleUnit(ConvolveValid(EdgeExtension(mode, a, |f| - 1, |f| - 2, 2), f));
  }

  /**
   * The valid convolution of an upsampled row extended with zeros, or
   * periodically with an odd leading pad, is the tap sum over the upsampled
   * row's own extension.
   */
  lemma UpsampledConvolved(mode: Mode, a: seq<real>, f: seq<real>, x: nat)
    requires mode == ZeroPad || mode == Periodic
    requires |a| >= 1 && |f| >= 4 && |f| % 2 == 0 && x < 2 * |a| + |f| - 2
    ensures |a| * 2 + (|f| - 1) + (|f| - 2) >= |f|
    ensures x < |ConvolveValid(EdgeExtension(mode, a, |f| - 1, |f| - 2, 2), f)|
    ensures ConvolveValid(EdgeExtension(mode, a, |f| - 1, |f| - 2, 2), f)[x] == TapSum(mode, Upsampled(a, 2), f, x, 0, |f|)
  {
    var F := |f|;
    var e := EdgeExtension(mode, a, F - 1, F - 2, 2);
    var u := Upsampled(a, 2);
    assert |u| == |a| * 2 >= 2 && |e| == |u| + (F - 1) + (F - 2);
    UpsampledWindow(mode, a, F, x);
    ConvolveValidAt(e, f, x);
    RowSumOfExtension(e, mode, u, f, x, F - 1, 0, F);
  }

  /** The `F` slots of the extended upsampled row that output `x` reads. */
  lemma UpsampledWindow(mode: Mode, a: seq<real>, F: nat, x: nat)
    requires mode == ZeroPad || mode == Periodic
    requires |a| >= 1 && F >= 4 && F % 2 == 0 && x < 2 * |a| + F - 2
    ensures forall y :: x - F < y <= x ==> EdgeExtension(mode, a, F - 1, F - 2, 2)[y + (F - 1)] == Ext(mode, Upsampled(a, 2), y)
  {
    forall y | x - F < y <= x
      ensures EdgeExtension(mode, a, F - 1, F - 2, 2)[y + (F - 1)] == Ext(mode, Upsampled(a, 2), y)
    {
      UpsampledEdge(mode, a, F - 1, F - 2, y + (F - 1));
    }
  }

  /**
   * `unified_convolution(a, f, input_upsampling = 2, mode = 'zero-pad')` is
   * the full reconstruction, for every even filter of at least four taps (a
   * two-tap filter leaves no trailing pad and the reference raises).
   */
  lemma FullAgrees(a: seq<real>, f: seq<real>)
    requires |a| >= 1 && |f| >= 4 && |f| % 2 == 0
    ensures UnifiedConvolution(a, f, 2, 1, 1, "zero-pad") == Ok(U.UpsampledFull(a, f))
  {
    var F := |f|;
    UnifiedNamed(a, f, 2, 1, 1, "zero-pad", ZeroPad);
    UnifiedTwo(a, f, ZeroPad);
    var c := Unified(a, f, 2, 1, 1, ZeroPad);
    forall q | 0 <= q < |c|
      ensures c[q] == U.FullAt(a, f, q)
    {
      UpsampledConvolved(ZeroPad, a, f, q);
      ZeroPadRowSum(Upsampled(a, 2), f, q, 0, F);
      UpsampledRowSum(a, f, q, F / 2);
    }
  }

  /** Zero padding, or periodic extension with an odd leading pad, around an upsampled row is that row's own extension. */
  lemma UpsampledEdge(mode: Mode, a: seq<real>, n0: nat, n1: nat, x: nat)
    requires mode == ZeroPad || (mode == Periodic && n0 % 2 == 1)
    requires |a| >= 1 && x < |a| * 2 + n0 + n1
    ensures EdgeExtension(mode, a, n0, n1, 2)[x] == Ext(mode, Upsampled(a, 2), x - n0)
  {
    if mode == ZeroPad {
      ZeroPadEdge(a, n0, n1, x);
    } else {
      PeriodicEdge(a, n0, n1, x);
    }
  }

  /** Zero padding around an upsampled row is the zero-padded upsampled row. */
  lemma ZeroPadEdge(a: seq<real>, n0: nat, n1: nat, x: nat)
    requires |a| >= 1 && x < |a| * 2 + n0 + n1
    ensures EdgeExtension(ZeroPad, a, n0, n1, 2)[x] == Ext(ZeroPad, Upsampled(a, 2), x - n0)
  {
  }

  /** The valid-part reconstruction is the middle of the full one: it drops `F/2 - 1` pairs at each end. */
  lemma ValidIsMiddleOfFull(a: seq<real>, f: seq<real>)
    requires |f| >= 2 && |f| / 2 <= |a|
    ensures 2 * (|f| / 2 - 1) + |U.UpsampledValid(a, f)| <= |U.UpsampledFull(a, f)|
    ensures U.UpsampledValid(a, f) == U.UpsampledFull(a, f)[2 * (|f| / 2 - 1) .. 2 * (|f| / 2 - 1) + |U.UpsampledValid(a, f)|]
  {
    var s := 2 * (|f| / 2 - 1);
    var v := U.UpsampledValid(a, f);
    forall q | 0 <= q < |v|
      ensures v[q] == U.FullAt(a, f, q + s)
    {
      DivModOf(q + s, 2, q / 2 + |f| / 2 - 1, q % 2);
    }
  }

  /** The periodic extension of an upsampled row reads the row's periodic extension at even positions. */
  lemma PeriodicUpsampled(a: seq<real>, z: int)
    requires |a| >= 1
    ensures Ext(Periodic, Upsampled(a, 2), z) == if z % 2 == 0 then Ext(Periodic, a, z / 2) else 0.0
  {
    var n := |a|;
    var w := z / 2;
    PeriodicExt(Upsampled(a, 2), z);
    PeriodicExt(a, w);
    DivModOf(z, 2 * n, w / n, 2 * (w % n) + z % 2);
    DivModOf(2 * (w % n) + z % 2, 2, w % n, z % 2);
  }

  /** Of the taps `2h - 2` and `2h - 1`, only the one of phase `q % 2` meets a sample of the periodically extended upsampled row. */
  lemma PeriodicPair(a: seq<real>, f: seq<real>, q: int, h: nat)
    requires |a| >= 1 && 1 <= h && 2 * h <= |f|
    ensures ExtTap(Periodic, Upsampled(a, 2), f, q, 2 * h - 2) + ExtTap(Periodic, Upsampled(a, 2), f, q, 2 * h - 1)
      == ExtTap(Periodic, a, Phase(f, q % 2), q / 2, h - 1)
  {
    var j := h - 1;
    PeriodicUpsampled(a, q - 2 * j);
    PeriodicUpsampled(a, q - (2 * j + 1));
    assert Phase(f, q % 2)[j] == f[2 * j + q % 2];
    if q % 2 == 0 {
      assert (q - 2 * j) % 2 == 0 && (q - 2 * j) / 2 == q / 2 - j && (q - (2 * j + 1)) % 2 == 1 by {
        DivModOf(q - 2 * j, 2, q / 2 - j, 0);
        DivModOf(q - (2 * j + 1), 2, q / 2 - j - 1, 1);
      }
    } else {
      assert (q - 2 * j) % 2 == 1 && (q - (2 * j + 1)) / 2 == q / 2 - j && (q - (2 * j + 1)) % 2 == 0 by {
        DivModOf(q - 2 * j, 2, q / 2 - j, 1);
        DivModOf(q - (2 * j + 1), 2, q / 2 - j, 0);
      }
    }
  }

  /** One term of a tap sum: tap `t` against the extended row at `x - t`. */
  function ExtTap(mode: Mode, a: seq<real>, f: seq<real>, x: int, t: nat): real
    requires Extendable(mode, a) && t < |f|
  {
    f[t] * Ext(mode, a, x - t)
  }

  lemma TapSumTop(mode: Mode, a: seq<real>, f: seq<real>, x: int, hi: nat)
    requires Extendable(mode, a) && 1 <= hi <= |f|
    ensures TapSum(mode, a, f, x, 0, hi) == TapSum(mode, a, f, x, 0, hi - 1) + ExtTap(mode, a, f, x, hi - 1)
  {
  }

  /** Periodic extension of an upsampled row, split by tap parity. */
  lemma {:induction false} UpsampledTapSum(a: seq<real>, f: seq<real>, q: int, h: nat)
    requires |a| >= 1 && 2 * h <= |f|
    ensures TapSum(Periodic, Upsampled(a, 2), f, q, 0, 2 * h) == TapSum(Periodic, a, Phase(f, q % 2), q / 2, 0, h)
  {
    if h > 0 {
      UpsampledTapSum(a, f, q, h - 1);
      PeriodicPair(a, f, q, h);
      TapSumTop(Periodic, Upsampled(a, 2), f, q, 2 * h);
      TapSumTop(Periodic, Upsampled(a, 2), f, q, 2 * h - 1);
      TapSumTop(Periodic, a, Phase(f, q % 2), q / 2, h);
    }
  }

  /** A periodic tap sum repeats after one row length. */
  lemma {:induction false} TapSumPeriod(a: seq<real>, f: seq<real>, x: int, lo: nat, hi: nat)
    requires |a| >= 1 && hi <= |f|
    ensures TapSum(Periodic, a, f, x + |a|, lo, hi) == TapSum(Periodic, a, f, x, lo, hi)
    decreases hi
  {
    if lo < hi {
      TapSumPeriod(a, f, x, lo, hi - 1);
      PeriodicExt(a, x + |a| - (hi - 1));
      PeriodicExt(a, x - (hi - 1));
      ModPeriod(x - (hi - 1), |a|, 1);
    }
  }

  /**
   * Slot `q` of the periodization reconstruction takes the phase and centre
   * of output `q + F/2 - 1` of the full convolution, except that with an even
   * `F/2` slot 0 takes its centre one row length on.
   */
  lemma PeriodizedCentreOf(n: nat, F: nat, q: nat)
    requires F >= 2 && F % 2 == 0 && q < 2 * n
    ensures var k := q + F / 2 - 1;
      U.PeriodizedPhase(F, q) == k % 2
      && U.PeriodizedCentre(n, F, q) == k / 2 + (if (F / 2) % 2 == 0 && q == 0 then n else 0)
  {
    var k := q + F / 2 - 1;
    if (F / 2) % 2 == 1 {
      DivModOf(F / 2, 2, F / 4, 1);
      DivModOf(k, 2, F / 4 + q / 2, q % 2);
    } else if q == 0 {
      DivModOf(F / 2, 2, F / 4, 0);
      DivModOf(k, 2, F / 4 - 1, 1);
    } else {
      DivModOf(F / 2, 2, F / 4, 0);
      DivModOf(k, 2, F / 4 + (q - 1) / 2, (q - 1) % 2);
    }
  }

  /** Slot `q` of the periodization reconstruction is output `q + F/2 - 1` of the periodic convolution of the upsampled row. */
  lemma PeriodizedSlot(a: seq<real>, f: seq<real>, q: nat)
    requires |a| >= 1 && |f| >= 2 && |f| % 2 == 0 && q < 2 * |a|
    ensures U.PeriodizedAt(a, f, q) == TapSum(Periodic, Upsampled(a, 2), f, q + |f| / 2 - 1, 0, |f|)
  {
    var F := |f|;
    var k := q + F / 2 - 1;
    var g := Phase(f, k % 2);
    assert TapSum(Periodic, Upsampled(a, 2), f, k, 0, F) == TapSum(Periodic, a, g, k / 2, 0, F / 2) by {
      UpsampledTapSum(a, f, k, F / 2);
      assert 2 * (F / 2) == F;
    }
    PeriodizedCentreOf(|a|, F, q);
    if (F / 2) % 2 == 0 && q == 0 {
      TapSumPeriod(a, g, k / 2, 0, F / 2);
    }
  }

  /** A leading fill slot of the periodic extension holds the upsampled row's periodic extension. */
  lemma PeriodicLead(a: seq<real>, n0: nat, n1: nat, x: nat)
    requires |a| >= 1 && n0 % 2 == 1 && LeadSlot(n0, 2, x)
    ensures LeftValue(Periodic, a, LeadIndex(n0, 2, x)) == Ext(Periodic, Upsampled(a, 2), x - n0)
  {
    var k := LeadIndex(n0, 2, x);
    var z := x - n0;
    PeriodicUpsampled(a, z);
    DivModOf(x, 2, x / 2, 1);
    DivModOf(n0, 2, n0 / 2, 1);
    DivModOf(z, 2, -(k as int) - 1, 0);
    LeftExt(Periodic, a, k);
  }

  /** A trailing fill slot of the periodic extension holds the upsampled row's periodic extension. */
  lemma PeriodicTrail(a: seq<real>, len: nat, n1: nat, n0: nat, x: nat)
    requires |a| >= 1 && len == |a| * 2 + n0 + n1 && x < len && TrailSlot(len, n1, 2, x)
    ensures RightValue(Periodic, a, TrailIndex(len, n1, 2, x)) == Ext(Periodic, Upsampled(a, 2), x - n0)
  {
    var k := TrailIndex(len, n1, 2, x);
    var z := x - n0;
    PeriodicUpsampled(a, z);
    DivModOf(z, 2, |a| + k, 0);
    RightExt(Periodic, a, k);
  }

  /** Between fill slots the extension holds zeros, and so does the upsampled row's periodic extension. */
  lemma PeriodicGap(a: seq<real>, z: int)
    requires |a| >= 1 && z % 2 == 1
    ensures Ext(Periodic, Upsampled(a, 2), z) == 0.0
  {
    PeriodicUpsampled(a, z);
  }

  /** A periodic extension around an upsampled row, with an odd leading pad, is the upsampled row's periodic extension. */
  lemma PeriodicEdge(a: seq<real>, n0: nat, n1: nat, x: nat)
    requires |a| >= 1 && n0 % 2 == 1 && x < |a| * 2 + n0 + n1
    ensures EdgeExtension(Periodic, a, n0, n1, 2)[x] == Ext(Periodic, Upsampled(a, 2), x - n0)
  {
    var len := |a| * 2 + n0 + n1;
    assert EdgeExtension(Periodic, a, n0, n1, 2)[x] == EdgeAt(Periodic, a, n0, n1, 2, x);
    if LeadSlot(n0, 2, x) {
      PeriodicLead(a, n0, n1, x);
    } else if x < n0 {
      assert (x - n0) % 2 == 1 by {
        DivModOf(x, 2, x / 2, 0);
        DivModOf(n0, 2, n0 / 2, 1);
        DivModOf(x - n0, 2, x / 2 - n0 / 2 - 1, 1);
      }
      PeriodicGap(a, x - n0);
    } else if x < n0 + |a| * 2 {
    } else if TrailSlot(len, n1, 2, x) {
      PeriodicTrail(a, len, n1, n0, x);
    } else {
      var m := x - (len - n1);
      assert (x - n0) % 2 == 1 by {
        DivModOf(m, 2, m / 2, 1);
        DivModOf(x - n0, 2, |a| + m / 2, 1);
      }
      PeriodicGap(a, x - n0);
    }
  }

  /**
   * `unified_convolution(a, f, input_upsampling = 2, mode = 'periodic')`
   * contains the periodization reconstruction: its `2N` outputs starting at
   * `F/2 - 1`, for every even filter of at least four taps.
   */
  lemma PeriodizedAgrees(a: seq<real>, f: seq<real>)
    requires |a| >= 1 && |f| >= 4 && |f| % 2 == 0
    ensures UnifiedConvolution(a, f, 2, 1, 1, "periodic").Ok?
    ensures var c := UnifiedConvolution(a, f, 2, 1, 1, "periodic").value;
      |f| / 2 - 1 + 2 * |a| <= |c| && U.UpsampledPeriodized(a, f) == c[|f| / 2 - 1 .. |f| / 2 - 1 + 2 * |a|]
  {
    var F := |f|;
    UnifiedNamed(a, f, 2, 1, 1, "periodic", Periodic);
    UnifiedTwo(a, f, Periodic);
    var c := Unified(a, f, 2, 1, 1, Periodic);
    forall q | 0 <= q < 2 * |a|
      ensures U.UpsampledPeriodized(a, f)[q] == c[F / 2 - 1 + q]
    {
      UpsampledConvolved(Periodic, a, f, q + F / 2 - 1);
      PeriodizedSlot(a, f, q);
    }
  }
}
