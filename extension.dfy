/**
 * The signal model shared by every convolution routine: a finite row of
 * samples, the virtual samples an edge-extension mode supplies outside it,
 * and the filter sums the kernels compute over those samples.
 */
module Extension {
  import opened Arith

  /** The signal-extension modes of the C library (`MODE` in common.h). */
  datatype Mode = ZeroPad | Symmetric | ConstantEdge | Smooth | Periodic | Periodization

  /** A row can be extended in `mode`: at least one sample, two for smooth slopes. */
  predicate Extendable(mode: Mode, a: seq<real>) {
    |a| >= 1 && (mode == Smooth ==> |a| >= 2)
  }

  /** The kernels fall back from smooth to constant edges on rows shorter than two samples. */
  function KernelMode(mode: Mode, n: nat): (m: Mode)
    ensures n >= 1 ==> forall a: seq<real> :: |a| == n ==> Extendable(m, a)
    ensures m != mode ==> mode == Smooth && m == ConstantEdge
  {
    if mode == Smooth && n < 2 then ConstantEdge else mode
  }

  /**
   * The virtual sample at position `x` (any integer) of row `a` extended in `mode`.
   * Periodization has no virtual samples of its own (it periodically extends a
   * padded row, see `Padded`); like zero padding it reads 0 outside the row.
   */
  function Ext(mode: Mode, a: seq<real>, x: int): real
    requires Extendable(mode, a)
  {
    var n := |a|;
    if 0 <= x < n then a[x]
    else match mode
      case ZeroPad => 0.0
      case Periodization => 0.0
      case ConstantEdge => if x < 0 then a[0] else a[n - 1]
      case Smooth =>
        if x < 0 then a[0] + (-x) as real * (a[0] - a[1])
        else a[n - 1] + (x - n + 1) as real * (a[n - 1] - a[n - 2])
      case Periodic => a[Wrap(n, x)]
      case Symmetric => a[Reflect(n, x)]
  }

  /** The row index periodic extension reads at `x`: shift by whole periods of `n`. */
  function Wrap(n: nat, x: int): (k: nat)
    requires n >= 1
    ensures k < n
    decreases if x < 0 then n - x else x
  {
    if 0 <= x < n then x
    else if x < 0 then Wrap(n, x + n)
    else Wrap(n, x - n)
  }

  /**
   * The row index symmetric extension reads at `x`: shift by whole periods of
   * `2 * n`, then mirror the upper half (the edge sample is repeated).
   */
  function Reflect(n: nat, x: int): (k: nat)
    requires n >= 1
    ensures k < n
    decreases if x < 0 then 2 * n - x else x
  {
    if 0 <= x < 2 * n then (if x < n then x else 2 * n - 1 - x)
    else if x < 0 then Reflect(n, x + 2 * n)
    else Reflect(n, x - 2 * n)
  }

  /** `Wrap` is the Euclidean residue. */
  lemma {:induction false} WrapMod(n: nat, x: int)
    requires n >= 1
    ensures Wrap(n, x) == x % n
    decreases if x < 0 then n - x else x
  {
    if 0 <= x < n {
      DivModOf(x, n, 0, x);
    } else if x < 0 {
      WrapMod(n, x + n);
      ModPeriod(x, n, 1);
    } else {
      WrapMod(n, x - n);
      ModPeriod(x - n, n, 1);
    }
  }

  /** `Reflect` mirrors the Euclidean residue modulo `2 * n`. */
  lemma {:induction false} ReflectMod(n: nat, x: int)
    requires n >= 1
    ensures var p := x % (2 * n); Reflect(n, x) == if p < n then p else 2 * n - 1 - p
    decreases if x < 0 then 2 * n - x else x
  {
    if 0 <= x < 2 * n {
      DivModOf(x, 2 * n, 0, x);
    } else if x < 0 {
      ReflectMod(n, x + 2 * n);
      ModPeriod(x, 2 * n, 1);
    } else {
      ReflectMod(n, x - 2 * n);
      ModPeriod(x - 2 * n, 2 * n, 1);
    }
  }

  /**
   * The `off`-th sample to the left of the row (position `-(off + 1)`), in the
   * order the kernels' left-edge loops visit the row: symmetric runs forward
   * then back, periodic runs back from the last sample.
   */
  function LeftValue(mode: Mode, a: seq<real>, off: nat): real
    requires Extendable(mode, a)
  {
    var n := |a|;
    match mode
      case ZeroPad => 0.0
      case Periodization => 0.0
      case ConstantEdge => a[0]
      case Smooth => a[0] + (off + 1) as real * (a[0] - a[1])
      case Periodic => a[n - 1 - off % n]
      case Symmetric =>
        var r := off % (2 * n);
        if r < n then a[r] else a[2 * n - 1 - r]
  }

  /** The `off`-th sample to the right of the row (position `|a| + off`), in loop order. */
  function RightValue(mode: Mode, a: seq<real>, off: nat): real
    requires Extendable(mode, a)
  {
    var n := |a|;
    match mode
      case ZeroPad => 0.0
      case Periodization => 0.0
      case ConstantEdge => a[n - 1]
      case Smooth => a[n - 1] + (off + 1) as real * (a[n - 1] - a[n - 2])
      case Periodic => a[off % n]
      case Symmetric =>
        var r := off % (2 * n);
        if r < n then a[n - 1 - r] else a[r - n]
  }

  /** `x` is a whole number of periods of length `m`. */
  ghost predicate Periods(x: nat, m: nat)
    decreases x
  {
    x == 0 || (1 <= m <= x && Periods(x - m, m))
  }

  /** Shifting by whole periods does not move the index periodic extension reads. */
  lemma {:induction false} WrapShift(n: nat, x: int, d: nat)
    requires n >= 1 && Periods(d, n)
    ensures Wrap(n, x + d) == Wrap(n, x) && Wrap(n, x - d) == Wrap(n, x)
    decreases d
  {
    if d > 0 {
      WrapShift(n, x, d - n);
      assert Wrap(n, x + d) == Wrap(n, x + (d - n));
      assert Wrap(n, x - (d - n)) == Wrap(n, x - d);
    }
  }

  /** Shifting by whole periods of `2 * n` does not move the index symmetric extension reads. */
  lemma {:induction false} ReflectShift(n: nat, x: int, d: nat)
    requires n >= 1 && Periods(d, 2 * n)
    ensures Reflect(n, x + d) == Reflect(n, x) && Reflect(n, x - d) == Reflect(n, x)
    decreases d
  {
    if d > 0 {
      ReflectShift(n, x, d - 2 * n);
      assert Reflect(n, x + d) == Reflect(n, x + (d - 2 * n));
      assert Reflect(n, x - (d - 2 * n)) == Reflect(n, x - d);
    }
  }

  /** Walking left from the row visits the extension in `LeftValue` order. */
  lemma LeftExt(mode: Mode, a: seq<real>, off: nat)
    requires Extendable(mode, a)
    ensures Ext(mode, a, -(off + 1)) == LeftValue(mode, a, off)
  {
    match mode {
      case Periodic =>
        LeftWrap(|a|, off);
      case Symmetric =>
        LeftReflect(|a|, off);
      case _ =>
    }
  }

  /** The index periodic extension reads `off + 1` places left of the row. */
  lemma LeftWrap(n: nat, off: nat)
    requires n >= 1
    ensures Wrap(n, -(off + 1)) == n - 1 - off % n
  {
    WrapMod(n, -(off + 1));
    DivModOf(-(off + 1), n, -(off / n) - 1, n - 1 - off % n);
  }

  /** The index symmetric extension reads `off + 1` places left of the row. */
  lemma LeftReflect(n: nat, off: nat)
    requires n >= 1
    ensures var r := off % (2 * n); Reflect(n, -(off + 1)) == if r < n then r else 2 * n - 1 - r
  {
    ReflectMod(n, -(off + 1));
    var r := off % (2 * n);
    DivModOf(-(off + 1), 2 * n, -(off / (2 * n)) - 1, 2 * n - 1 - r);
  }

  /** Walking right from the row visits the extension in `RightValue` order. */
  lemma RightExt(mode: Mode, a: seq<real>, off: nat)
    requires Extendable(mode, a)
    ensures Ext(mode, a, |a| + off) == RightValue(mode, a, off)
  {
    var n := |a|;
    match mode {
      case Periodic =>
        WrapMod(n, n + off);
        DivModOf(n + off, n, off / n + 1, off % n);
      case Symmetric =>
        RightReflect(n, off);
      case _ =>
    }
  }

  lemma RightReflect(n: nat, off: nat)
    requires n >= 1
    ensures var r := off % (2 * n); Reflect(n, n + off) == if r < n then n - 1 - r else r - n
  {
    var x := n + off;
    var m := 2 * n;
    var r := off % m;
    var q := off / m;
    assert off == q * m + r;
    ReflectMod(n, x);
    if r < n {
      DivModOf(x, m, q, n + r);
    } else {
      MulNext(q, m);
      DivModOf(x, m, q + 1, r - n);
    }
  }

  /** Periodic extension is a plain residue lookup, inside the row as well as outside. */
  lemma PeriodicExt(a: seq<real>, x: int)
    requires |a| >= 1
    ensures Ext(Periodic, a, x) == a[x % |a|]
  {
    WrapMod(|a|, x);
  }

  /** The row a periodization kernel extends: `a` followed by `pad` copies of its last sample. */
  function Padded(a: seq<real>, pad: nat): (p: seq<real>)
    requires |a| >= 1
    ensures |p| == |a| + pad && p[..|a|] == a
    ensures forall k :: |a| <= k < |p| ==> p[k] == a[|a| - 1]
  {
    a + seq(pad, _ => a[|a| - 1])
  }

  /** `filter[lo..hi]` applied to the extended row at position `x`: the sum of `filter[t] * Ext(x - t)`. */
  function TapSum(mode: Mode, a: seq<real>, filter: seq<real>, x: int, lo: nat, hi: nat): real
    requires Extendable(mode, a) && hi <= |filter|
    decreases hi
  {
    if hi <= lo then 0.0
    else TapSum(mode, a, filter, x, lo, hi - 1) + filter[hi - 1] * Ext(mode, a, x - (hi - 1))
  }

  /** A tap range splits at any midpoint. */
  lemma {:induction false} TapSumSplit(mode: Mode, a: seq<real>, filter: seq<real>, x: int, lo: nat, mid: nat, hi: nat)
    requires Extendable(mode, a) && lo <= mid <= hi <= |filter|
    ensures TapSum(mode, a, filter, x, lo, hi)
         == TapSum(mode, a, filter, x, lo, mid) + TapSum(mode, a, filter, x, mid, hi)
    decreases hi
  {
    if mid < hi {
      TapSumSplit(mode, a, filter, x, lo, mid, hi - 1);
    }
  }

  /** Peeling the lowest tap off a range. */
  lemma TapSumLow(mode: Mode, a: seq<real>, filter: seq<real>, x: int, lo: nat, hi: nat)
    requires Extendable(mode, a) && lo < hi <= |filter|
    ensures TapSum(mode, a, filter, x, lo, hi)
         == filter[lo] * Ext(mode, a, x - lo) + TapSum(mode, a, filter, x, lo + 1, hi)
  {
    TapSumSplit(mode, a, filter, x, lo, lo + 1, hi);
    assert TapSum(mode, a, filter, x, lo, lo) == 0.0;
  }

  /** Two extensions that agree on every sample a tap range reads give the same sum. */
  lemma {:induction false} TapSumAgree(m1: Mode, a1: seq<real>, m2: Mode, a2: seq<real>, filter: seq<real>, x: int, lo: nat, hi: nat)
    requires Extendable(m1, a1) && Extendable(m2, a2) && hi <= |filter|
    requires forall y :: x - hi < y <= x - lo ==> Ext(m1, a1, y) == Ext(m2, a2, y)
    ensures TapSum(m1, a1, filter, x, lo, hi) == TapSum(m2, a2, filter, x, lo, hi)
    decreases hi
  {
    if lo < hi {
      TapSumAgree(m1, a1, m2, a2, filter, x, lo, hi - 1);
      var y := x - (hi - 1);
      assert Ext(m1, a1, y) == Ext(m2, a2, y);
    }
  }

  /** Zero padding (and the kernels' default branch) contributes nothing from taps outside the row. */
  lemma {:induction false} TapSumZeroOutside(mode: Mode, a: seq<real>, filter: seq<real>, x: int, lo: nat, hi: nat)
    requires mode == ZeroPad || mode == Periodization
    requires |a| >= 1 && hi <= |filter|
    requires lo < hi ==> x - lo < 0 || x - (hi - 1) >= |a|
    ensures TapSum(mode, a, filter, x, lo, hi) == 0.0
    decreases hi
  {
    if lo < hi {
      TapSumZeroOutside(mode, a, filter, x, lo, hi - 1);
    }
  }

  /** The zero-padded filter sum: taps whose sample falls outside the row contribute nothing. */
  function RowSum(a: seq<real>, filter: seq<real>, x: int, lo: nat, hi: nat): real
    requires hi <= |filter|
    decreases hi
  {
    if hi <= lo then 0.0
    else
      var y := x - (hi - 1);
      RowSum(a, filter, x, lo, hi - 1) + (if 0 <= y < |a| then filter[hi - 1] * a[y] else 0.0)
  }

  lemma {:induction false} RowSumSplit(a: seq<real>, filter: seq<real>, x: int, lo: nat, mid: nat, hi: nat)
    requires lo <= mid <= hi <= |filter|
    ensures RowSum(a, filter, x, lo, hi) == RowSum(a, filter, x, lo, mid) + RowSum(a, filter, x, mid, hi)
    decreases hi
  {
    if mid < hi {
      RowSumSplit(a, filter, x, lo, mid, hi - 1);
    }
  }

  /**
   * Inside the row every mode reads the row itself. Taps that stay inside a
   * prefix `a` of the extended row `p` (the unpadded input of a periodization
   * kernel) read `a`.
   */
  lemma {:induction false} TapSumInRow(mode: Mode, p: seq<real>, a: seq<real>, filter: seq<real>, x: int, lo: nat, hi: nat)
    requires Extendable(mode, p) && hi <= |filter| && |a| <= |p| && p[..|a|] == a
    requires lo < hi ==> 0 <= x - (hi - 1) && x - lo < |a|
    ensures TapSum(mode, p, filter, x, lo, hi) == RowSum(a, filter, x, lo, hi)
    decreases hi
  {
    if lo < hi {
      TapSumInRow(mode, p, a, filter, x, lo, hi - 1);
      assert p[x - (hi - 1)] == a[x - (hi - 1)];
    }
  }

  /** Zero padding is exactly the zero-padded sum, wherever the taps fall. */
  lemma {:induction false} ZeroPadRowSum(a: seq<real>, filter: seq<real>, x: int, lo: nat, hi: nat)
    requires |a| >= 1 && hi <= |filter|
    ensures TapSum(ZeroPad, a, filter, x, lo, hi) == RowSum(a, filter, x, lo, hi)
    decreases hi
  {
    if lo < hi {
      ZeroPadRowSum(a, filter, x, lo, hi - 1);
    }
  }

  /** The sum restricted to one parity class of taps: `filter[2t + r]` for `r` in {0, 1}. */
  function Phase(filter: seq<real>, r: nat): (p: seq<real>)
    requires r < 2
    ensures |p| == |filter| / 2
  {
    seq(|filter| / 2, t requires 0 <= t < |filter| / 2 => filter[2 * t + r])
  }

  // ---------------------------------------------------------------------------
  // Strided rows: sample k of a row of n samples sits at buf[k * stride].

  predicate Fits(buf: seq<real>, n: nat, stride: nat) {
    stride >= 1 && (n - 1) * stride < |buf|
  }

  lemma SampleInBounds(buf: seq<real>, n: nat, stride: nat, k: nat)
    requires Fits(buf, n, stride) && k < n
    ensures 0 <= k * stride < |buf|
  {
    MulMono(k, n - 1, stride);
  }

  function Sample(buf: seq<real>, n: nat, stride: nat, k: nat): real
    requires Fits(buf, n, stride) && k < n
  {
    SampleInBounds(buf, n, stride, k);
    buf[k * stride]
  }

  /** The row of `n` samples `buf[0], buf[stride], ...` as a plain sequence. */
  function View(buf: seq<real>, n: nat, stride: nat): (v: seq<real>)
    requires Fits(buf, n, stride)
    ensures |v| == n
  {
    seq(n, k requires 0 <= k < n => Sample(buf, n, stride, k))
  }

  /** `a` is the row of `n` samples stored in `buf` at stride `stride`. */
  ghost predicate Stores(buf: seq<real>, n: nat, stride: nat, a: seq<real>) {
    Fits(buf, n, stride) && |a| == n && forall k :: 0 <= k < n ==> Sample(buf, n, stride, k) == a[k]
  }

  /** A strided row stores exactly its view. */
  lemma StoresView(buf: seq<real>, n: nat, stride: nat, a: seq<real>)
    requires Fits(buf, n, stride)
    ensures Stores(buf, n, stride, a) <==> a == View(buf, n, stride)
  {
    if Stores(buf, n, stride, a) {
      assert forall k | 0 <= k < n :: a[k] == View(buf, n, stride)[k];
    }
  }

  lemma ViewUnit(buf: seq<real>)
    ensures Fits(buf, |buf|, 1) && View(buf, |buf|, 1) == buf
  {
    assert Fits(buf, |buf|, 1);
    forall k | 0 <= k < |buf|
      ensures View(buf, |buf|, 1)[k] == buf[k]
    {
    }
  }
}
