/**
 * The unified-convolution prototype (`pywt/src/unified_convolution.c`):
 * `ceil_div`, three minimal reference kernels that skip edge handling, and
 * `unified_convolution`, one loop family that extends the row on demand.
 * Every kernel adds into `output` (`+=`), so callers zero it first.
 */
module Prototype {
  import opened Arith
  import opened Extension
  import opened Taps
  import opened Downsampling
  import opened Upsampling
  import Reference

  /** `ceil_div`: the least `q` with `q * d >= n`. */
  function CeilDiv(n: nat, d: nat): (q: nat)
    requires d > 0
    ensures q * d >= n && (q == 0 || (q - 1) * d < n)
  {
    var q := n / d;
    assert n == q * d + n % d;
    assert (q + 1) * d == q * d + d;
    q + (if n % d != 0 then 1 else 0)
  }

  /** No smaller multiple covers `n`; in particular `ceil_div(N, step)` counts the periodization outputs. */
  lemma CeilDivLeast(n: nat, d: nat, p: nat)
    requires d > 0 && p * d >= n
    ensures CeilDiv(n, d) <= p
    ensures CeilDiv(n, d) == PeriodizedCount(n, d)
  {
    var q := CeilDiv(n, d);
    if p < q {
      MulMono(p, q - 1, d);
    }
    CeilCount(q, d, n);
  }

  // ---------------------------------------------------------------------------
  // Reference `downsampling_convolution`: no edge handling.

  /** `for (f = 0; f < F; f++) output[p] += input[x - f] * filter[f]`: one output, all taps inside the row. */
  method AccumulateRow(input: seq<real>, filter: seq<real>, output: array<real>, p: nat, x: nat)
    requires p < output.Length && |filter| <= x + 1 && x < |input|
    modifies output
    ensures output[p] == old(output[p]) + RowSum(input, filter, x, 0, |filter|)
    ensures forall k :: 0 <= k < output.Length && k != p ==> output[k] == old(output[k])
  {
    var f := 0;
    while f < |filter|
      invariant f <= |filter|
      invariant output[p] == old(output[p]) + RowSum(input, filter, x, 0, f)
      invariant forall k :: 0 <= k < output.Length && k != p ==> output[k] == old(output[k])
    {
      output[p] := output[p] + filter[f] * input[x - f];
      f := f + 1;
    }
  }

  /**
   * `downsampling_convolution`: for every `i` with `i * s + F + s - 1 < N`,
   * the interior filter sum centred there is added to `output[i + (F + s - 1) / 2]`.
   * Only samples from `s` on are read; nothing else in `output` changes.
   */
  method ReferenceDownsampling(input: seq<real>, s: nat, filter: seq<real>, output: array<real>)
    requires s >= 1
    requires (|filter| + s - 1) / 2 + Centres(|filter| + s - 1, s, |input|) <= output.Length
    modifies output
    ensures forall q :: 0 <= q < output.Length ==> (output[q] == old(output[q])
      + (if (|filter| + s - 1) / 2 <= q < (|filter| + s - 1) / 2 + Centres(|filter| + s - 1, s, |input|)
       then RowSum(input, filter, |filter| + s - 1 + (q - (|filter| + s - 1) / 2) * s, 0, |filter|) else 0.0))
  {
    var start := |filter| + s - 1;
    var oStart := start / 2;
    ghost var count := Centres(start, s, |input|);
    ghost var base := output[..];
    var i, x := 0, start;
    while x < |input|
      invariant x == start + i * s && i <= count
      invariant forall q :: 0 <= q < output.Length ==> (output[q] == base[q]
        + (if oStart <= q < oStart + i then RowSum(input, filter, start + (q - oStart) * s, 0, |filter|) else 0.0))
      decreases |input| - x
    {
      CentresBelow(start, s, |input|, i);
      AccumulateRow(input, filter, output, i + oStart, x);
      MulNext(i, s);
      i, x := i + 1, x + s;
    }
    CentresBelow(start, s, |input|, i);
  }

  /**
   * At step 2 with an even filter the reference kernel writes the interior
   * outputs of `_downsampling_convolution` in their own slots: slot
   * `i + F/2` holds the filter sum centred on `1 + 2(i + F/2)`, in any mode.
   */
  lemma ReferenceDownsamplingAgrees(mode: Mode, a: seq<real>, filter: seq<real>, i: nat)
    requires Extendable(mode, a) && |filter| >= 2 && |filter| % 2 == 0
    requires i < Centres(|filter| + 1, 2, |a|)
    ensures i + |filter| / 2 < DownCount(|a|, |filter|, 2)
    ensures RowSum(a, filter, |filter| + 1 + i * 2, 0, |filter|) == DownsampledAt(mode, a, filter, 2, i + |filter| / 2)
  {
    var F := |filter|;
    CentresBelow(F + 1, 2, |a|, i);
    var o := i + F / 2;
    assert 2 - 1 + o * 2 == F + 1 + i * 2;
    CountBelow(o, 2, |a| + F - 1);
    assert a[..|a|] == a;
    TapSumInRow(KernelMode(mode, |a|), a, a, filter, F + 1 + i * 2, 0, F);
  }

  // ---------------------------------------------------------------------------
  // Reference `upsampling_convolution`: the valid part only.

  /** The taps `f < k` of phase `r` (`f % s == r`), tap `f` reading sample `c - f / s`. */
  function StepSum(a: seq<real>, filter: seq<real>, s: nat, c: int, r: nat, k: nat): real
    requires s >= 1 && k <= |filter|
  {
    if k == 0 then 0.0
    else
      var f := k - 1;
      StepSum(a, filter, s, c, r, f)
        + (if f % s == r && 0 <= c - f / s < |a| then filter[f] * a[c - f / s] else 0.0)
  }

  /** Output slot `q` of the reference upsampling: row `q / s`, phase `q % s`. */
  function UpAt(a: seq<real>, filter: seq<real>, s: nat, rows: nat, q: nat): real
    requires s >= 1
  {
    if q / s < rows then StepSum(a, filter, s, q / s + |filter| / 2 - 1, q % s, |filter|) else 0.0
  }

  /** Rows the reference upsampling visits: `i + F/2 - 1 < N` (none when `F < 2`, where the start index wraps). */
  function UpRows(n: nat, f: nat): nat {
    if f / 2 == 0 || n + 1 < f / 2 then 0 else n + 1 - f / 2
  }

  /** `output[p + f % s] += filter[f] * input[c - f / s]`: tap `f` of a row. */
  method UpsampleTap(input: seq<real>, filter: seq<real>, output: array<real>, s: nat, c: int, p: nat, f: nat,
                     ghost b: seq<real>)
    requires s >= 1 && f < |filter| && 0 <= c - f / s < |input| && p + s <= output.Length == |b|
    requires forall q :: 0 <= q < output.Length ==> (output[q] == b[q]
      + (if p <= q < p + s then StepSum(input, filter, s, c, q - p, f) else 0.0))
    modifies output
    ensures forall q :: 0 <= q < output.Length ==> (output[q] == b[q]
      + (if p <= q < p + s then StepSum(input, filter, s, c, q - p, f + 1) else 0.0))
  {
    var m := f % s;
    assert 0 <= m < s;
    output[p + m] := output[p + m] + filter[f] * input[c - f / s];
  }

  /** One row of the reference upsampling: tap `f` goes to slot `i * s + f % s`. */
  method UpsampleRow(input: seq<real>, filter: seq<real>, output: array<real>, s: nat, i: nat, p: nat)
    requires s >= 1 && |filter| >= 2 && p == i * s && (|filter| - 1) / s <= |filter| / 2 - 1
    requires i + |filter| / 2 - 1 < |input| && p + s <= output.Length
    modifies output
    ensures forall q :: 0 <= q < output.Length ==> (output[q] == old(output[q])
      + (if p <= q < p + s then StepSum(input, filter, s, i + |filter| / 2 - 1, q - p, |filter|) else 0.0))
  {
    var c := i + |filter| / 2 - 1;
    ghost var b := output[..];
    var f := 0;
    while f < |filter|
      invariant f <= |filter|
      invariant forall q :: 0 <= q < output.Length ==> (output[q] == b[q]
        + (if p <= q < p + s then StepSum(input, filter, s, c, q - p, f) else 0.0))
    {
      DivMono(f, |filter| - 1, s);
      UpsampleTap(input, filter, output, s, c, p, f, b);
      f := f + 1;
    }
  }

  lemma DivMono(x: nat, y: nat, d: nat)
    requires x <= y && d > 0
    ensures x / d <= y / d
  {
    assert x == (x / d) * d + x % d;
    DivLower(y, d, x / d);
  }

  /**
   * `upsampling_convolution`: row `i` (while `i + F/2 - 1 < N`) adds
   * `filter[f] * input[i + F/2 - 1 - f / s]` into slot `i * s + f % s`. The
   * reads stay inside the row only when `(F - 1) / s <= F/2 - 1`, that is
   * for an even filter at `s = 2`.
   */
  method ReferenceUpsampling(input: seq<real>, filter: seq<real>, output: array<real>, s: nat)
    requires s >= 1 && (|filter| >= 2 ==> (|filter| - 1) / s <= |filter| / 2 - 1)
    requires UpRows(|input|, |filter|) * s <= output.Length
    modifies output
    ensures forall q :: 0 <= q < output.Length ==>
      output[q] == old(output[q]) + UpAt(input, filter, s, UpRows(|input|, |filter|), q)
  {
    ghost var rows := UpRows(|input|, |filter|);
    ghost var base := output[..];
    UpDoneStart(base, input, filter, s);
    if |filter| / 2 == 0 {
      UpDoneFinish(output[..], base, input, filter, s, 0);
      return;
    }
    var i, p := 0, 0;
    while i + |filter| / 2 - 1 < |input|
      invariant i <= rows && p == i * s
      invariant UpDone(output[..], base, input, filter, s, i)
      decreases |input| - i
    {
      MulMono(i + 1, rows, s);
      UpsampleNextRow(input, filter, output, s, i, p, base);
      MulNext(i, s);
      i, p := i + 1, p + s;
    }
    UpDoneFinish(output[..], base, input, filter, s, i);
  }

  /** Before any row, nothing has been added. */
  lemma UpDoneStart(base: seq<real>, a: seq<real>, filter: seq<real>, s: nat)
    requires s >= 1
    ensures UpDone(base, base, a, filter, s, 0)
  {
    forall q | 0 <= q < |base|
      ensures UpAt(a, filter, s, 0, q) == 0.0
    {
      var r: nat := q / s;
    }
  }

  /** Once the loop has stopped at row `i`, every row the source visits is done. */
  lemma UpDoneFinish(out: seq<real>, base: seq<real>, a: seq<real>, filter: seq<real>, s: nat, i: nat)
    requires s >= 1 && UpDone(out, base, a, filter, s, i) && i <= UpRows(|a|, |filter|)
    requires |filter| / 2 == 0 || i + |filter| / 2 - 1 >= |a|
    ensures forall q :: 0 <= q < |out| ==> out[q] == base[q] + UpAt(a, filter, s, UpRows(|a|, |filter|), q)
  {
    assert i == UpRows(|a|, |filter|);
  }

  /** The rows below `i` have been added onto `base`. */
  ghost predicate UpDone(out: seq<real>, base: seq<real>, a: seq<real>, filter: seq<real>, s: nat, i: nat)
    requires s >= 1
  {
    |out| == |base| && forall q :: 0 <= q < |out| ==> out[q] == base[q] + UpAt(a, filter, s, i, q)
  }

  /** One pass of the row loop: row `i` is added and the rows below `i + 1` are done. */
  method UpsampleNextRow(input: seq<real>, filter: seq<real>, output: array<real>, s: nat, i: nat, p: nat,
                         ghost base: seq<real>)
    requires s >= 1 && |filter| >= 2 && p == i * s && (|filter| - 1) / s <= |filter| / 2 - 1
    requires i + |filter| / 2 - 1 < |input| && p + s <= output.Length
    requires UpDone(output[..], base, input, filter, s, i)
    modifies output
    ensures UpDone(output[..], base, input, filter, s, i + 1)
  {
    UpsampleRow(input, filter, output, s, i, p);
    forall q | 0 <= q < output.Length
      ensures output[q] == base[q] + UpAt(input, filter, s, i + 1, q)
    {
      UpAtStep(input, filter, s, i, p, q);
    }
  }

  /** Visiting row `i` adds its step sums to the slots `i * s .. i * s + s - 1` and nothing elsewhere. */
  lemma UpAtStep(a: seq<real>, filter: seq<real>, s: nat, i: nat, p: nat, q: nat)
    requires s >= 1 && p == i * s
    ensures UpAt(a, filter, s, i + 1, q)
         == UpAt(a, filter, s, i, q) + (if p <= q < p + s then StepSum(a, filter, s, i + |filter| / 2 - 1, q - p, |filter|) else 0.0)
  {
    RowOfSlot(q, s, i, p);
  }

  /** Slot `q` lies in row `i` exactly when `i * s <= q < i * s + s`, and then its phase is `q - i * s`. */
  lemma RowOfSlot(q: nat, s: nat, i: nat, p: nat)
    requires s >= 1 && p == i * s
    ensures p <= q < p + s ==> q / s == i && q % s == q - p
    ensures q / s < i + 1 <==> q / s < i || p <= q < p + s
  {
    if p <= q < p + s {
      DivModOf(q, s, i, q - p);
    } else if q < p {
      DivLower(p, s, q / s);
      assert q == (q / s) * s + q % s;
      if q / s >= i {
        MulMono(i, q / s, s);
      }
    } else {
      MulNext(i, s);
      DivLower(q, s, i + 1);
    }
  }

  /** At `s = 2` phase `r` of the reference upsampling is the phase-`r` filter over the row: the valid-part reconstruction. */
  lemma {:induction false} StepSumPhase(a: seq<real>, filter: seq<real>, c: int, r: nat, m: nat)
    requires r < 2 && 2 * m <= |filter|
    ensures StepSum(a, filter, 2, c, r, 2 * m) == RowSum(a, Phase(filter, r), c, 0, m)
  {
    if m > 0 {
      StepSumPhase(a, filter, c, r, m - 1);
      var f0, f1 := 2 * m - 2, 2 * m - 1;
      DivModOf(f0, 2, m - 1, 0);
      DivModOf(f1, 2, m - 1, 1);
      assert Phase(filter, r)[m - 1] == filter[2 * (m - 1) + r];
    }
  }

  /** The reference upsampling at `s = 2` with an even filter adds exactly the valid-part reconstruction of `_upsampling_convolution_valid_sf`. */
  lemma ReferenceUpsamplingAgrees(a: seq<real>, filter: seq<real>, q: nat)
    requires |filter| >= 2 && |filter| % 2 == 0 && |filter| / 2 <= |a|
    ensures UpRows(|a|, |filter|) * 2 == |UpsampledValid(a, filter)|
    ensures q < |UpsampledValid(a, filter)| ==> UpAt(a, filter, 2, UpRows(|a|, |filter|), q) == UpsampledValid(a, filter)[q]
    ensures q >= |UpsampledValid(a, filter)| ==> UpAt(a, filter, 2, UpRows(|a|, |filter|), q) == 0.0
  {
    var rows := UpRows(|a|, |filter|);
    SlotBelow(q, 2, rows);
    if q < 2 * rows {
      UpAtValid(a, filter, rows, q);
    }
  }

  /** Slot `q` lies in the first `rows` rows exactly when its row does. */
  lemma SlotBelow(q: nat, s: nat, rows: nat)
    requires s >= 1
    ensures q < rows * s <==> q / s < rows
  {
    assert q == (q / s) * s + q % s;
    if q / s < rows {
      MulMono(q / s + 1, rows, s);
    } else {
      MulMono(rows, q / s, s);
    }
  }

  lemma UpAtValid(a: seq<real>, filter: seq<real>, rows: nat, q: nat)
    requires |filter| >= 2 && |filter| % 2 == 0 && |filter| / 2 <= |a| && rows == UpRows(|a|, |filter|) && q < 2 * rows
    ensures q / 2 < rows && q < |UpsampledValid(a, filter)|
    ensures UpAt(a, filter, 2, rows, q) == ValidAt(a, filter, q)
  {
    SlotBelow(q, 2, rows);
    var F, m, r := |filter|, |filter| / 2, q % 2;
    var c := q / 2 + m - 1;
    assert 2 * m == F && r < 2;
    assert UpAt(a, filter, 2, rows, q) == StepSum(a, filter, 2, c, r, F);
    assert ValidAt(a, filter, q) == RowSum(a, Phase(filter, r), c, 0, m);
    StepSumPhase(a, filter, c, r, m);
  }

  // ---------------------------------------------------------------------------
  // Reference `upsampled_filter_convolution`: a dilated filter.

  /** The first `k` taps of `filter` spread `fs` samples apart, ending at sample `x`. */
  function DilatedSum(a: seq<real>, filter: seq<real>, fs: nat, x: int, k: nat): real
    requires k <= |filter|
  {
    if k == 0 then 0.0 else DilatedSum(a, filter, fs, x, k - 1) + DilatedTap(a, filter, fs, x, k - 1)
  }

  /** Tap `j` of the dilated filter reads sample `x - j * fs`, zero outside the row. */
  function DilatedTap(a: seq<real>, filter: seq<real>, fs: nat, x: int, j: nat): real
    requires j < |filter|
  {
    var y := x - j * fs;
    if 0 <= y < |a| then filter[j] * a[y] else 0.0
  }

  /** `for (f = 0; f < F; f++) output[p] += input[x - f * fs] * filter[f]`. */
  method AccumulateDilated(input: seq<real>, filter: seq<real>, fs: nat, output: array<real>, p: nat, x: nat)
    requires p < output.Length && x < |input| && (|filter| - 1) * fs <= x
    modifies output
    ensures output[p] == old(output[p]) + DilatedSum(input, filter, fs, x, |filter|)
    ensures forall k :: 0 <= k < output.Length && k != p ==> output[k] == old(output[k])
  {
    var f := 0;
    while f < |filter|
      invariant f <= |filter|
      invariant output[p] == old(output[p]) + DilatedSum(input, filter, fs, x, f)
      invariant forall k :: 0 <= k < output.Length && k != p ==> output[k] == old(output[k])
    {
      MulMono(f, |filter| - 1, fs);
      output[p] := output[p] + filter[f] * input[x - f * fs];
      f := f + 1;
    }
  }

  /**
   * `upsampled_filter_convolution`: for every `i` with `i + F * fs < N` the
   * filter spread `fs` apart, ending at sample `i + F * fs`, is added to
   * `output[i + F * fs / 2]`; nothing else changes.
   */
  method ReferenceUpsampledFilter(input: seq<real>, filter: seq<real>, fs: nat, output: array<real>)
    requires |filter| * fs / 2 + (|input| - |filter| * fs) <= output.Length
    modifies output
    ensures forall q :: 0 <= q < output.Length ==> (output[q] == old(output[q])
      + (if |filter| * fs / 2 <= q && q - |filter| * fs / 2 + |filter| * fs < |input|
       then DilatedSum(input, filter, fs, q - |filter| * fs / 2 + |filter| * fs, |filter|) else 0.0))
  {
    var start := |filter| * fs;
    var half := start / 2;
    ghost var base := output[..];
    var i := 0;
    if |filter| > 0 {
      MulMono(|filter| - 1, |filter|, fs);
    }
    while i + start < |input|
      invariant forall q :: 0 <= q < output.Length ==> (output[q] == base[q]
        + (if half <= q < half + i then DilatedSum(input, filter, fs, q - half + start, |filter|) else 0.0))
      invariant i + start <= |input| || i == 0
      decreases |input| - i
    {
      AccumulateDilated(input, filter, fs, output, i + half, i + start);
      i := i + 1;
    }
  }

  /**
   * A dilated filter is the zero-stuffed filter of the Python reference:
   * spreading `F` taps `fs` apart gives the zero-padded sum of
   * `upsample(filter, fs)`, whose `F * fs` taps hold zeros between them.
   */
  lemma DilatedIsUpsampled(a: seq<real>, filter: seq<real>, fs: nat, x: int, k: nat)
    requires fs >= 1 && k <= |filter|
    ensures k * fs <= |Reference.Upsampled(filter, fs)|
    ensures DilatedSum(a, filter, fs, x, k) == RowSum(a, Reference.Upsampled(filter, fs), x, 0, k * fs)
  {
    var u := Reference.Upsampled(filter, fs);
    Reference.UpsampledStuffed(filter, fs);
    DilatedIsStuffed(a, filter, u, fs, x, k);
  }

  lemma {:induction false} DilatedIsStuffed(a: seq<real>, filter: seq<real>, u: seq<real>, fs: nat, x: int, k: nat)
    requires fs >= 1 && k <= |filter| && Reference.Stuffed(u, filter, fs)
    ensures k * fs <= |u|
    ensures DilatedSum(a, filter, fs, x, k) == RowSum(a, u, x, 0, k * fs)
  {
    MulMono(k, |filter|, fs);
    if k > 0 {
      DilatedIsStuffed(a, filter, u, fs, x, k - 1);
      assert k * fs == (k - 1) * fs + fs;
      DilatedStep(a, filter, u, fs, x, k, (k - 1) * fs, k * fs);
    }
  }

  /** Tap `k - 1` of the dilated filter is block `k - 1` of the zero-stuffed one. */
  lemma DilatedStep(a: seq<real>, filter: seq<real>, u: seq<real>, fs: nat, x: int, k: nat, lo: nat, hi: nat)
    requires fs >= 1 && 1 <= k <= |filter| && Reference.Stuffed(u, filter, fs)
    requires lo == (k - 1) * fs && hi == lo + fs && hi <= |u|
    requires DilatedSum(a, filter, fs, x, k - 1) == RowSum(a, u, x, 0, lo)
    ensures DilatedSum(a, filter, fs, x, k) == RowSum(a, u, x, 0, hi)
  {
    RowSumSplit(a, u, x, 0, lo, hi);
    DilatedBlock(a, filter, u, fs, x, k - 1, lo, fs);
  }

  /** Block `j` of the zero-stuffed filter, from tap `lo = j * fs`: `filter[j]`, then `fs - 1` zeros. */
  lemma {:induction false} DilatedBlock(a: seq<real>, filter: seq<real>, u: seq<real>, fs: nat, x: int, j: nat, lo: nat, m: nat)
    requires fs >= 1 && j < |filter| && Reference.Stuffed(u, filter, fs) && lo == j * fs && 1 <= m <= fs && lo + fs <= |u|
    ensures RowSum(a, u, x, lo, lo + m) == DilatedTap(a, filter, fs, x, j)
  {
    if m > 1 {
      DilatedBlock(a, filter, u, fs, x, j, lo, m - 1);
      DivModOf(lo + m - 1, fs, j, m - 1);
    } else {
      DivModOf(lo, fs, j, 0);
    }
  }

  // ---------------------------------------------------------------------------
  // `unified_convolution` at unit input and filter upsampling.

  /** The output loop so far: slots below `o` hold their filter sums added to what was there, the rest are untouched. */
  ghost predicate Progress(out: seq<real>, base: seq<real>, vals: seq<real>, o: nat) {
    |out| == |base| && o <= |vals| && o <= |out|
    && forall q :: 0 <= q < |out| ==> out[q] == if q < o then base[q] + vals[q] else base[q]
  }

  /** `output[o] += sum`, the last statement of every loop body. */
  method Emit(output: array<real>, o: nat, sum: real, ghost base: seq<real>, ghost vals: seq<real>)
    requires Progress(output[..], base, vals, o) && o < |vals| && o < output.Length && sum == vals[o]
    modifies output
    ensures Progress(output[..], base, vals, o + 1)
  {
    output[o] := output[o] + sum;
  }

  /** What holds between the loops: output `o` is next, centred on `x`. */
  ghost predicate Loop(mode: Mode, input: seq<real>, filter: seq<real>, out: seq<real>, O: nat, od: nat,
                       base: seq<real>, vals: seq<real>, o: nat, x: nat) {
    Extendable(mode, input) && od >= 1 && O <= |out| && |filter| <= |input| + 1
    && vals == Downsampled(mode, input, filter, od) && x == od - 1 + o * od && o <= O
    && Progress(out, base, vals, o)
  }

  /** The outputs are centred `od` apart, so `o` has a slot while its centre is below `I + F - 1`. */
  lemma NextSlot(mode: Mode, input: seq<real>, filter: seq<real>, od: nat, vals: seq<real>, o: nat, x: nat)
    requires Extendable(mode, input) && od >= 1 && vals == Downsampled(mode, input, filter, od)
    requires x == od - 1 + o * od && x < (if |filter| == 0 then |input| else |input| + |filter| - 1)
    ensures o < |vals| && vals[o] == TapSum(mode, input, filter, x, 0, |filter|)
    ensures x + od == od - 1 + (o + 1) * od
  {
    CountBelow(o, od, if |filter| == 0 then |input| else |input| + |filter| - 1);
    assert KernelMode(mode, |input|) == mode;
  }

  /** First loop: `x < F && x < I`, taps left of the row. */
  method LeftStage(mode: Mode, input: seq<real>, filter: seq<real>, output: array<real>, O: nat, od: nat,
                   ghost base: seq<real>, ghost vals: seq<real>, o0: nat, x0: nat)
    returns (o: nat, x: nat)
    requires Loop(mode, input, filter, output[..], O, od, base, vals, o0, x0)
    modifies output
    ensures Loop(mode, input, filter, output[..], O, od, base, vals, o, x)
    ensures |filter| <= x || |input| <= x || O <= o
  {
    UnitStores(input);
    o, x := o0, x0;
    while x < |filter| && x < |input| && o < O
      invariant Loop(mode, input, filter, output[..], O, od, base, vals, o, x)
      decreases O - o
    {
      NextSlot(mode, input, filter, od, vals, o, x);
      var sum := LeftOutput(mode, input, |input|, 1, input, filter, x);
      Emit(output, o, sum, base, vals);
      o, x := o + 1, x + od;
    }
  }

  /** Second loop: `x < I`, every tap inside the row. */
  method InnerStage(mode: Mode, input: seq<real>, filter: seq<real>, output: array<real>, O: nat, od: nat,
                    ghost base: seq<real>, ghost vals: seq<real>, o0: nat, x0: nat)
    returns (o: nat, x: nat)
    requires Loop(mode, input, filter, output[..], O, od, base, vals, o0, x0)
    requires |filter| <= x0 || |input| <= x0 || O <= o0
    modifies output
    ensures Loop(mode, input, filter, output[..], O, od, base, vals, o, x)
    ensures |input| <= x || O <= o
  {
    o, x := o0, x0;
    while x < |input| && o < O
      invariant Loop(mode, input, filter, output[..], O, od, base, vals, o, x)
      invariant |filter| <= x || |input| <= x || O <= o
      decreases O - o
    {
      InnerStep(mode, input, filter, output, O, od, base, vals, o, x);
      o, x := o + 1, x + od;
    }
  }

  /** One pass of the second loop. */
  method InnerStep(mode: Mode, input: seq<real>, filter: seq<real>, output: array<real>, O: nat, od: nat,
                   ghost base: seq<real>, ghost vals: seq<real>, o: nat, x: nat)
    requires Loop(mode, input, filter, output[..], O, od, base, vals, o, x)
    requires |filter| <= x < |input| && o < O
    modifies output
    ensures Loop(mode, input, filter, output[..], O, od, base, vals, o + 1, x + od)
  {
    UnitStores(input);
    assert input[..|input|] == input;
    NextSlot(mode, input, filter, od, vals, o, x);
    var sum := InnerOutput(mode, input, |input|, 1, input, input, filter, x);
    Emit(output, o, sum, base, vals);
  }

  /** Third loop: `x < I + F - 1`, taps right of the row. */
  method RightStage(mode: Mode, input: seq<real>, filter: seq<real>, output: array<real>, O: nat, od: nat,
                    ghost base: seq<real>, ghost vals: seq<real>, o0: nat, x0: nat)
    returns (o: nat, x: nat)
    requires Loop(mode, input, filter, output[..], O, od, base, vals, o0, x0)
    requires |input| <= x0 || O <= o0
    modifies output
    ensures Loop(mode, input, filter, output[..], O, od, base, vals, o, x)
    ensures |input| + |filter| - 1 <= x || O <= o
    ensures |input| <= x || O <= o
  {
    o, x := o0, x0;
    while x < |input| + |filter| - 1 && o < O
      invariant Loop(mode, input, filter, output[..], O, od, base, vals, o, x)
      invariant |input| <= x || O <= o
      decreases O - o
    {
      NextSlot(mode, input, filter, od, vals, o, x);
      var sum := RightEdgeOutput(mode, input, filter, x);
      Emit(output, o, sum, base, vals);
      o, x := o + 1, x + od;
    }
  }

  /** The prototype reads its input contiguously: sample `k` at index `k`. */
  lemma UnitStores(input: seq<real>)
    ensures Stores(input, |input|, 1, input)
  {
    ViewUnit(input);
    StoresView(input, |input|, 1, input);
  }

  /** Symmetric extension right of the row, as the prototype computes it: residue `y % I`, mirrored on odd laps `y / I`. */
  lemma MirrorAt(a: seq<real>, y: int)
    requires |a| >= 1 && y >= |a|
    ensures Ext(Symmetric, a, y) == if (y / |a|) % 2 != 0 then a[|a| - 1 - y % |a|] else a[y % |a|]
  {
    var n := |a|;
    var off := y - n;
    RightExt(Symmetric, a, off);
    var r := off % (2 * n);
    var q := off / (2 * n);
    assert off == q * (2 * n) + r;
    if r < n {
      assert y == (2 * q + 1) * n + r;
      DivModOf(y, n, 2 * q + 1, r);
      DivModOf(2 * q + 1, 2, q, 1);
    } else {
      assert y == (2 * q + 2) * n + (r - n);
      DivModOf(y, n, 2 * q + 2, r - n);
      DivModOf(2 * q + 2, 2, q + 1, 0);
    }
  }

  /** The sample the symmetric right edge reads at `y`: residue `y % I`, mirrored on odd laps. */
  method MirrorTap(input: seq<real>, y: nat) returns (v: real)
    requires |input| >= 1 && y >= |input|
    ensures v == Ext(Symmetric, input, y)
  {
    var I := |input|;
    var idx := y % I;
    MirrorAt(input, y);
    if (y / I) % 2 != 0 {
      v := input[I - 1 - idx];
    } else {
      v := input[idx];
    }
  }

  /** Symmetric right edge: `for (f = 0; x - f >= I; ++f)` reads the mirrored residue. */
  method AddRightMirror(input: seq<real>, filter: seq<real>, x: nat, sum0: real) returns (sum: real)
    requires |input| >= 1 && |input| <= x && x - |input| < |filter|
    ensures sum == sum0 + TapSum(Symmetric, input, filter, x, 0, x - |input| + 1)
  {
    var I := |input|;
    sum := sum0;
    var f := 0;
    while x - f >= I
      invariant f <= x - I + 1
      invariant sum == sum0 + TapSum(Symmetric, input, filter, x, 0, f)
    {
      var v := MirrorTap(input, x - f);
      sum := sum + filter[f] * v;
      f := f + 1;
    }
  }

  /** Periodic right edge: `for (f = 0; x - f >= I; ++f)` reads the residue `(x - f) % I`. */
  method AddRightWrap(input: seq<real>, filter: seq<real>, x: nat, sum0: real) returns (sum: real)
    requires |input| >= 1 && |input| <= x && x - |input| < |filter|
    ensures sum == sum0 + TapSum(Periodic, input, filter, x, 0, x - |input| + 1)
  {
    var I := |input|;
    sum := sum0;
    var f := 0;
    while x - f >= I
      invariant f <= x - I + 1
      invariant sum == sum0 + TapSum(Periodic, input, filter, x, 0, f)
    {
      PeriodicExt(input, x - f);
      sum := sum + filter[f] * input[(x - f) % I];
      f := f + 1;
    }
  }

  /** The right-edge `switch` of the last loop: taps `0 .. x - I` fall right of the row. */
  method AddRightEdge(mode: Mode, input: seq<real>, filter: seq<real>, x: nat, sum0: real) returns (sum: real)
    requires Extendable(mode, input) && |input| <= x && x - |input| < |filter|
    ensures sum == sum0 + TapSum(mode, input, filter, x, 0, x - |input| + 1)
  {
    UnitStores(input);
    match mode {
      case Symmetric => sum := AddRightMirror(input, filter, x, sum0);
      case ConstantEdge => var j; sum, j := AddRightConstant(input, |input|, 1, input, filter, x, sum0);
      case Smooth => var j; sum, j := AddRightSmooth(input, |input|, 1, input, filter, x, sum0);
      case Periodic => sum := AddRightWrap(input, filter, x, sum0);
      case _ =>
        TapSumZeroOutside(mode, input, filter, x, 0, x - |input| + 1);
        sum := sum0;
    }
  }

  /** One output of the last loop: the right edge, then the taps inside the row. */
  method RightEdgeOutput(mode: Mode, input: seq<real>, filter: seq<real>, x: nat) returns (sum: real)
    requires Extendable(mode, input) && |input| <= x && x - |input| < |filter| && |filter| <= x + 1
    ensures sum == TapSum(mode, input, filter, x, 0, |filter|)
  {
    var I := |input|;
    var edge := AddRightEdge(mode, input, filter, x, 0.0);
    UnitStores(input);
    sum := AddInside(input, I, 1, input, filter, x, x - I + 1, |filter|, edge);
    RightEdgeSplit(mode, input, filter, x);
  }

  /** The taps of an output right of the row's end split into those past the end and those inside. */
  lemma RightEdgeSplit(mode: Mode, input: seq<real>, filter: seq<real>, x: nat)
    requires Extendable(mode, input) && |input| <= x && x - |input| < |filter| && |filter| <= x + 1
    ensures TapSum(mode, input, filter, x, 0, |filter|)
         == TapSum(mode, input, filter, x, 0, x - |input| + 1) + RowSum(input, filter, x, x - |input| + 1, |filter|)
  {
    var cut := x - |input| + 1;
    assert input[..|input|] == input;
    TapSumInRow(mode, input, input, filter, x, cut, |filter|);
    TapSumSplit(mode, input, filter, x, 0, cut, |filter|);
  }

  /**
   * `unified_convolution` with `input_upsampling = filter_upsampling = 1`:
   * output `o` is centred on `o * od + od - 1` and gets the filter sum over
   * the row extended in `mode` (periodization falls to the default branch and
   * reads zeros), the same value `_downsampling_convolution` stores. The
   * loops stop at `O` and after the last centre below `I + F - 1`. The
   * prototype does not handle an output whose taps overhang both edges, so
   * the filter is at most one longer than the row.
   */
  method UnifiedConvolution(input: seq<real>, filter: seq<real>, output: array<real>, O: nat, od: nat, mode: Mode)
    requires Extendable(mode, input) && od >= 1 && O <= output.Length && |filter| <= |input| + 1
    modifies output
    ensures forall q :: 0 <= q < output.Length ==> (output[q] == old(output[q])
      + (if q < O && q < DownCount(|input|, |filter|, od) then DownsampledAt(mode, input, filter, od, q) else 0.0))
  {
    ghost var base := output[..];
    ghost var vals := Downsampled(mode, input, filter, od);
    var o, x := 0, od - 1;
    o, x := LeftStage(mode, input, filter, output, O, od, base, vals, o, x);
    o, x := InnerStage(mode, input, filter, output, O, od, base, vals, o, x);
    o, x := RightStage(mode, input, filter, output, O, od, base, vals, o, x);
    if o < O {
      CountReached(o, od, if |filter| == 0 then |input| else |input| + |filter| - 1);
    }
  }
}
