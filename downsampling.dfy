/**
 * The staged downsampling convolution shared by both kernel files: every
 * `step`-th sample of the full convolution of an extended row with a filter.
 * Output `o` is centred on input position `step - 1 + o * step` (on `F/2 + o * step`
 * for periodization). The four stages of the C loop differ only in which
 * taps fall left of, inside, or right of the row; each stage body below
 * computes one output and is proved equal to the same filter sum.
 */
module Downsampling {
  import opened Arith
  import opened Extension
  import opened Taps
  import opened Writes

  /** Outputs of the non-periodization kernel: centres below `N + F - 1` (below `N` when `F == 0`). */
  function DownCount(n: nat, f: nat, step: nat): nat
    requires step >= 1
  {
    (if f == 0 then n else n + f - 1) / step
  }

  /** Output `o` of the non-periodization kernel. */
  function DownsampledAt(mode: Mode, a: seq<real>, filter: seq<real>, step: nat, o: nat): real
    requires |a| >= 1
  {
    TapSum(KernelMode(mode, |a|), a, filter, step - 1 + o * step, 0, |filter|)
  }

  /** Everything the non-periodization kernel writes, in output order. */
  function Downsampled(mode: Mode, a: seq<real>, filter: seq<real>, step: nat): (r: seq<real>)
    requires |a| >= 1 && step >= 1
    ensures |r| == DownCount(|a|, |filter|, step)
  {
    seq(DownCount(|a|, |filter|, step), o requires 0 <= o => DownsampledAt(mode, a, filter, step, o))
  }

  /** Outputs of the periodization kernel: one per `step` input samples, rounded up. */
  function PeriodizedCount(n: nat, step: nat): nat
    requires step >= 1
  {
    (n + step - 1) / step
  }

  /** Output `o` of the periodization kernel: the padded row extended periodically. */
  function PeriodizedAt(a: seq<real>, filter: seq<real>, step: nat, pad: nat, o: nat): real
    requires |a| >= 1
  {
    TapSum(Periodic, Padded(a, pad), filter, |filter| / 2 + o * step, 0, |filter|)
  }

  function Periodized(a: seq<real>, filter: seq<real>, step: nat, pad: nat): (r: seq<real>)
    requires |a| >= 1 && step >= 1
    ensures |r| == PeriodizedCount(|a|, step)
  {
    seq(PeriodizedCount(|a|, step), o requires 0 <= o => PeriodizedAt(a, filter, step, pad, o))
  }

  // ---------------------------------------------------------------------------
  // Stage bodies: one output each.

  /** Stage 1 (`i < F && i < N`): taps `0..i` inside the row, the rest left of it. */
  method LeftOutput(mode: Mode, input: seq<real>, n: nat, stride: nat, ghost a: seq<real>, filter: seq<real>, i: nat)
    returns (sum: real)
    requires Stores(input, n, stride, a) && Extendable(mode, a) && i < |filter| && i < n
    ensures sum == TapSum(mode, a, filter, i, 0, |filter|)
  {
    sum := AddInside(input, n, stride, a, filter, i, 0, i + 1, 0.0);
    sum := AddLeft(mode, input, n, stride, a, filter, i, sum);
    assert a[..|a|] == a;
    TapSumInRow(mode, a, a, filter, i, 0, i + 1);
    TapSumSplit(mode, a, filter, i, 0, i + 1, |filter|);
  }

  /**
   * Stage 2 (`F <= i + 1`, `i < N`): every tap inside the row. `p` is the row
   * as extended (the input itself, or the padded input of a periodization kernel).
   */
  method InnerOutput(mode: Mode, input: seq<real>, n: nat, stride: nat, ghost a: seq<real>, ghost p: seq<real>,
                     filter: seq<real>, i: nat)
    returns (sum: real)
    requires Stores(input, n, stride, a) && Extendable(mode, p) && |a| <= |p| && p[..|a|] == a
    requires |filter| <= i + 1 && i < n
    ensures sum == TapSum(mode, p, filter, i, 0, |filter|)
  {
    sum := AddInside(input, n, stride, a, filter, i, 0, |filter|, 0.0);
    TapSumInRow(mode, p, a, filter, i, 0, |filter|);
  }

  /** Stage 3 (`N <= i < F`): taps right of the row, then inside, then left of it. */
  method BothOutput(mode: Mode, input: seq<real>, n: nat, stride: nat, ghost a: seq<real>, filter: seq<real>, i: nat)
    returns (sum: real)
    requires Stores(input, n, stride, a) && Extendable(mode, a) && n <= i < |filter|
    ensures sum == TapSum(mode, a, filter, i, 0, |filter|)
  {
    var j;
    sum, j := AddRight(mode, input, n, stride, a, filter, i, 0.0);
    sum := AddInside(input, n, stride, a, filter, i, j, i + 1, sum);
    sum := AddLeft(mode, input, n, stride, a, filter, i, sum);
    assert a[..|a|] == a;
    TapSumInRow(mode, a, a, filter, i, j, i + 1);
    TapSumSplit(mode, a, filter, i, 0, j, i + 1);
    TapSumSplit(mode, a, filter, i, 0, i + 1, |filter|);
  }

  /** Stage 4 (`N <= i`, `F <= i`, `i < N + F - 1`): taps right of the row, then inside. */
  method RightOutput(mode: Mode, input: seq<real>, n: nat, stride: nat, ghost a: seq<real>, filter: seq<real>, i: nat)
    returns (sum: real)
    requires Stores(input, n, stride, a) && Extendable(mode, a) && n <= i && |filter| <= i && i - n < |filter|
    ensures sum == TapSum(mode, a, filter, i, 0, |filter|)
  {
    var j;
    sum, j := AddRight(mode, input, n, stride, a, filter, i, 0.0);
    sum := AddInside(input, n, stride, a, filter, i, j, |filter|, sum);
    assert a[..|a|] == a;
    TapSumInRow(mode, a, a, filter, i, j, |filter|);
    TapSumSplit(mode, a, filter, i, 0, j, |filter|);
  }

  /** Periodization stage 1: taps inside the row, then the padded row backwards. */
  method PeriodizedLeftOutput(input: seq<real>, n: nat, stride: nat, ghost a: seq<real>, filter: seq<real>, i: nat, padding: nat)
    returns (sum: real)
    requires Stores(input, n, stride, a) && n >= 1 && i < |filter| && i < n
    ensures sum == TapSum(Periodic, Padded(a, padding), filter, i, 0, |filter|)
  {
    ghost var p := Padded(a, padding);
    sum := AddInside(input, n, stride, a, filter, i, 0, i + 1, 0.0);
    sum := AddLeftPeriodized(input, n, stride, a, filter, i, padding, sum);
    TapSumInRow(Periodic, p, a, filter, i, 0, i + 1);
    TapSumSplit(Periodic, p, filter, i, 0, i + 1, |filter|);
  }

  /** Periodization stage 3: the padded row forwards, then inside, then the padded row backwards. */
  method PeriodizedBothOutput(input: seq<real>, n: nat, stride: nat, ghost a: seq<real>, filter: seq<real>, i: nat, padding: nat)
    returns (sum: real)
    requires Stores(input, n, stride, a) && n >= 1 && n <= i < |filter|
    ensures sum == TapSum(Periodic, Padded(a, padding), filter, i, 0, |filter|)
  {
    ghost var p := Padded(a, padding);
    var j;
    sum, j := AddRightPeriodized(input, n, stride, a, filter, i, padding, 0.0);
    sum := AddInside(input, n, stride, a, filter, i, j, i + 1, sum);
    sum := AddLeftPeriodized(input, n, stride, a, filter, i, padding, sum);
    TapSumInRow(Periodic, p, a, filter, i, j, i + 1);
    TapSumSplit(Periodic, p, filter, i, 0, j, i + 1);
    TapSumSplit(Periodic, p, filter, i, 0, i + 1, |filter|);
  }

  /** Periodization stage 4: the padded row forwards, then inside. */
  method PeriodizedRightOutput(input: seq<real>, n: nat, stride: nat, ghost a: seq<real>, filter: seq<real>, i: nat, padding: nat)
    returns (sum: real)
    requires Stores(input, n, stride, a) && n >= 1 && n <= i && |filter| <= i && i - n < |filter|
    ensures sum == TapSum(Periodic, Padded(a, padding), filter, i, 0, |filter|)
  {
    ghost var p := Padded(a, padding);
    var j;
    sum, j := AddRightPeriodized(input, n, stride, a, filter, i, padding, 0.0);
    sum := AddInside(input, n, stride, a, filter, i, j, |filter|, sum);
    TapSumInRow(Periodic, p, a, filter, i, j, |filter|);
    TapSumSplit(Periodic, p, filter, i, 0, j, |filter|);
  }

  // ---------------------------------------------------------------------------
  // Bookkeeping shared by the kernel loops.

  /**
   * The loop state after `o` outputs: the centre is `i == first + o * step` and
   * the buffer holds the first `o` stores of `w`.
   */
  ghost predicate Produced(out: seq<real>, buf: seq<real>, w: seq<Write>, first: nat, step: nat, i: nat, o: nat) {
    i == first + o * step && o <= |w| && out == Stored(buf, w[..o])
  }

  /** Performing store `o` extends the run of stores by one. */
  lemma StoreNext(buf: seq<real>, w: seq<Write>, o: nat)
    requires o < |w| && w[o].at < |buf|
    ensures Stored(buf, w[..o + 1]) == Stored(buf, w[..o])[w[o].at := w[o].value]
  {
    assert w[..o + 1][..o] == w[..o];
  }

  /** Storing the next value at its slot advances the loop state by one output. */
  lemma NextStore(out: seq<real>, buf: seq<real>, w: seq<Write>, first: nat, step: nat, i: nat, o: nat, sum: real)
    requires Produced(out, buf, w, first, step, i, o)
    requires o < |w| && w[o].at < |out| && w[o].value == sum
    ensures Produced(out[w[o].at := sum], buf, w, first, step, i + step, o + 1)
  {
    StoreNext(buf, w, o);
  }

  /**
   * The stores of a staged downsampling loop whose outputs are centred on
   * `first + o * step`: the middle stage (centres in `min(F, N) .. N - 1`)
   * stores output `o` at `o * inner`, every other stage at `o * stride`.
   */
  function StageWrites(vals: seq<real>, stride: nat, inner: nat, first: nat, step: nat, n: nat, f: nat): (w: seq<Write>)
    requires step >= 1
    ensures |w| == |vals|
  {
    SlotWrites(vals, stride, inner, Centres(first, step, if f < n then f else n), Centres(first, step, n))
  }

  /**
   * Where store `o` of a staged loop lands: at `o * stride` from the outer
   * stages, at `o * inner` from the middle one; always inside the buffer.
   */
  lemma StageSlot(vals: seq<real>, stride: nat, inner: nat, first: nat, step: nat, n: nat, f: nat, i: nat, o: nat, len: nat)
    requires step >= 1 && inner <= stride && i == first + o * step && o < |vals| && (|vals| - 1) * stride < len
    ensures StageWrites(vals, stride, inner, first, step, n, f)[o] == Write(if f <= i < n then o * inner else o * stride, vals[o])
    ensures StageWrites(vals, stride, inner, first, step, n, f)[o].at < len
  {
    CentresBelow(first, step, if f < n then f else n, o);
    CentresBelow(first, step, n, o);
    MulMono(o, |vals| - 1, stride);
    MulMono(inner, stride, o);
  }

  // ---------------------------------------------------------------------------
  // The downsampling kernel of every mode but periodization. Each stage is
  // one loop of the C function; they share the loop state `Produced`.

  /** What every stage of the non-periodization kernel needs of its arguments. */
  ghost predicate DownSetting(mode: Mode, mode0: Mode, input: seq<real>, n: nat, stride: nat, inner: nat, a: seq<real>,
                              filter: seq<real>, len: nat, step: nat, vals: seq<real>, w: seq<Write>) {
    Stores(input, n, stride, a) && n >= 1 && step >= 1 && inner <= stride && mode == KernelMode(mode0, n)
    && vals == Downsampled(mode0, a, filter, step) && (|vals| - 1) * stride < len
    && w == StageWrites(vals, stride, inner, step - 1, step, n, |filter|)
  }

  /** One iteration of any stage: output `o` is the next value, and storing it at its slot advances the loop state. */
  lemma DownStep(mode: Mode, mode0: Mode, input: seq<real>, n: nat, stride: nat, inner: nat, a: seq<real>, filter: seq<real>,
                 out: seq<real>, step: nat, buf: seq<real>, vals: seq<real>, w: seq<Write>, i: nat, o: nat, sum: real)
    requires DownSetting(mode, mode0, input, n, stride, inner, a, filter, |out|, step, vals, w)
    requires Produced(out, buf, w, step - 1, step, i, o) && |buf| == |out|
    requires i < (if |filter| == 0 then n else n + |filter| - 1)
    requires sum == TapSum(mode, a, filter, i, 0, |filter|)
    ensures o < |w| && w[o].at == (if |filter| <= i < n then o * inner else o * stride)
    ensures w[o].at < |out| && Produced(out[w[o].at := sum], buf, w, step - 1, step, i + step, o + 1)
  {
    CountBelow(o, step, if |filter| == 0 then n else n + |filter| - 1);
    StageSlot(vals, stride, inner, step - 1, step, n, |filter|, i, o, |out|);
    NextStore(out, buf, w, step - 1, step, i, o, sum);
  }

  method DownLeftStage(mode: Mode, ghost mode0: Mode, input: seq<real>, n: nat, stride: nat, inner: nat, ghost a: seq<real>,
                       filter: seq<real>, output: array<real>, step: nat, ghost buf: seq<real>, ghost vals: seq<real>,
                       ghost w: seq<Write>,
                       i0: nat, o0: nat)
    returns (i: nat, o: nat)
    requires DownSetting(mode, mode0, input, n, stride, inner, a, filter, output.Length, step, vals, w)
    requires Produced(output[..], buf, w, step - 1, step, i0, o0)
    modifies output
    ensures Produced(output[..], buf, w, step - 1, step, i, o)
    ensures |filter| <= i || n <= i
  {
    i, o := i0, o0;
    while i < |filter| && i < n
      invariant Produced(output[..], buf, w, step - 1, step, i, o)
    {
      var sum := LeftOutput(mode, input, n, stride, a, filter, i);
      DownStep(mode, mode0, input, n, stride, inner, a, filter, output[..], step, buf, vals, w, i, o, sum);
      output[o * stride] := sum;
      i, o := i + step, o + 1;
    }
  }

  method DownInnerStage(mode: Mode, ghost mode0: Mode, input: seq<real>, n: nat, stride: nat, inner: nat, ghost a: seq<real>,
                        filter: seq<real>, output: array<real>, step: nat, ghost buf: seq<real>, ghost vals: seq<real>,
                        ghost w: seq<Write>,
                        i0: nat, o0: nat)
    returns (i: nat, o: nat)
    requires DownSetting(mode, mode0, input, n, stride, inner, a, filter, output.Length, step, vals, w)
    requires Produced(output[..], buf, w, step - 1, step, i0, o0)
    requires |filter| <= i0 || n <= i0
    modifies output
    ensures Produced(output[..], buf, w, step - 1, step, i, o)
    ensures n <= i && (|filter| <= i0 ==> |filter| <= i)
  {
    i, o := i0, o0;
    while i < n
      invariant Produced(output[..], buf, w, step - 1, step, i, o)
      invariant i0 <= i && (|filter| <= i || n <= i)
    {
      var sum := InnerOutput(mode, input, n, stride, a, a, filter, i);
      DownStep(mode, mode0, input, n, stride, inner, a, filter, output[..], step, buf, vals, w, i, o, sum);
      output[o * inner] := sum;
      i, o := i + step, o + 1;
    }
  }

  method DownBothStage(mode: Mode, ghost mode0: Mode, input: seq<real>, n: nat, stride: nat, inner: nat, ghost a: seq<real>,
                       filter: seq<real>, output: array<real>, step: nat, ghost buf: seq<real>, ghost vals: seq<real>,
                       ghost w: seq<Write>,
                       i0: nat, o0: nat)
    returns (i: nat, o: nat)
    requires DownSetting(mode, mode0, input, n, stride, inner, a, filter, output.Length, step, vals, w)
    requires Produced(output[..], buf, w, step - 1, step, i0, o0)
    requires n <= i0
    modifies output
    ensures Produced(output[..], buf, w, step - 1, step, i, o)
    ensures n <= i && |filter| <= i
  {
    i, o := i0, o0;
    while i < |filter|
      invariant Produced(output[..], buf, w, step - 1, step, i, o)
      invariant n <= i
    {
      var sum := BothOutput(mode, input, n, stride, a, filter, i);
      DownStep(mode, mode0, input, n, stride, inner, a, filter, output[..], step, buf, vals, w, i, o, sum);
      output[o * stride] := sum;
      i, o := i + step, o + 1;
    }
  }

  method DownRightStage(mode: Mode, ghost mode0: Mode, input: seq<real>, n: nat, stride: nat, inner: nat, ghost a: seq<real>,
                        filter: seq<real>, output: array<real>, step: nat, ghost buf: seq<real>, ghost vals: seq<real>,
                        ghost w: seq<Write>,
                        i0: nat, o0: nat)
    returns (i: nat, o: nat)
    requires DownSetting(mode, mode0, input, n, stride, inner, a, filter, output.Length, step, vals, w)
    requires Produced(output[..], buf, w, step - 1, step, i0, o0)
    requires n <= i0 && |filter| <= i0
    modifies output
    ensures Produced(output[..], buf, w, step - 1, step, i, o)
    ensures n + |filter| - 1 <= i
  {
    i, o := i0, o0;
    while i < n + |filter| - 1
      invariant Produced(output[..], buf, w, step - 1, step, i, o)
      invariant n <= i && |filter| <= i
    {
      var sum := RightOutput(mode, input, n, stride, a, filter, i);
      DownStep(mode, mode0, input, n, stride, inner, a, filter, output[..], step, buf, vals, w, i, o, sum);
      output[o * stride] := sum;
      i, o := i + step, o + 1;
    }
  }

  /**
   * The four-stage downsampling loop of every mode but periodization: output
   * `o` is the filter sum centred on `step - 1 + o * step`. The middle stage
   * stores it at `o * inner`, the others at `o * stride`; nothing else in
   * the buffer changes. Smooth extension of a one-sample row falls back to
   * constant edges.
   */
  method DownsamplingKernel(input: seq<real>, n: nat, stride: nat, inner: nat, ghost a: seq<real>, filter: seq<real>,
                            output: array<real>, step: nat, mode0: Mode)
    requires Stores(input, n, stride, a) && n >= 1 && step >= 1 && inner <= stride
    requires (DownCount(n, |filter|, step) - 1) * stride < output.Length
    modifies output
    ensures output[..] == Stored(old(output[..]), StageWrites(Downsampled(mode0, a, filter, step), stride, inner, step - 1, step, n, |filter|))
  {
    var mode := mode0;
    if mode == Smooth && n < 2 {
      mode := ConstantEdge;
    }
    ghost var vals := Downsampled(mode0, a, filter, step);
    ghost var w := StageWrites(vals, stride, inner, step - 1, step, n, |filter|);
    ghost var buf := output[..];
    var i, o := step - 1, 0;
    i, o := DownLeftStage(mode, mode0, input, n, stride, inner, a, filter, output, step, buf, vals, w, i, o);
    i, o := DownInnerStage(mode, mode0, input, n, stride, inner, a, filter, output, step, buf, vals, w, i, o);
    if |filter| == 0 {
      CountReached(o, step, n);
    } else {
      i, o := DownBothStage(mode, mode0, input, n, stride, inner, a, filter, output, step, buf, vals, w, i, o);
      i, o := DownRightStage(mode, mode0, input, n, stride, inner, a, filter, output, step, buf, vals, w, i, o);
      CountReached(o, step, n + |filter| - 1);
    }
    assert w[..o] == w;
  }

  // ---------------------------------------------------------------------------
  // The periodization kernel: the row padded by `padding` copies of its last
  // sample is extended periodically, and outputs are centred on
  // `F/2 + o * step` for every `o * step < N`.

  /** What every stage of the periodization kernel needs of its arguments. */
  ghost predicate PerSetting(input: seq<real>, n: nat, stride: nat, inner: nat, a: seq<real>, filter: seq<real>, len: nat,
                             step: nat, padding: nat, vals: seq<real>, w: seq<Write>) {
    Stores(input, n, stride, a) && n >= 1 && step >= 1 && inner <= stride
    && vals == Periodized(a, filter, step, padding) && (|vals| - 1) * stride < len
    && w == StageWrites(vals, stride, inner, |filter| / 2, step, n, |filter|)
  }

  /** One iteration of any periodization stage. */
  lemma PerStep(input: seq<real>, n: nat, stride: nat, inner: nat, a: seq<real>, filter: seq<real>, out: seq<real>,
                step: nat, padding: nat, buf: seq<real>, vals: seq<real>, w: seq<Write>, i: nat, o: nat, sum: real)
    requires PerSetting(input, n, stride, inner, a, filter, |out|, step, padding, vals, w)
    requires Produced(out, buf, w, |filter| / 2, step, i, o) && |buf| == |out|
    requires i < n + |filter| / 2
    requires sum == TapSum(Periodic, Padded(a, padding), filter, i, 0, |filter|)
    ensures o < |w| && w[o].at == (if |filter| <= i < n then o * inner else o * stride)
    ensures w[o].at < |out| && Produced(out[w[o].at := sum], buf, w, |filter| / 2, step, i + step, o + 1)
  {
    CeilBelow(o, step, n);
    StageSlot(vals, stride, inner, |filter| / 2, step, n, |filter|, i, o, |out|);
    NextStore(out, buf, w, |filter| / 2, step, i, o, sum);
  }

  method PerLeftStage(input: seq<real>, n: nat, stride: nat, ghost a: seq<real>, filter: seq<real>,
                      output: array<real>, step: nat, padding: nat, inner: nat, ghost buf: seq<real>, ghost vals: seq<real>, ghost w: seq<Write>,
                      i0: nat, o0: nat)
    returns (i: nat, o: nat)
    requires PerSetting(input, n, stride, inner, a, filter, output.Length, step, padding, vals, w)
    requires Produced(output[..], buf, w, |filter| / 2, step, i0, o0)
    modifies output
    ensures Produced(output[..], buf, w, |filter| / 2, step, i, o)
    ensures |filter| <= i || n <= i
  {
    i, o := i0, o0;
    while i < |filter| && i < n
      invariant Produced(output[..], buf, w, |filter| / 2, step, i, o)
    {
      var sum := PeriodizedLeftOutput(input, n, stride, a, filter, i, padding);
      PerStep(input, n, stride, inner, a, filter, output[..], step, padding, buf, vals, w, i, o, sum);
      output[o * stride] := sum;
      i, o := i + step, o + 1;
    }
  }

  method PerInnerStage(input: seq<real>, n: nat, stride: nat, ghost a: seq<real>, filter: seq<real>,
                       output: array<real>, step: nat, padding: nat, inner: nat, ghost buf: seq<real>, ghost vals: seq<real>, ghost w: seq<Write>,
                       i0: nat, o0: nat)
    returns (i: nat, o: nat)
    requires PerSetting(input, n, stride, inner, a, filter, output.Length, step, padding, vals, w)
    requires Produced(output[..], buf, w, |filter| / 2, step, i0, o0)
    requires |filter| <= i0 || n <= i0
    modifies output
    ensures Produced(output[..], buf, w, |filter| / 2, step, i, o)
    ensures n <= i
  {
    i, o := i0, o0;
    ghost var p := Padded(a, padding);
    while i < n
      invariant Produced(output[..], buf, w, |filter| / 2, step, i, o)
      invariant |filter| <= i || n <= i
    {
      var sum := InnerOutput(Periodic, input, n, stride, a, p, filter, i);
      PerStep(input, n, stride, inner, a, filter, output[..], step, padding, buf, vals, w, i, o, sum);
      output[o * inner] := sum;
      i, o := i + step, o + 1;
    }
  }

  method PerBothStage(input: seq<real>, n: nat, stride: nat, ghost a: seq<real>, filter: seq<real>,
                      output: array<real>, step: nat, padding: nat, inner: nat, ghost buf: seq<real>, ghost vals: seq<real>, ghost w: seq<Write>,
                      i0: nat, o0: nat)
    returns (i: nat, o: nat)
    requires PerSetting(input, n, stride, inner, a, filter, output.Length, step, padding, vals, w)
    requires Produced(output[..], buf, w, |filter| / 2, step, i0, o0)
    requires n <= i0
    modifies output
    ensures Produced(output[..], buf, w, |filter| / 2, step, i, o)
    ensures n <= i && (|filter| <= i || n + |filter| / 2 <= i)
  {
    i, o := i0, o0;
    while i < |filter| && i < n + |filter| / 2
      invariant Produced(output[..], buf, w, |filter| / 2, step, i, o)
      invariant n <= i
    {
      var sum := PeriodizedBothOutput(input, n, stride, a, filter, i, padding);
      PerStep(input, n, stride, inner, a, filter, output[..], step, padding, buf, vals, w, i, o, sum);
      output[o * stride] := sum;
      i, o := i + step, o + 1;
    }
  }

  method PerRightStage(input: seq<real>, n: nat, stride: nat, ghost a: seq<real>, filter: seq<real>,
                       output: array<real>, step: nat, padding: nat, inner: nat, ghost buf: seq<real>, ghost vals: seq<real>, ghost w: seq<Write>,
                       i0: nat, o0: nat)
    returns (i: nat, o: nat)
    requires PerSetting(input, n, stride, inner, a, filter, output.Length, step, padding, vals, w)
    requires Produced(output[..], buf, w, |filter| / 2, step, i0, o0)
    requires n <= i0 && (|filter| <= i0 || n + |filter| / 2 <= i0)
    modifies output
    ensures Produced(output[..], buf, w, |filter| / 2, step, i, o)
    ensures n + |filter| / 2 <= i
  {
    i, o := i0, o0;
    while i < n + |filter| / 2
      invariant Produced(output[..], buf, w, |filter| / 2, step, i, o)
      invariant n <= i && (|filter| <= i || n + |filter| / 2 <= i)
    {
      var sum := PeriodizedRightOutput(input, n, stride, a, filter, i, padding);
      PerStep(input, n, stride, inner, a, filter, output[..], step, padding, buf, vals, w, i, o, sum);
      output[o * stride] := sum;
      i, o := i + step, o + 1;
    }
  }

  /**
   * The four-stage periodization loop: output `o` is the filter sum over the
   * periodically extended padded row centred on `F/2 + o * step`. The middle
   * stage stores it at `o * inner`, the others at `o * stride`; nothing else
   * in the buffer changes.
   */
  method PeriodizationKernel(input: seq<real>, n: nat, stride: nat, inner: nat, ghost a: seq<real>, filter: seq<real>,
                             output: array<real>, step: nat, padding: nat)
    requires Stores(input, n, stride, a) && n >= 1 && step >= 1 && inner <= stride
    requires (PeriodizedCount(n, step) - 1) * stride < output.Length
    modifies output
    ensures output[..] == Stored(old(output[..]), StageWrites(Periodized(a, filter, step, padding), stride, inner, |filter| / 2, step, n, |filter|))
  {
    ghost var vals := Periodized(a, filter, step, padding);
    ghost var w := StageWrites(vals, stride, inner, |filter| / 2, step, n, |filter|);
    ghost var buf := output[..];
    var i, o := |filter| / 2, 0;
    i, o := PerLeftStage(input, n, stride, a, filter, output, step, padding, inner, buf, vals, w, i, o);
    i, o := PerInnerStage(input, n, stride, a, filter, output, step, padding, inner, buf, vals, w, i, o);
    i, o := PerBothStage(input, n, stride, a, filter, output, step, padding, inner, buf, vals, w, i, o);
    i, o := PerRightStage(input, n, stride, a, filter, output, step, padding, inner, buf, vals, w, i, o);
    CeilReached(o, step, n);
    assert w[..o] == w;
  }
}
