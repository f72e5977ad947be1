/**
 * `_upsampled_filter_convolution` of `pywt/_extensions/c/convolution.template.c`:
 * the filter dilated by `step` (its taps `step` samples apart) run over the
 * row, one output per sample, reading the row around both edges.
 *
 * Output `o` is centred on sample `i = F * step / 2 - shift + o`. Its taps
 * are taken in the order of the kernel's counter `j`: first the taps whose
 * sample lies right of the row, wrapped back to its start; then the taps
 * inside it; then the taps left of it, wrapped back from its end. The
 * wrap-around loops walk the row in laps of positions `k0, k0 + step, ...`
 * and start a new lap whenever one runs off the row, so they read the
 * periodic extension exactly when `step` divides the row length
 * (`UpsampledFilterPeriodic`); this is the stationary transform's step
 * (`UpsampledFilterIsSwt`).
 */
module UpsampledFilter {
  import opened Arith
  import opened Extension
  import opened Writes
  import opened Common
  import opened Transform
  import Reference

  /** Sample `x` of `a`, or 0 off the row (wherever the kernel runs, it reads inside the row). */
  function At(a: seq<real>, x: int): real {
    if 0 <= x < |a| then a[x] else 0.0
  }

  /** Position `j` of a run of laps of length `m` (a lap of no positions never advances). */
  function LapIndex(j: nat, m: nat): nat {
    if m == 0 then 0 else j % m
  }

  /** The number of taps `j` whose sample `i - j * step` lies right of a row of `n` samples. */
  function Beyond(n: nat, step: nat, i: nat): nat
    requires step >= 1
  {
    if i >= n then (i - n) / step + 1 else 0
  }

  /** The number of taps `j` whose sample `i - j * step` is not left of the row. */
  function NotLeft(step: nat, i: nat): nat
    requires step >= 1
  {
    i / step + 1
  }

  /**
   * What the kernel adds to the output centred on `i` when its counter is `j`.
   * Right of the row it pairs the filter backwards with the lap from `i % step`;
   * left of it, forwards with the lap from `step - 1 - i % step` read from the end.
   */
  function Term(input: seq<real>, filter: seq<real>, step: nat, i: nat, j: nat): real
    requires step >= 1
  {
    var n := |input|;
    var right := Beyond(n, step, i);
    var inside := NotLeft(step, i);
    if j < right then
      At(input, i % step + LapIndex(j, Centres(i % step, step, n)) * step) * At(filter, right - 1 - j)
    else if j < inside then
      At(input, i - j * step) * At(filter, j)
    else
      var k0 := step - 1 - i % step;
      At(input, n - 1 - (k0 + LapIndex(j - inside, Centres(k0, step, n)) * step)) * At(filter, j)
  }

  /** The first `k` terms of the output centred on `i`, in the kernel's order. */
  function TermSum(input: seq<real>, filter: seq<real>, step: nat, i: nat, k: nat): real
    requires step >= 1
  {
    if k == 0 then 0.0 else TermSum(input, filter, step, i, k - 1) + Term(input, filter, step, i, k - 1)
  }

  /** The kernel's outputs: one per sample, output `o` centred on `F * step / 2 - shift + o`. */
  function Outputs(input: seq<real>, filter: seq<real>, step: nat, shift: nat): (r: seq<real>)
    requires step >= 1 && shift <= |filter| * step / 2
    ensures |r| == |input|
  {
    seq(|input|, o requires 0 <= o < |input| => TermSum(input, filter, step, |filter| * step / 2 - shift + o, |filter|))
  }

  // ---------------------------------------------------------------------------
  // Where each tap falls.

  /** Tap `j` is not left of the row exactly when `j * step <= i`. */
  lemma NotLeftBelow(step: nat, i: nat, j: nat)
    requires step >= 1
    ensures j * step <= i <==> j < NotLeft(step, i)
  {
    assert i == (i / step) * step + i % step;
    if j * step <= i {
      DivLower(i, step, j);
    } else if j <= i / step {
      MulMono(j, i / step, step);
    }
  }

  /** Tap `j` is right of the row exactly when `i - j * step >= n`. */
  lemma BeyondBelow(n: nat, step: nat, i: nat, j: nat)
    requires step >= 1
    ensures i - j * step >= n <==> j < Beyond(n, step, i)
  {
    if i >= n {
      var d := i - n;
      assert d == (d / step) * step + d % step;
      if j * step <= d {
        DivLower(d, step, j);
      } else if j <= d / step {
        MulMono(j, d / step, step);
      }
    }
  }

  /** Taps right of the row come before the taps left of it; a filter reaching past `i - n` covers them all. */
  lemma BeyondBounds(n: nat, step: nat, i: nat, f: nat)
    requires 1 <= step <= n
    ensures Beyond(n, step, i) <= NotLeft(step, i)
    ensures i < n + f * step ==> Beyond(n, step, i) <= f
  {
    if i >= n {
      var q := (i - n) / step;
      assert i - n == q * step + (i - n) % step;
      DivLower(i, step, q);
      if q >= f {
        MulMono(f, q, step);
      }
    }
  }

  /** A lap from `k0 < n` has at least one position, and position `q` of it is inside the row exactly when `q` is below its length. */
  lemma LapWithin(n: nat, k0: nat, step: nat, q: nat)
    requires step >= 1 && k0 < n
    ensures Centres(k0, step, n) >= 1
    ensures k0 + q * step < n <==> q < Centres(k0, step, n)
  {
    CentresBelow(k0, step, n, 0);
    CentresBelow(k0, step, n, q);
  }

  /** The counter `k` of a wrap-around loop: lap position `q` from `k0`, or past the row once a lap is complete. */
  ghost predicate OnLap(n: nat, k0: nat, step: nat, q: nat, k: nat) {
    (k < n ==> k == k0 + q * step) && (k >= n ==> q == 0)
  }

  /** One step `k += step, ++j` of a wrap-around loop keeps `k` on the lap of counter `j`. */
  lemma LapStep(n: nat, k0: nat, step: nat, j: nat, k: nat)
    requires step >= 1 && k0 < n && k < n
    requires OnLap(n, k0, step, LapIndex(j, Centres(k0, step, n)), k)
    ensures OnLap(n, k0, step, LapIndex(j + 1, Centres(k0, step, n)), k + step)
  {
    var m := Centres(k0, step, n);
    LapWithin(n, k0, step, 0);
    var q := j % m;
    LapWithin(n, k0, step, q + 1);
    MulNext(q, step);
    Reference.ModNext(j, m);
  }

  /** A tap right of the row reads lap position `j % m` and filter tap `(i - n) / step - j`. */
  lemma RightTerm(input: seq<real>, filter: seq<real>, step: nat, i: nat, j: nat, k: nat)
    requires 1 <= step <= |input| && i < |input| + |filter| * step && j < Beyond(|input|, step, i)
    requires k < |input| && OnLap(|input|, i % step, step, LapIndex(j, Centres(i % step, step, |input|)), k)
    ensures 0 <= (i - |input|) / step - j < |filter|
    ensures Term(input, filter, step, i, j) == input[k] * filter[(i - |input|) / step - j]
  {
    LapWithin(|input|, i % step, step, LapIndex(j, Centres(i % step, step, |input|)));
    BeyondBounds(|input|, step, i, |filter|);
  }

  /** A tap inside the row reads sample `i - j * step`. */
  lemma InRowTerm(input: seq<real>, filter: seq<real>, step: nat, i: nat, j: nat)
    requires 1 <= step <= |input| && Beyond(|input|, step, i) <= j < |filter| && j * step <= i
    ensures i - j * step < |input|
    ensures Term(input, filter, step, i, j) == input[i - j * step] * filter[j]
  {
    NotLeftBelow(step, i, j);
    BeyondBelow(|input|, step, i, j);
  }

  /** A tap left of the row reads lap position `(j - NotLeft) % m` counted back from the end. */
  lemma LeftTerm(input: seq<real>, filter: seq<real>, step: nat, i: nat, j: nat, k: nat)
    requires 1 <= step <= |input| && NotLeft(step, i) <= j < |filter|
    requires k < |input| && OnLap(|input|, step - 1 - i % step, step, LapIndex(j - NotLeft(step, i), Centres(step - 1 - i % step, step, |input|)), k)
    ensures Term(input, filter, step, i, j) == input[|input| - 1 - k] * filter[j]
  {
    var k0 := step - 1 - i % step;
    LapWithin(|input|, k0, step, LapIndex(j - NotLeft(step, i), Centres(k0, step, |input|)));
    BeyondBounds(|input|, step, i, |filter|);
  }

  // ---------------------------------------------------------------------------
  // The kernel.

  /** One more term of the output centred on `i`. */
  lemma TermSumNext(input: seq<real>, filter: seq<real>, step: nat, i: nat, j: nat)
    requires step >= 1
    ensures TermSum(input, filter, step, i, j + 1) == TermSum(input, filter, step, i, j) + Term(input, filter, step, i, j)
  {
  }

  /** `output[o] += v`, where output `o` already holds `cur[o] + s` and is to hold `cur[o] + t`. */
  method AddTap(output: array<real>, o: nat, ghost cur: seq<real>, ghost s: real, v: real, ghost t: real)
    requires o < output.Length == |cur| && output[..] == Bump(cur, o, s) && t == s + v
    modifies output
    ensures output[..] == Bump(cur, o, t)
  {
    output[o] := output[o] + v;
  }

  /** Finishing output `o` is the next accumulation of the run. */
  lemma OutputDone(out: seq<real>, cur: seq<real>, buf: seq<real>, vals: seq<real>, o: nat)
    requires o < |vals| && cur == Added(buf, StridedWrites(vals, 1)[..o]) && out == Bump(cur, o, vals[o])
    ensures out == Added(buf, StridedWrites(vals, 1)[..o + 1])
  {
    var w := StridedWrites(vals, 1);
    assert w[..o + 1] == w[..o] + [Write(o, vals[o])];
    AddedSnoc(buf, w[..o], o, vals[o]);
  }

  /** One lap right of the row: `for (k = i % step; k < N && i - j * step >= N; k += step, ++j)`. */
  method RightLap(input: seq<real>, filter: seq<real>, output: array<real>, step: nat, i: nat, o: nat, j0: nat, ghost cur: seq<real>)
    returns (j: nat)
    requires 1 <= step <= |input| && i < |input| + |filter| * step && o < output.Length == |cur|
    requires j0 < Beyond(|input|, step, i) && LapIndex(j0, Centres(i % step, step, |input|)) == 0
    requires output[..] == Bump(cur, o, TermSum(input, filter, step, i, j0))
    modifies output
    ensures j0 < j <= Beyond(|input|, step, i)
    ensures j < Beyond(|input|, step, i) ==> LapIndex(j, Centres(i % step, step, |input|)) == 0
    ensures output[..] == Bump(cur, o, TermSum(input, filter, step, i, j))
  {
    var n := |input|;
    ghost var k0 := i % step;
    ghost var m := Centres(k0, step, n);
    j := j0;
    var k: nat := i % step;
    assert OnLap(n, k0, step, LapIndex(j, m), k) by {
      assert LapIndex(j, m) * step == 0;
    }
    while k < n && i - j * step >= n
      invariant j0 <= j <= Beyond(n, step, i) && OnLap(n, k0, step, LapIndex(j, m), k) && (j == j0 ==> k == k0)
      invariant output[..] == Bump(cur, o, TermSum(input, filter, step, i, j))
      decreases Beyond(n, step, i) - j
    {
      BeyondBelow(n, step, i, j);
      RightTerm(input, filter, step, i, j, k);
      TermSumNext(input, filter, step, i, j);
      AddTap(output, o, cur, TermSum(input, filter, step, i, j), input[k] * filter[(i - |input|) / step - j], TermSum(input, filter, step, i, j + 1));
      LapStep(n, k0, step, j, k);
      k, j := k + step, j + 1;
    }
    BeyondBelow(n, step, i, j);
  }

  /** The taps right of the row: `while (i - j * step >= N)` runs laps until the samples are back inside. */
  method RightWrap(input: seq<real>, filter: seq<real>, output: array<real>, step: nat, i: nat, o: nat, ghost cur: seq<real>)
    returns (j: nat)
    requires 1 <= step <= |input| && i < |input| + |filter| * step && o < output.Length == |cur|
    requires output[..] == Bump(cur, o, 0.0)
    modifies output
    ensures j == Beyond(|input|, step, i)
    ensures output[..] == Bump(cur, o, TermSum(input, filter, step, i, j))
  {
    var n := |input|;
    ghost var m := Centres(i % step, step, n);
    j := 0;
    while i - j * step >= n
      invariant j <= Beyond(n, step, i) && (j < Beyond(n, step, i) ==> LapIndex(j, m) == 0)
      invariant output[..] == Bump(cur, o, TermSum(input, filter, step, i, j))
      decreases Beyond(n, step, i) - j
    {
      BeyondBelow(n, step, i, j);
      j := RightLap(input, filter, output, step, i, o, j, cur);
    }
    BeyondBelow(n, step, i, j);
  }

  /** The taps inside the row up to the centre: `for (; j * step <= i; ++j)`. */
  method InRowToCentre(input: seq<real>, filter: seq<real>, output: array<real>, step: nat, i: nat, o: nat, j0: nat, ghost cur: seq<real>)
    returns (j: nat)
    requires 1 <= step <= |input| && o < output.Length == |cur|
    requires Beyond(|input|, step, i) <= j0 <= NotLeft(step, i) <= |filter|
    requires output[..] == Bump(cur, o, TermSum(input, filter, step, i, j0))
    modifies output
    ensures j == NotLeft(step, i)
    ensures output[..] == Bump(cur, o, TermSum(input, filter, step, i, j))
  {
    j := j0;
    while j * step <= i
      invariant j0 <= j <= NotLeft(step, i)
      invariant output[..] == Bump(cur, o, TermSum(input, filter, step, i, j))
      decreases NotLeft(step, i) - j
    {
      NotLeftBelow(step, i, j);
      InRowTerm(input, filter, step, i, j);
      TermSumNext(input, filter, step, i, j);
      AddTap(output, o, cur, TermSum(input, filter, step, i, j), input[i - j * step] * filter[j], TermSum(input, filter, step, i, j + 1));
      j := j + 1;
    }
    NotLeftBelow(step, i, j);
  }

  /** The taps inside the row to the end of a filter that does not reach past the start: `for (; j < F; ++j)`. */
  method InRowToEnd(input: seq<real>, filter: seq<real>, output: array<real>, step: nat, i: nat, o: nat, j0: nat, ghost cur: seq<real>)
    returns (j: nat)
    requires 1 <= step <= |input| && o < output.Length == |cur| && |filter| * step <= i
    requires Beyond(|input|, step, i) <= j0 <= |filter|
    requires output[..] == Bump(cur, o, TermSum(input, filter, step, i, j0))
    modifies output
    ensures j == |filter|
    ensures output[..] == Bump(cur, o, TermSum(input, filter, step, i, j))
  {
    j := j0;
    while j < |filter|
      invariant j0 <= j <= |filter|
      invariant output[..] == Bump(cur, o, TermSum(input, filter, step, i, j))
    {
      MulMono(j, |filter|, step);
      InRowTerm(input, filter, step, i, j);
      TermSumNext(input, filter, step, i, j);
      AddTap(output, o, cur, TermSum(input, filter, step, i, j), input[i - j * step] * filter[j], TermSum(input, filter, step, i, j + 1));
      j := j + 1;
    }
  }

  /** One lap left of the row: `for (k = step - 1 - (i % step); k < N && j < F; k += step, ++j)`. */
  method LeftLap(input: seq<real>, filter: seq<real>, output: array<real>, step: nat, i: nat, o: nat, j0: nat, j1: nat, ghost cur: seq<real>)
    returns (j: nat)
    requires 1 <= step <= |input| && o < output.Length == |cur|
    requires j0 == NotLeft(step, i) <= j1 < |filter| && LapIndex(j1 - j0, Centres(step - 1 - i % step, step, |input|)) == 0
    requires output[..] == Bump(cur, o, TermSum(input, filter, step, i, j1))
    modifies output
    ensures j1 < j <= |filter|
    ensures j < |filter| ==> LapIndex(j - j0, Centres(step - 1 - i % step, step, |input|)) == 0
    ensures output[..] == Bump(cur, o, TermSum(input, filter, step, i, j))
  {
    var n := |input|;
    var f := |filter|;
    ghost var k0 := step - 1 - i % step;
    ghost var m := Centres(k0, step, n);
    j := j1;
    var k: nat := step - 1 - (i % step);
    assert OnLap(n, k0, step, LapIndex(j - j0, m), k) by {
      assert LapIndex(j - j0, m) * step == 0;
    }
    while k < n && j < f
      invariant j1 <= j <= f && OnLap(n, k0, step, LapIndex(j - j0, m), k) && (j == j1 ==> k == k0)
      invariant output[..] == Bump(cur, o, TermSum(input, filter, step, i, j))
      decreases f - j
    {
      LeftTerm(input, filter, step, i, j, k);
      TermSumNext(input, filter, step, i, j);
      AddTap(output, o, cur, TermSum(input, filter, step, i, j), input[|input| - 1 - k] * filter[j], TermSum(input, filter, step, i, j + 1));
      LapStep(n, k0, step, j - j0, k);
      k, j := k + step, j + 1;
    }
  }

  /** The taps left of the row: `while (j < F)` runs laps back from the end of the row. */
  method LeftWrap(input: seq<real>, filter: seq<real>, output: array<real>, step: nat, i: nat, o: nat, j0: nat, ghost cur: seq<real>)
    returns (j: nat)
    requires 1 <= step <= |input| && o < output.Length == |cur|
    requires j0 == NotLeft(step, i) <= |filter|
    requires output[..] == Bump(cur, o, TermSum(input, filter, step, i, j0))
    modifies output
    ensures j == |filter|
    ensures output[..] == Bump(cur, o, TermSum(input, filter, step, i, j))
  {
    ghost var m := Centres(step - 1 - i % step, step, |input|);
    j := j0;
    while j < |filter|
      invariant j0 <= j <= |filter| && (j < |filter| ==> LapIndex(j - j0, m) == 0)
      invariant output[..] == Bump(cur, o, TermSum(input, filter, step, i, j))
      decreases |filter| - j
    {
      j := LeftLap(input, filter, output, step, i, o, j0, j, cur);
    }
  }

  /** Output `o` is centred on sample `F * step / 2 - shift + o`. */
  lemma OutputAt(input: seq<real>, filter: seq<real>, step: nat, shift: nat, o: nat)
    requires step >= 1 && shift <= |filter| * step / 2 && o < |input|
    ensures Outputs(input, filter, step, shift)[o] == TermSum(input, filter, step, |filter| * step / 2 - shift + o, |filter|)
  {
  }

  /** The first `o` outputs have been accumulated into the buffer, which held `buf` before. */
  ghost predicate Accumulated(out: seq<real>, buf: seq<real>, vals: seq<real>, o: nat) {
    o <= |vals| && out == Added(buf, StridedWrites(vals, 1)[..o])
  }

  /** Between two centres: outputs `0 .. o - 1` are accumulated and centre `i` of output `o` is next. */
  ghost predicate Progress(input: seq<real>, filter: seq<real>, step: nat, shift: nat, buf: seq<real>, vals: seq<real>,
                           out: seq<real>, i: nat, o: nat) {
    step >= 1 && shift <= |filter| * step / 2 && vals == Outputs(input, filter, step, shift)
    && i == |filter| * step / 2 - shift + o && Accumulated(out, buf, vals, o)
  }

  /** An output whose filter reaches past the start of the row only: taps inside it, then laps from its end. */
  method LeftEdgeOutput(input: seq<real>, filter: seq<real>, output: array<real>, step: nat, shift: nat, i: nat, o: nat,
                        ghost buf: seq<real>, ghost vals: seq<real>)
    requires step <= |input| <= output.Length == |buf| && i < |input| && i < |filter| * step
    requires Progress(input, filter, step, shift, buf, vals, output[..], i, o)
    modifies output
    ensures Progress(input, filter, step, shift, buf, vals, output[..], i + 1, o + 1)
  {
    OutputAt(input, filter, step, shift, o);
    ghost var cur := output[..];
    assert cur == Bump(cur, o, 0.0);
    NotLeftBelow(step, i, |filter|);
    var j := InRowToCentre(input, filter, output, step, i, o, 0, cur);
    j := LeftWrap(input, filter, output, step, i, o, j, cur);
    OutputDone(output[..], cur, buf, vals, o);
  }

  /** An output whose filter stays inside the row. */
  method InteriorOutput(input: seq<real>, filter: seq<real>, output: array<real>, step: nat, shift: nat, i: nat, o: nat,
                        ghost buf: seq<real>, ghost vals: seq<real>)
    requires step <= |input| <= output.Length == |buf| && |filter| * step <= i < |input|
    requires Progress(input, filter, step, shift, buf, vals, output[..], i, o)
    modifies output
    ensures Progress(input, filter, step, shift, buf, vals, output[..], i + 1, o + 1)
  {
    OutputAt(input, filter, step, shift, o);
    ghost var cur := output[..];
    assert cur == Bump(cur, o, 0.0);
    var j := InRowToEnd(input, filter, output, step, i, o, 0, cur);
    OutputDone(output[..], cur, buf, vals, o);
  }

  /** An output whose filter reaches past both ends: laps from the start, taps inside, laps from the end. */
  method BothEdgesOutput(input: seq<real>, filter: seq<real>, output: array<real>, step: nat, shift: nat, i: nat, o: nat,
                         ghost buf: seq<real>, ghost vals: seq<real>)
    requires step <= |input| <= output.Length == |buf| && i < |filter| * step && o < |input|
    requires Progress(input, filter, step, shift, buf, vals, output[..], i, o)
    modifies output
    ensures Progress(input, filter, step, shift, buf, vals, output[..], i + 1, o + 1)
  {
    OutputAt(input, filter, step, shift, o);
    ghost var cur := output[..];
    assert cur == Bump(cur, o, 0.0);
    NotLeftBelow(step, i, |filter|);
    BeyondBounds(|input|, step, i, |filter|);
    MulMono(1, |input|, step);
    var j := RightWrap(input, filter, output, step, i, o, cur);
    j := InRowToCentre(input, filter, output, step, i, o, j, cur);
    j := LeftWrap(input, filter, output, step, i, o, j, cur);
    OutputDone(output[..], cur, buf, vals, o);
  }

  /** An output whose filter reaches past the end of the row only: laps from the start, then taps inside. */
  method RightEdgeOutput(input: seq<real>, filter: seq<real>, output: array<real>, step: nat, shift: nat, i: nat, o: nat,
                         ghost buf: seq<real>, ghost vals: seq<real>)
    requires step <= |input| <= output.Length == |buf| && |filter| * step <= i && o < |input|
    requires Progress(input, filter, step, shift, buf, vals, output[..], i, o)
    modifies output
    ensures Progress(input, filter, step, shift, buf, vals, output[..], i + 1, o + 1)
  {
    OutputAt(input, filter, step, shift, o);
    ghost var cur := output[..];
    assert cur == Bump(cur, o, 0.0);
    BeyondBounds(|input|, step, i, |filter|);
    var j := RightWrap(input, filter, output, step, i, o, cur);
    j := InRowToEnd(input, filter, output, step, i, o, j, cur);
    OutputDone(output[..], cur, buf, vals, o);
  }

  /** The first run of centres: `for (; i < F * step && i < N; ++i, ++o)`. */
  method LeftEdgeRun(input: seq<real>, filter: seq<real>, output: array<real>, step: nat, shift: nat, i0: nat, o0: nat,
                     ghost buf: seq<real>, ghost vals: seq<real>)
    returns (i: nat, o: nat)
    requires step <= |input| <= output.Length == |buf| && o0 == 0
    requires Progress(input, filter, step, shift, buf, vals, output[..], i0, o0)
    modifies output
    ensures i >= |filter| * step || i >= |input|
    ensures i <= |input| || o == 0
    ensures Progress(input, filter, step, shift, buf, vals, output[..], i, o)
  {
    i, o := i0, o0;
    while i < |filter| * step && i < |input|
      invariant i0 <= i && (i <= |input| || o == 0)
      invariant Progress(input, filter, step, shift, buf, vals, output[..], i, o)
    {
      LeftEdgeOutput(input, filter, output, step, shift, i, o, buf, vals);
      i, o := i + 1, o + 1;
    }
  }

  /** The second run: `for (; i < N; ++i, ++o)`. */
  method InteriorRun(input: seq<real>, filter: seq<real>, output: array<real>, step: nat, shift: nat, i0: nat, o0: nat,
                     ghost buf: seq<real>, ghost vals: seq<real>)
    returns (i: nat, o: nat)
    requires step <= |input| <= output.Length == |buf|
    requires i0 >= |filter| * step || i0 >= |input|
    requires Progress(input, filter, step, shift, buf, vals, output[..], i0, o0)
    modifies output
    ensures i >= |input| && (i == |input| || i == i0)
    ensures Progress(input, filter, step, shift, buf, vals, output[..], i, o)
  {
    i, o := i0, o0;
    while i < |input|
      invariant i0 <= i && (i < |input| ==> |filter| * step <= i) && (i <= |input| || i == i0)
      invariant Progress(input, filter, step, shift, buf, vals, output[..], i, o)
    {
      InteriorOutput(input, filter, output, step, shift, i, o, buf, vals);
      i, o := i + 1, o + 1;
    }
  }

  /** The third run: `for (; i < F * step && i < N + start; ++i, ++o)`. */
  method BothEdgesRun(input: seq<real>, filter: seq<real>, output: array<real>, step: nat, shift: nat, start: nat, i0: nat, o0: nat,
                      ghost buf: seq<real>, ghost vals: seq<real>)
    returns (i: nat, o: nat)
    requires step <= |input| <= output.Length == |buf| && start == |filter| * step / 2 - shift
    requires |input| <= i0 <= |input| + start
    requires Progress(input, filter, step, shift, buf, vals, output[..], i0, o0)
    modifies output
    ensures |input| <= i <= |input| + start && (i >= |filter| * step || i >= |input| + start)
    ensures Progress(input, filter, step, shift, buf, vals, output[..], i, o)
  {
    i, o := i0, o0;
    while i < |filter| * step && i < |input| + start
      invariant |input| <= i <= |input| + start
      invariant Progress(input, filter, step, shift, buf, vals, output[..], i, o)
    {
      BothEdgesOutput(input, filter, output, step, shift, i, o, buf, vals);
      i, o := i + 1, o + 1;
    }
  }

  /** The last run: `for (; i < N + start; ++i, ++o)`. */
  method RightEdgeRun(input: seq<real>, filter: seq<real>, output: array<real>, step: nat, shift: nat, start: nat, i0: nat, o0: nat,
                      ghost buf: seq<real>, ghost vals: seq<real>)
    returns (i: nat, o: nat)
    requires step <= |input| <= output.Length == |buf| && start == |filter| * step / 2 - shift
    requires |input| <= i0 <= |input| + start && (i0 >= |filter| * step || i0 >= |input| + start)
    requires Progress(input, filter, step, shift, buf, vals, output[..], i0, o0)
    modifies output
    ensures o == |input|
    ensures Progress(input, filter, step, shift, buf, vals, output[..], i, o)
  {
    i, o := i0, o0;
    while i < |input| + start
      invariant |input| <= i <= |input| + start && (i < |input| + start ==> |filter| * step <= i)
      invariant Progress(input, filter, step, shift, buf, vals, output[..], i, o)
    {
      RightEdgeOutput(input, filter, output, step, shift, i, o, buf, vals);
      i, o := i + 1, o + 1;
    }
  }

  /**
   * `_upsampled_filter_convolution`: accumulates output `o` of the dilated
   * filter into `output[o]` for every sample `o` of the row, in four runs of
   * centres (filter reaching past the start, inside the row, past both ends,
   * past the end).
   */
  method UpsampledFilterConvolution(input: seq<real>, filter: seq<real>, output: array<real>, step: nat, shift: nat)
    returns (status: int)
    requires 1 <= step <= |input| <= output.Length
    requires shift <= |filter| * step / 2 && |input| + |filter| * step < SIZE_LIMIT
    modifies output
    ensures status == 0
    ensures output[..] == Added(old(output[..]), StridedWrites(Outputs(input, filter, step, shift), 1))
  {
    var start := |filter| * step / 2 - shift;
    ghost var buf := output[..];
    ghost var vals := Outputs(input, filter, step, shift);
    assert StridedWrites(vals, 1)[..0] == [];
    var i, o := start, 0;
    i, o := LeftEdgeRun(input, filter, output, step, shift, i, o, buf, vals);
    i, o := InteriorRun(input, filter, output, step, shift, i, o, buf, vals);
    i, o := BothEdgesRun(input, filter, output, step, shift, start, i, o, buf, vals);
    i, o := RightEdgeRun(input, filter, output, step, shift, start, i, o, buf, vals);
    assert StridedWrites(vals, 1)[..o] == StridedWrites(vals, 1);
    status := 0;
  }

  // ---------------------------------------------------------------------------
  // When `step` divides the row length, the laps read the periodic extension.

  /** With `n = c * step`, every lap from a position below `step` has `c` positions. */
  lemma LapCount(n: nat, step: nat, k0: nat)
    requires 1 <= step <= n && n % step == 0 && k0 < step
    ensures Centres(k0, step, n) == n / step
  {
    var c := n / step;
    assert n == c * step;
    assert (c - 1) * step == n - step;
    CeilCount(c, step, n - k0);
  }

  /** The index arithmetic of a right lap: with `n = c * step`, lap position `j % c` is sample `i - t * step` modulo `n`. */
  lemma RightLapIsPeriodic(n: nat, step: nat, c: nat, i: nat, j: nat)
    requires step >= 1 && c >= 1 && n == c * step && n <= i && j <= (i - n) / step
    ensures i % step + (j % c) * step < n
    ensures (i - ((i - n) / step - j) * step) % n == i % step + (j % c) * step
  {
    var q := (i - n) / step;
    var rho := (i - n) % step;
    assert i - n == q * step + rho;
    assert (q + c) * step == q * step + n;
    DivModOf(i, step, q + c, rho);
    var jq, jr := j / c, j % c;
    assert j == jq * c + jr;
    MulMono(jr, c - 1, step);
    assert (c - 1) * step == n - step;
    assert j * step == jq * n + jr * step by {
      assert j * step == (jq * c) * step + jr * step;
      assert (jq * c) * step == jq * (c * step);
    }
    assert (q - j) * step == q * step - j * step;
    assert (jq + 1) * n == jq * n + n;
    DivModOf(i - (q - j) * step, n, jq + 1, rho + jr * step);
  }

  /** A tap right of the row reads the periodic extension at `i - t * step`, with the filter taken backwards. */
  lemma PeriodicRight(input: seq<real>, filter: seq<real>, step: nat, i: nat, j: nat)
    requires 1 <= step <= |input| && |input| % step == 0 && i < |input| + |filter| * step && j < Beyond(|input|, step, i)
    ensures Beyond(|input|, step, i) - 1 - j < |filter|
    ensures Term(input, filter, step, i, j) == AtrousTap(Periodic, input, filter, step, i, Beyond(|input|, step, i) - 1 - j)
  {
    var n := |input|;
    var c := n / step;
    DivModOf(n, step, c, 0);
    MulMono(1, c, step);
    LapCount(n, step, i % step);
    RightLapIsPeriodic(n, step, c, i, j);
    var k := i % step + (j % c) * step;
    assert OnLap(n, i % step, step, LapIndex(j, Centres(i % step, step, n)), k);
    RightTerm(input, filter, step, i, j, k);
    var x := i - ((i - n) / step - j) * step;
    WrapMod(n, x);
    BeyondBelow(n, step, i, (i - n) / step - j);
    assert Ext(Periodic, input, x) == input[k];
  }

  /** A tap inside the row reads the row itself. */
  lemma PeriodicInRow(input: seq<real>, filter: seq<real>, step: nat, i: nat, j: nat)
    requires 1 <= step <= |input| && Beyond(|input|, step, i) <= j < NotLeft(step, i) && j < |filter|
    ensures Term(input, filter, step, i, j) == AtrousTap(Periodic, input, filter, step, i, j)
  {
    NotLeftBelow(step, i, j);
    InRowTerm(input, filter, step, i, j);
  }

  /** The index arithmetic of a left lap: with `n = c * step`, lap position `d % c` from the end is sample `i - j * step` modulo `n`. */
  lemma LeftLapIsPeriodic(n: nat, step: nat, c: nat, i: nat, j: nat)
    requires step >= 1 && c >= 1 && n == c * step && i / step + 1 <= j
    ensures step - 1 - i % step + ((j - i / step - 1) % c) * step < n
    ensures (i - j * step) % n == n - 1 - (step - 1 - i % step + ((j - i / step - 1) % c) * step)
  {
    var q, r := i / step, i % step;
    var d := j - q - 1;
    assert i == q * step + r;
    var dq, dr := d / c, d % c;
    assert d == dq * c + dr;
    MulMono(dr, c - 1, step);
    assert (c - 1) * step == n - step;
    assert d * step == dq * n + dr * step by {
      assert d * step == (dq * c) * step + dr * step;
      assert (dq * c) * step == dq * (c * step);
    }
    assert j * step == q * step + step + d * step;
    assert (-dq - 1) * n == -(dq * n) - n;
    DivModOf(i - j * step, n, -dq - 1, n - step + r - dr * step);
  }

  /** With `step` dividing `n`, the left lap's sample for counter `j` is where the periodic extension reads `i - j * step`. */
  lemma LeftLapSample(n: nat, step: nat, i: nat, j: nat)
    requires 1 <= step <= n && n % step == 0 && NotLeft(step, i) <= j
    ensures step - 1 - i % step + LapIndex(j - NotLeft(step, i), Centres(step - 1 - i % step, step, n)) * step < n
    ensures Wrap(n, i - j * step) == n - 1 - (step - 1 - i % step + LapIndex(j - NotLeft(step, i), Centres(step - 1 - i % step, step, n)) * step)
  {
    var c := n / step;
    DivModOf(n, step, c, 0);
    MulMono(1, c, step);
    LapCount(n, step, step - 1 - i % step);
    LeftLapIsPeriodic(n, step, c, i, j);
    WrapMod(n, i - j * step);
  }

  /** A tap left of the row reads the periodic extension at `i - j * step`. */
  lemma PeriodicLeft(input: seq<real>, filter: seq<real>, step: nat, i: nat, j: nat)
    requires 1 <= step <= |input| && |input| % step == 0 && NotLeft(step, i) <= j < |filter|
    ensures Term(input, filter, step, i, j) == AtrousTap(Periodic, input, filter, step, i, j)
  {
    var n := |input|;
    var k0 := step - 1 - i % step;
    var k := k0 + LapIndex(j - NotLeft(step, i), Centres(k0, step, n)) * step;
    LeftLapSample(n, step, i, j);
    LeftTerm(input, filter, step, i, j, k);
    NotLeftBelow(step, i, j);
    assert Ext(Periodic, input, i - j * step) == input[n - 1 - k];
  }

  /** Every term is a tap of the dilated filter over the periodic extension. */
  lemma PeriodicTerm(input: seq<real>, filter: seq<real>, step: nat, i: nat, j: nat)
    requires 1 <= step <= |input| && |input| % step == 0 && i < |input| + |filter| * step && j < |filter|
    ensures j < Beyond(|input|, step, i) ==>
      (Beyond(|input|, step, i) - 1 - j < |filter|
       && Term(input, filter, step, i, j) == AtrousTap(Periodic, input, filter, step, i, Beyond(|input|, step, i) - 1 - j))
    ensures j >= Beyond(|input|, step, i) ==> Term(input, filter, step, i, j) == AtrousTap(Periodic, input, filter, step, i, j)
  {
    if j < Beyond(|input|, step, i) {
      PeriodicRight(input, filter, step, i, j);
    } else if j < NotLeft(step, i) {
      PeriodicInRow(input, filter, step, i, j);
    } else {
      PeriodicLeft(input, filter, step, i, j);
    }
  }

  /** The first `k` taps right of the row are the last `k` of the first `Beyond` periodic taps, in reverse. */
  lemma {:induction false} RightTermsReversed(input: seq<real>, filter: seq<real>, step: nat, i: nat, k: nat)
    requires 1 <= step <= |input| && |input| % step == 0 && i < |input| + |filter| * step
    requires k <= Beyond(|input|, step, i)
    ensures Beyond(|input|, step, i) <= |filter|
    ensures TermSum(input, filter, step, i, k) + AtrousSum(Periodic, input, filter, step, i, Beyond(|input|, step, i) - k)
      == AtrousSum(Periodic, input, filter, step, i, Beyond(|input|, step, i))
  {
    BeyondBounds(|input|, step, i, |filter|);
    if k > 0 {
      RightTermsReversed(input, filter, step, i, k - 1);
      PeriodicTerm(input, filter, step, i, k - 1);
    }
  }

  /** From the end of the taps right of the row on, the kernel's sum is the periodic dilated sum. */
  lemma {:induction false} TermsArePeriodic(input: seq<real>, filter: seq<real>, step: nat, i: nat, k: nat)
    requires 1 <= step <= |input| && |input| % step == 0 && i < |input| + |filter| * step
    requires Beyond(|input|, step, i) <= k <= |filter|
    ensures TermSum(input, filter, step, i, k) == AtrousSum(Periodic, input, filter, step, i, k)
    decreases k
  {
    if k == Beyond(|input|, step, i) {
      RightTermsReversed(input, filter, step, i, k);
    } else {
      TermsArePeriodic(input, filter, step, i, k - 1);
      PeriodicTerm(input, filter, step, i, k - 1);
    }
  }

  /**
   * With `step` dividing the row length, output `o` is the filter dilated by
   * `step` over the periodically extended row, centred on `F * step / 2 - shift + o`.
   */
  lemma UpsampledFilterPeriodic(input: seq<real>, filter: seq<real>, step: nat, shift: nat, o: nat)
    requires 1 <= step <= |input| && |input| % step == 0 && shift <= |filter| * step / 2 && o < |input|
    ensures Outputs(input, filter, step, shift)[o]
      == AtrousSum(Periodic, input, filter, step, |filter| * step / 2 - shift + o, |filter|)
  {
    var i := |filter| * step / 2 - shift + o;
    BeyondBounds(|input|, step, i, |filter|);
    TermsArePeriodic(input, filter, step, i, |filter|);
  }

  /** A row length divisible by `2^L` is a multiple of `2^(L-1)`, at least that long. */
  lemma HalfPeriodDivides(n: nat, level: nat)
    requires level >= 1 && n >= 1 && n % Pow2(level) == 0
    ensures 1 <= Pow2(level - 1) <= n && n % Pow2(level - 1) == 0
  {
    var s := Pow2(level - 1);
    var q := n / Pow2(level);
    assert n == q * Pow2(level) && Pow2(level) == 2 * s;
    MulMono(1, q, Pow2(level));
    assert n == (2 * q) * s;
    DivModOf(n, s, 2 * q, 0);
  }

  /**
   * The stationary transform's step at level `L` (a row length divisible by
   * `2^L`) is this kernel with the filter dilated by `2^(L-1)` and no shift.
   */
  lemma UpsampledFilterIsSwt(input: seq<real>, filter: seq<real>, level: nat)
    requires level >= 1 && |input| >= 1 && |input| % Pow2(level) == 0
    ensures Pow2(level - 1) <= |input|
    ensures Outputs(input, filter, Pow2(level - 1), 0) == SwtOutput(input, filter, level)
  {
    var s := Pow2(level - 1);
    HalfPeriodDivides(|input|, level);
    SwtAtrous(input, filter, level, 0);
    forall o | 0 <= o < |input|
      ensures Outputs(input, filter, s, 0)[o] == SwtOutput(input, filter, level)[o]
    {
      UpsampledFilterPeriodic(input, filter, s, 0, o);
      SwtAtrous(input, filter, level, o);
    }
  }

  /**
   * When `step` does not divide the row length the laps are not the periodic
   * extension: a three-sample row with `step = 2` wraps sample 4 to sample 0,
   * where the periodic extension reads sample 1.
   */
  lemma UnevenRowIsNotPeriodic()
    ensures Outputs([1.0, 2.0, 3.0], [1.0, 0.0, 0.0, 0.0], 2, 0)[0] == 1.0
    ensures AtrousSum(Periodic, [1.0, 2.0, 3.0], [1.0, 0.0, 0.0, 0.0], 2, 4, 4) == 2.0
  {
    var a, f := [1.0, 2.0, 3.0], [1.0, 0.0, 0.0, 0.0];
    OutputAt(a, f, 2, 0, 0);
    assert Term(a, f, 2, 4, 0) == 1.0;
    assert Term(a, f, 2, 4, 1) == 0.0;
    assert Term(a, f, 2, 4, 2) == 0.0;
    assert Term(a, f, 2, 4, 3) == 0.0;
    WrapMod(3, 4);
    assert AtrousTap(Periodic, a, f, 2, 4, 0) == 2.0;
  }
}
