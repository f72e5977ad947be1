/**
 * The Python reference implementation of the convolutions
 * (`pywt/tests/test_convolution.py`): upsampling and downsampling of a
 * signal, edge extension by explicit padding, and the unified convolution
 * that upsamples the filter, pads the input, takes the valid part of the
 * linear convolution and downsamples the result.
 *
 * Arrays are sequences of exact reals; a Python exception is the outcome
 * `ValueError`.
 */
module Reference {
  import opened Arith
  import opened Extension

  /** A Python call returns an array or raises `ValueError`. */
  datatype Outcome = Ok(value: seq<real>) | ValueError

  // ---------------------------------------------------------------------------
  // upsample and downsample.

  /** Sample `k` of `upsample(a, s)`: `a[k / s]` on multiples of `s`, zero elsewhere. */
  function UpsampledAt(a: seq<real>, s: nat, k: nat): real
    requires s >= 1 && k < |a| * s
  {
    if k % s == 0 then (DivBelow(k, s, |a|); a[k / s]) else 0.0
  }

  lemma DivBelow(k: nat, s: nat, n: nat)
    requires s >= 1 && k < n * s
    ensures k / s < n
  {
    assert k == (k / s) * s + k % s;
    if k / s >= n {
      MulMono(n, k / s, s);
    }
  }

  /** `upsample(a, s)`: a zero array of `len(a) * s` samples with `a` written at every `s`-th slot. */
  function Upsampled(a: seq<real>, s: nat): (r: seq<real>)
    requires s >= 1
    ensures |r| == |a| * s
  {
    seq(|a| * s, k requires 0 <= k < |a| * s => UpsampledAt(a, s, k))
  }

  /** `u` is `a` with `s - 1` zeros after every sample. */
  ghost predicate Stuffed(u: seq<real>, a: seq<real>, s: nat)
    requires s >= 1
  {
    |u| == |a| * s && forall t :: 0 <= t < |u| ==> u[t] == if t % s == 0 then a[t / s] else 0.0
  }

  lemma UpsampledStuffed(a: seq<real>, s: nat)
    requires s >= 1
    ensures Stuffed(Upsampled(a, s), a, s)
  {
    var u := Upsampled(a, s);
    forall t | 0 <= t < |u|
      ensures u[t] == if t % s == 0 then a[t / s] else 0.0
    {
      assert u[t] == UpsampledAt(a, s, t);
    }
  }

  /** `upsample` as the Python writes it: allocate zeros, then assign `r[::s] = a` slot by slot. */
  method Upsample(a: seq<real>, s: nat) returns (r: seq<real>)
    requires s >= 1
    ensures r == Upsampled(a, s)
  {
    var buf := new real[|a| * s](_ => 0.0);
    var i, p := 0, 0;
    while i < |a|
      invariant p == i * s
      invariant Placed(buf[..], a, s, i)
    {
      PlacedNext(buf[..], a, s, i, p);
      buf[p] := a[i];
      MulNext(i, s);
      i, p := i + 1, p + s;
    }
    r := buf[..];
    PlacedAll(r, a, s);
  }

  /** The first `i` samples of `a` sit at their slots of `b`, every other slot is still zero. */
  ghost predicate Placed(b: seq<real>, a: seq<real>, s: nat, i: nat)
    requires s >= 1
  {
    |b| == |a| * s && i <= |a|
    && forall k :: 0 <= k < |b| ==> b[k] == (if k % s == 0 && k / s < i then UpsampledAt(a, s, k) else 0.0)
  }

  /** Assigning `a[i]` at slot `i * s` places one more sample. */
  lemma PlacedNext(b: seq<real>, a: seq<real>, s: nat, i: nat, p: nat)
    requires s >= 1 && p == i * s && i < |a| && Placed(b, a, s, i)
    ensures p < |b| && Placed(b[p := a[i]], a, s, i + 1)
  {
    assert p < |b| && p % s == 0 && p / s == i by {
      MulStrict(i, |a|, s);
      DivModOf(p, s, i, 0);
    }
    var b' := b[p := a[i]];
    forall k | 0 <= k < |b'|
      ensures b'[k] == (if k % s == 0 && k / s < i + 1 then UpsampledAt(a, s, k) else 0.0)
    {
      if k % s == 0 && k / s == i {
        assert k == (k / s) * s + k % s;
      }
    }
  }

  /** With every sample placed the buffer is the upsampled row. */
  lemma PlacedAll(b: seq<real>, a: seq<real>, s: nat)
    requires s >= 1 && Placed(b, a, s, |a|)
    ensures b == Upsampled(a, s)
  {
    forall k | 0 <= k < |b|
      ensures b[k] == UpsampledAt(a, s, k)
    {
      DivBelow(k, s, |a|);
    }
  }

  /** Upsampling places `a[i]` at `i * s` and zeros everywhere else; by 1 it changes nothing. */
  lemma UpsampledSlots(a: seq<real>, s: nat)
    requires s >= 1
    ensures forall i :: 0 <= i < |a| ==> i * s < |a| * s && Upsampled(a, s)[i * s] == a[i]
    ensures forall k :: 0 <= k < |a| * s && k % s != 0 ==> Upsampled(a, s)[k] == 0.0
  {
    forall i | 0 <= i < |a|
      ensures i * s < |a| * s && Upsampled(a, s)[i * s] == a[i]
    {
      MulStrict(i, |a|, s);
      DivModOf(i * s, s, i, 0);
    }
  }

  /** Upsampling by 1 leaves a row as it is. */
  lemma UpsampledOne(a: seq<real>)
    ensures Upsampled(a, 1) == a
  {
    assert |Upsampled(a, 1)| == |a|;
    forall k | 0 <= k < |a|
      ensures Upsampled(a, 1)[k] == a[k]
    {
      DivModOf(k, 1, k, 0);
    }
  }

  /** `downsample(a, s)`, that is `a[s - 1::s]`: every `s`-th sample, starting with sample `s - 1`. */
  function Downsample(a: seq<real>, s: nat): (r: seq<real>)
    requires s >= 1
    ensures |r| == |a| / s
  {
    seq(|a| / s, k requires 0 <= k < |a| / s => (CountSlot(k, s, |a|); a[k * s + s - 1]))
  }

  lemma CountSlot(k: nat, s: nat, n: nat)
    requires s >= 1 && k < n / s
    ensures k * s + s - 1 < n
  {
    MulMono(k + 1, n / s, s);
    assert n == (n / s) * s + n % s;
  }

  /** Downsampling by 1 changes nothing. */
  lemma DownsampleUnit(a: seq<real>)
    ensures Downsample(a, 1) == a
  {
    assert |Downsample(a, 1)| == |a|;
  }

  /**
   * Downsampling does not undo upsampling: for `s > 1` every slot it keeps,
   * `k * s + s - 1`, is one of the zeros upsampling inserted.
   */
  lemma DownsampleUpsampled(a: seq<real>, s: nat)
    requires s > 1
    ensures |Downsample(Upsampled(a, s), s)| == |a|
    ensures forall k :: 0 <= k < |a| ==> Downsample(Upsampled(a, s), s)[k] == 0.0
  {
    DivModOf(|a| * s, s, |a|, 0);
    forall k | 0 <= k < |a|
      ensures Downsample(Upsampled(a, s), s)[k] == 0.0
    {
      CountSlot(k, s, |a| * s);
      DivModOf(k * s + s - 1, s, k, s - 1);
    }
  }

  // ---------------------------------------------------------------------------
  // edge_extend.

  /** The mode names `edge_extend` recognises. */
  predicate Recognised(name: string) {
    name == "zero-pad" || name == "periodic" || name == "constant" || name == "smooth" || name == "symmetric"
  }

  function ModeOf(name: string): (m: Mode)
    requires Recognised(name)
    ensures m != Periodization
  {
    if name == "zero-pad" then ZeroPad
    else if name == "periodic" then Periodic
    else if name == "constant" then ConstantEdge
    else if name == "smooth" then Smooth
    else Symmetric
  }

  /** Slot `x` is one of the leading fill slots `u - 1, 2u - 1, ... < n0`. */
  predicate LeadSlot(n0: nat, u: nat, x: nat)
    requires u >= 1
  {
    x < n0 && x % u == u - 1
  }

  /** How far out from the core leading slot `x` lies: 0 for the slot next to it. */
  function LeadIndex(n0: nat, u: nat, x: nat): (k: nat)
    requires u >= 1 && LeadSlot(n0, u, x)
    ensures k < n0 / u
  {
    assert x == (x / u) * u + (u - 1);
    assert (x / u + 1) * u == x + 1;
    DivLower(n0, u, x / u + 1);
    n0 / u - 1 - x / u
  }

  /** Slot `x` is one of the trailing fill slots `-n1, -n1 + u, ... < 0` of an array of `len` slots. */
  predicate TrailSlot(len: nat, n1: nat, u: nat, x: nat)
    requires u >= 1
  {
    len - n1 <= x < len && (x - (len - n1)) % u == 0
  }

  /** How far out from the core trailing slot `x` lies. */
  function TrailIndex(len: nat, n1: nat, u: nat, x: nat): nat
    requires u >= 1 && TrailSlot(len, n1, u, x)
  {
    (x - (len - n1)) / u
  }

  /** Sample `x` of `edge_extend(a, (n0, n1), u, mode)`. */
  function EdgeAt(mode: Mode, a: seq<real>, n0: nat, n1: nat, u: nat, x: nat): real
    requires Extendable(mode, a) && u >= 1 && x < |a| * u + n0 + n1
  {
    if LeadSlot(n0, u, x) then LeftValue(mode, a, LeadIndex(n0, u, x))
    else if x < n0 then 0.0
    else if x < n0 + |a| * u then UpsampledAt(a, u, x - n0)
    else if TrailSlot(|a| * u + n0 + n1, n1, u, x) then RightValue(mode, a, TrailIndex(|a| * u + n0 + n1, n1, u, x))
    else 0.0
  }

  /**
   * `edge_extend(a, (n0, n1), u, mode)` for a recognised mode and `n1 >= 1`:
   * the upsampled signal between `n0` leading and `n1` trailing slots, the
   * fill slots holding the mode's extension counted outward from the core.
   */
  function EdgeExtension(mode: Mode, a: seq<real>, n0: nat, n1: nat, u: nat): (r: seq<real>)
    requires Extendable(mode, a) && u >= 1
    ensures |r| == |a| * u + n0 + n1
  {
    seq(|a| * u + n0 + n1, x requires 0 <= x < |a| * u + n0 + n1 => EdgeAt(mode, a, n0, n1, u, x))
  }

  /** The fill loops so far: the first `k` leading slots (outward from the core) hold the mode's values. */
  ghost predicate LeadFilled(r: seq<real>, base: seq<real>, mode: Mode, a: seq<real>, n0: nat, u: nat, k: nat)
    requires Extendable(mode, a) && u >= 1
  {
    |r| == |base| && forall x :: 0 <= x < |r| ==>
      r[x] == if LeadSlot(n0, u, x) && LeadIndex(n0, u, x) < k then LeftValue(mode, a, LeadIndex(n0, u, x)) else base[x]
  }

  ghost predicate TrailFilled(r: seq<real>, base: seq<real>, mode: Mode, a: seq<real>, n1: nat, u: nat, k: nat)
    requires Extendable(mode, a) && u >= 1 && n1 <= |r|
  {
    |r| == |base| && forall x :: 0 <= x < |r| ==>
      r[x] == if TrailSlot(|r|, n1, u, x) && TrailIndex(|r|, n1, u, x) < k then RightValue(mode, a, TrailIndex(|r|, n1, u, x)) else base[x]
  }

  /** The `k`-th leading slot outward from the core is `u - 1 + (n0 / u - 1 - k) * u`, and no other slot has index `k`. */
  lemma LeadSlotAt(n0: nat, u: nat, k: nat)
    requires u >= 1 && k < n0 / u
    ensures var p := u - 1 + (n0 / u - 1 - k) * u;
      LeadSlot(n0, u, p) && LeadIndex(n0, u, p) == k
      && forall x :: 0 <= x < n0 && LeadSlot(n0, u, x) && LeadIndex(n0, u, x) == k ==> x == p
  {
    var m := n0 / u - 1 - k;
    var p := u - 1 + m * u;
    CountSlot(m, u, n0);
    DivModOf(p, u, m, u - 1);
    forall x | 0 <= x < n0 && LeadSlot(n0, u, x) && LeadIndex(n0, u, x) == k
      ensures x == p
    {
      assert x == (x / u) * u + x % u;
    }
  }

  /** The `k`-th trailing slot is `len - n1 + k * u`, and no other slot has index `k`. */
  lemma TrailSlotAt(len: nat, n1: nat, u: nat, k: nat)
    requires u >= 1 && n1 <= len && k < (n1 + u - 1) / u
    ensures var p := len - n1 + k * u;
      p < len && TrailSlot(len, n1, u, p) && TrailIndex(len, n1, u, p) == k
      && forall x :: 0 <= x < len && TrailSlot(len, n1, u, x) && TrailIndex(len, n1, u, x) == k ==> x == p
  {
    var p := len - n1 + k * u;
    CentresBelow(0, u, n1, k);
    DivModOf(k * u, u, k, 0);
    forall x | 0 <= x < len && TrailSlot(len, n1, u, x) && TrailIndex(len, n1, u, x) == k
      ensures x == p
    {
      var m := x - (len - n1);
      assert m == (m / u) * u + m % u;
    }
  }

  /** Every trailing slot has an index below the number of slots `range(-n1, 0, u)` yields. */
  lemma TrailIndexBelow(len: nat, n1: nat, u: nat, x: nat)
    requires u >= 1 && n1 <= len && x < len && TrailSlot(len, n1, u, x)
    ensures TrailIndex(len, n1, u, x) < (n1 + u - 1) / u
  {
    var m := x - (len - n1);
    var k := m / u;
    assert m == k * u;
    CentresBelow(0, u, n1, k);
  }

  /**
   * The leading fill loop of `edge_extend`: the `k`-th slot of
   * `reversed(range(u - 1, n0, u))` receives the `k`-th value of the mode's
   * iterator. Periodic and symmetric modes cycle through a list of row
   * indices (`c` is the position in that cycle), smooth counts from 1, and
   * constant assigns `a[0]` to the whole slice.
   */
  method FillLeading(r: array<real>, ghost base: seq<real>, mode: Mode, a: seq<real>, n0: nat, u: nat)
    requires Extendable(mode, a) && mode != ZeroPad && mode != Periodization && u >= 1
    requires n0 <= r.Length && r[..] == base
    modifies r
    ensures LeadFilled(r[..], base, mode, a, n0, u, n0 / u)
  {
    var n := |a|;
    var slots := n0 / u;
    var period := if mode == Symmetric then 2 * n else n;
    var k, c := 0, 0;
    while k < slots
      invariant k <= slots && c == k % period
      invariant LeadFilled(r[..], base, mode, a, n0, u, k)
    {
      var v := LeadNext(mode, a, k, c);
      PutLead(r, base, mode, a, n0, u, k, v);
      ModNext(k, period);
      k, c := k + 1, if c + 1 == period then 0 else c + 1;
    }
  }

  /**
   * The next value of the leading iterator: `reverse_enumerate` of the row
   * (periodic), the row forwards then backwards (symmetric), `count(1)`
   * scaled by the edge slope (smooth), or the first sample (constant).
   */
  method LeadNext(mode: Mode, a: seq<real>, k: nat, c: nat) returns (v: real)
    requires Extendable(mode, a) && mode != ZeroPad && mode != Periodization
    requires c == k % (if mode == Symmetric then 2 * |a| else |a|)
    ensures v == LeftValue(mode, a, k)
  {
    var n := |a|;
    match mode
    case Periodic => v := a[n - 1 - c];
    case Symmetric => v := if c < n then a[c] else a[2 * n - 1 - c];
    case Smooth => v := a[0] + (k + 1) as real * (a[0] - a[1]);
    case ConstantEdge => v := a[0];
  }

  /** `r[j] = a[i]` for the `k`-th leading slot `j`. */
  method PutLead(r: array<real>, ghost base: seq<real>, mode: Mode, a: seq<real>, n0: nat, u: nat, k: nat, v: real)
    requires Extendable(mode, a) && u >= 1 && n0 <= r.Length && k < n0 / u
    requires LeadFilled(r[..], base, mode, a, n0, u, k) && v == LeftValue(mode, a, k)
    modifies r
    ensures LeadFilled(r[..], base, mode, a, n0, u, k + 1)
  {
    ghost var before := r[..];
    LeadStep(before, base, mode, a, n0, u, k, v);
    r[u - 1 + (n0 / u - 1 - k) * u] := v;
    assert r[..] == before[u - 1 + (n0 / u - 1 - k) * u := v];
  }

  /** One pass of the leading fill loop fills the next slot outward. */
  lemma LeadStep(r: seq<real>, base: seq<real>, mode: Mode, a: seq<real>, n0: nat, u: nat, k: nat, v: real)
    requires Extendable(mode, a) && u >= 1 && n0 <= |r| && k < n0 / u
    requires LeadFilled(r, base, mode, a, n0, u, k) && v == LeftValue(mode, a, k)
    ensures u - 1 + (n0 / u - 1 - k) * u < |r|
    ensures LeadFilled(r[u - 1 + (n0 / u - 1 - k) * u := v], base, mode, a, n0, u, k + 1)
  {
    LeadSlotAt(n0, u, k);
  }

  /**
   * The trailing fill loop: the `k`-th slot of `range(-n1, 0, u)` receives
   * the `k`-th value of the mode's iterator, which for periodic and
   * symmetric modes walks the row forwards and backwards respectively.
   */
  method FillTrailing(r: array<real>, ghost base: seq<real>, mode: Mode, a: seq<real>, n1: nat, u: nat)
    requires Extendable(mode, a) && mode != ZeroPad && mode != Periodization && u >= 1
    requires n1 <= r.Length && r[..] == base
    modifies r
    ensures TrailFilled(r[..], base, mode, a, n1, u, (n1 + u - 1) / u)
  {
    var n := |a|;
    var slots := (n1 + u - 1) / u;
    var period := if mode == Symmetric then 2 * n else n;
    var k, c := 0, 0;
    while k < slots
      invariant k <= slots && c == k % period
      invariant TrailFilled(r[..], base, mode, a, n1, u, k)
    {
      var v := TrailNext(mode, a, k, c);
      PutTrail(r, base, mode, a, n1, u, k, v);
      ModNext(k, period);
      k, c := k + 1, if c + 1 == period then 0 else c + 1;
    }
  }

  /** The next value of the trailing iterator, walking outward from the last sample. */
  method TrailNext(mode: Mode, a: seq<real>, k: nat, c: nat) returns (v: real)
    requires Extendable(mode, a) && mode != ZeroPad && mode != Periodization
    requires c == k % (if mode == Symmetric then 2 * |a| else |a|)
    ensures v == RightValue(mode, a, k)
  {
    var n := |a|;
    match mode
    case Periodic => v := a[c];
    case Symmetric => v := if c < n then a[n - 1 - c] else a[c - n];
    case Smooth => v := a[n - 1] + (k + 1) as real * (a[n - 1] - a[n - 2]);
    case ConstantEdge => v := a[n - 1];
  }

  /** `r[j] = a[i]` for the `k`-th trailing slot `j`. */
  method PutTrail(r: array<real>, ghost base: seq<real>, mode: Mode, a: seq<real>, n1: nat, u: nat, k: nat, v: real)
    requires Extendable(mode, a) && u >= 1 && n1 <= r.Length && k < (n1 + u - 1) / u
    requires TrailFilled(r[..], base, mode, a, n1, u, k) && v == RightValue(mode, a, k)
    modifies r
    ensures TrailFilled(r[..], base, mode, a, n1, u, k + 1)
  {
    ghost var before := r[..];
    TrailStep(before, base, mode, a, n1, u, k, v);
    r[r.Length - n1 + k * u] := v;
    assert r[..] == before[r.Length - n1 + k * u := v];
  }

  /** One pass of the trailing fill loop fills the next slot outward. */
  lemma TrailStep(r: seq<real>, base: seq<real>, mode: Mode, a: seq<real>, n1: nat, u: nat, k: nat, v: real)
    requires Extendable(mode, a) && u >= 1 && n1 <= |r| && k < (n1 + u - 1) / u
    requires TrailFilled(r, base, mode, a, n1, u, k) && v == RightValue(mode, a, k)
    ensures |r| - n1 + k * u < |r|
    ensures TrailFilled(r[|r| - n1 + k * u := v], base, mode, a, n1, u, k + 1)
  {
    TrailSlotAt(|r|, n1, u, k);
  }

  /** A cycle counter advances with its step count. */
  lemma ModNext(k: nat, m: nat)
    requires m >= 1
    ensures (k + 1) % m == if k % m + 1 == m then 0 else k % m + 1
  {
    if k % m + 1 == m {
      DivModOf(k + 1, m, k / m + 1, 0);
    } else {
      DivModOf(k + 1, m, k / m, k % m + 1);
    }
  }

  /**
   * The number of slots Python's `r[start:stop]` selects in an array of
   * `len` slots, for `start >= 0`: a negative `stop` counts from the end,
   * and both ends are clamped to the array.
   */
  function SliceLength(len: nat, start: nat, stop: int): nat
  {
    var e := if stop < 0 then (if len + stop < 0 then 0 else len + stop) else if stop > len then len else stop;
    var b := if start > len then len else start;
    if e > b then e - b else 0
  }

  /**
   * The first two lines of `edge_extend(a, (n0, n1), u, mode)` run without
   * error for a core of `m == len(a) * u` samples: `numpy.zeros` gets a
   * length that is not negative, and the core fits `r[n0:-n1]`, either
   * exactly or as a single sample numpy broadcasts.
   */
  predicate CoreFits(m: nat, n0: nat, n1: int)
  {
    m + n0 + n1 >= 0 && var k := SliceLength(m + n0 + n1, n0, -n1); m == k || m == 1
  }

  /**
   * For a trailing pad `n1 >= 1` the slice `r[n0:-n1]` is exactly the core;
   * for `n1 == 0` it is `r[n0:0]`, which is empty.
   */
  lemma CoreSlice(m: nat, n0: nat, n1: nat)
    ensures n1 >= 1 ==> SliceLength(m + n0 + n1, n0, -(n1 as int)) == m
    ensures n1 == 0 ==> SliceLength(m + n0 + n1, n0, -(n1 as int)) == 0
    ensures CoreFits(m, n0, n1) <==> n1 >= 1 || m <= 1
  {
  }

  /**
   * `edge_extend` with a trailing pad of 0 and a single-sample core
   * (`len(a) * u == 1`): numpy broadcasts the sample into the empty slice
   * `r[n0:0]`, so the core slot keeps its 0, except in constant mode, where
   * `r[-0::u] = a[-1]` sets every slot from the first to the sample.
   */
  function BroadcastExtension(mode: Mode, a: seq<real>, n0: nat): (r: seq<real>)
    requires Extendable(mode, a) && |a| == 1
    ensures |r| == n0 + 1
  {
    seq(n0 + 1, x requires 0 <= x < n0 + 1 =>
      if mode == ConstantEdge then a[0] else if x < n0 then LeftValue(mode, a, n0 - 1 - x) else 0.0)
  }

  /**
   * The broadcast case differs from the extension of a longer trailing pad
   * only in the core slot: it holds 0 instead of the sample, except in
   * constant mode, where nothing differs.
   */
  lemma BroadcastIsExtensionWithoutCore(mode: Mode, a: seq<real>, n0: nat)
    requires Extendable(mode, a) && |a| == 1
    ensures mode == ConstantEdge ==> BroadcastExtension(mode, a, n0) == EdgeExtension(mode, a, n0, 0, 1)
    ensures mode != ConstantEdge ==> BroadcastExtension(mode, a, n0) == EdgeExtension(mode, a, n0, 0, 1)[n0 := 0.0]
  {
    var e := EdgeExtension(mode, a, n0, 0, 1);
    forall x | 0 <= x < n0
      ensures BroadcastExtension(mode, a, n0)[x] == e[x]
    {
      assert LeadSlot(n0, 1, x);
      assert LeadIndex(n0, 1, x) == n0 - 1 - x;
    }
    assert e[n0] == a[0];
  }

  /**
   * `edge_extend(a, (n0, n1), u, mode)` as the Python writes it: a zero
   * array, the upsampled core assigned to `r[n0:-n1]`, then the mode's fill
   * loops. A trailing pad of 0 makes `r[n0:-0]` the empty slice `r[n0:0]`:
   * a core of two or more samples does not fit it and raises `ValueError`,
   * a single sample is broadcast into it and writes nothing. An
   * unrecognised mode raises `ValueError` too, and so does an upsampling
   * factor of 0, the step of `upsample`'s slice `r[::0]`.
   */
  method EdgeExtend(a: seq<real>, n0: nat, n1: nat, u: nat, name: string) returns (res: Outcome)
    requires |a| >= 1 && (name == "smooth" ==> |a| >= 2)
    ensures u == 0 || (n1 == 0 && |a| * u >= 2) || !Recognised(name) ==> res == ValueError
    ensures u >= 1 && n1 >= 1 && Recognised(name) ==> res == Ok(EdgeExtension(ModeOf(name), a, n0, n1, u))
    ensures n1 == 0 && |a| * u == 1 && Recognised(name) ==> res == Ok(BroadcastExtension(ModeOf(name), a, n0))
  {
    if u == 0 {
      return ValueError;
    }
    var r := new real[|a| * u + n0 + n1](_ => 0.0);
    var up := Upsample(a, u);
    var slice := SliceLength(r.Length, n0, -(n1 as int));
    CoreSlice(|up|, n0, n1);
    if |up| != slice && |up| != 1 {
      return ValueError;
    }
    CopyCore(r, up, n0, slice);
    if !Recognised(name) {
      return ValueError;
    }
    Fill(r, ModeOf(name), a, n0, n1, u);
    res := Ok(r[..]);
  }

  /** `r[n0:n0+len] = up[:len]` on a zero array: the core slots hold the upsampled row and the rest stay 0. */
  method CopyCore(r: array<real>, up: seq<real>, n0: nat, len: nat)
    requires n0 + len <= r.Length && len <= |up|
    requires forall x :: 0 <= x < r.Length ==> r[x] == 0.0
    modifies r
    ensures forall x :: 0 <= x < r.Length ==> r[x] == if n0 <= x < n0 + len then up[x - n0] else 0.0
  {
    var k := 0;
    while k < len
      invariant k <= len
      invariant forall x :: 0 <= x < r.Length ==> r[x] == if n0 <= x < n0 + k then up[x - n0] else 0.0
    {
      r[n0 + k] := up[k];
      k := k + 1;
    }
  }

  /**
   * The mode's fill loops of `edge_extend` once the core is in place: with
   * a trailing pad they complete the extension, and with none the single
   * broadcast sample was dropped and they give `BroadcastExtension`.
   */
  method Fill(r: array<real>, mode: Mode, a: seq<real>, n0: nat, n1: nat, u: nat)
    requires Extendable(mode, a) && mode != Periodization && |a| >= 1 && u >= 1
    requires r.Length == |a| * u + n0 + n1
    requires n1 >= 1 ==> forall x :: 0 <= x < r.Length ==> r[x] == if n0 <= x < n0 + |a| * u then Upsampled(a, u)[x - n0] else 0.0
    requires n1 == 0 ==> |a| * u == 1 && forall x :: 0 <= x < r.Length ==> r[x] == 0.0
    modifies r
    ensures n1 >= 1 ==> r[..] == EdgeExtension(mode, a, n0, n1, u)
    ensures n1 == 0 ==> r[..] == BroadcastExtension(mode, a, n0)
  {
    ghost var core := r[..];
    if n1 == 0 {
      OneTap(|a|, u, 1, 1);
      FillBroadcast(r, mode, a, n0, u);
    } else if mode != ZeroPad {
      FillLeading(r, core, mode, a, n0, u);
      ghost var lead := r[..];
      FillTrailing(r, lead, mode, a, n1, u);
      EdgeFilled(r[..], lead, core, mode, a, n0, n1, u);
    } else {
      EdgeZeroPad(core, a, n0, n1, u);
    }
  }

  /**
   * The fill loops after a single sample was broadcast into an empty core
   * slice (so `u == 1` and `r` is all zeros): the leading loop as for any
   * pad, nothing from the empty `range(-0, 0, u)`, and in constant mode
   * `r[-0::u] = a[-1]`, which is every slot.
   */
  method FillBroadcast(r: array<real>, mode: Mode, a: seq<real>, n0: nat, u: nat)
    requires Extendable(mode, a) && mode != Periodization && |a| == 1 && u == 1
    requires r.Length == n0 + 1 && forall x :: 0 <= x < r.Length ==> r[x] == 0.0
    modifies r
    ensures r[..] == BroadcastExtension(mode, a, n0)
  {
    if mode == ConstantEdge {
      var j := 0;
      while j < r.Length
        invariant j <= r.Length
        invariant forall x :: 0 <= x < j ==> r[x] == a[|a| - 1]
      {
        r[j] := a[|a| - 1];
        j := j + u;
      }
    } else if mode != ZeroPad {
      ghost var core := r[..];
      FillLeading(r, core, mode, a, n0, u);
      assert n0 / u == n0;
      forall x | 0 <= x < r.Length
        ensures r[x] == BroadcastExtension(mode, a, n0)[x]
      {
        assert r[x] == r[..][x] && core[x] == 0.0;
        var b := BroadcastExtension(mode, a, n0);
        if x < n0 {
          assert LeadSlot(n0, u, x) && LeadIndex(n0, u, x) == n0 - 1 - x;
          assert r[x] == LeftValue(mode, a, n0 - 1 - x);
          assert b[x] == LeftValue(mode, a, n0 - 1 - x);
        } else {
          assert !LeadSlot(n0, u, x);
          assert r[x] == 0.0;
          assert b[x] == 0.0;
        }
      }
    } else {
      forall x | 0 <= x < r.Length
        ensures r[x] == BroadcastExtension(mode, a, n0)[x]
      {
        if x < n0 {
          assert LeftValue(mode, a, n0 - 1 - x) == 0.0;
        }
      }
    }
  }

  /** The core and both fill loops together make up the extension. */
  lemma EdgeFilled(r: seq<real>, lead: seq<real>, core: seq<real>, mode: Mode, a: seq<real>, n0: nat, n1: nat, u: nat)
    requires Extendable(mode, a) && u >= 1 && |core| == |a| * u + n0 + n1 && n1 >= 1 && |r| == |core|
    requires forall x :: 0 <= x < |core| ==> core[x] == if n0 <= x < n0 + |a| * u then Upsampled(a, u)[x - n0] else 0.0
    requires LeadFilled(lead, core, mode, a, n0, u, n0 / u)
    requires TrailFilled(r, lead, mode, a, n1, u, (n1 + u - 1) / u)
    ensures r == EdgeExtension(mode, a, n0, n1, u)
  {
    forall x | 0 <= x < |r|
      ensures r[x] == EdgeAt(mode, a, n0, n1, u, x)
    {
      if TrailSlot(|r|, n1, u, x) {
        TrailIndexBelow(|r|, n1, u, x);
      }
    }
  }

  /** Zero padding fills nothing: the core between zeros is the whole extension. */
  lemma EdgeZeroPad(core: seq<real>, a: seq<real>, n0: nat, n1: nat, u: nat)
    requires |a| >= 1 && u >= 1 && |core| == |a| * u + n0 + n1
    requires forall x :: 0 <= x < |core| ==> core[x] == if n0 <= x < n0 + |a| * u then Upsampled(a, u)[x - n0] else 0.0
    ensures core == EdgeExtension(ZeroPad, a, n0, n1, u)
  {
  }

  // ---------------------------------------------------------------------------
  // numpy.convolve(x, f, mode='valid') and unified_convolution.

  /**
   * The valid part of the linear convolution: output `k` applies the whole
   * filter at `k + |f| - 1`, so every tap reads a sample of `x`.
   */
  function ConvolveValid(x: seq<real>, f: seq<real>): (r: seq<real>)
    requires 1 <= |f| <= |x|
    ensures |r| == |x| - |f| + 1
  {
    seq(|x| - |f| + 1, k requires 0 <= k < |x| - |f| + 1 => RowSum(x, f, k + |f| - 1, 0, |f|))
  }

  /** The valid part does not depend on how `x` would be extended: every mode gives the same sums. */
  lemma ConvolveValidInRow(x: seq<real>, f: seq<real>, mode: Mode, k: nat)
    requires 1 <= |f| <= |x| && Extendable(mode, x) && k < |x| - |f| + 1
    ensures ConvolveValid(x, f)[k] == TapSum(mode, x, f, k + |f| - 1, 0, |f|)
  {
    TapSumInRow(mode, x, x, f, k + |f| - 1, 0, |f|);
  }

  /**
   * `unified_convolution(input, filter, iu, od, fu, mode)` once the mode is
   * known: upsample the filter by `fu`, extend the input upsampled by `iu`
   * with `F' - 1` leading and `F' - iu` trailing slots, keep the valid part
   * of the convolution and downsample it by `od`.
   */
  function Unified(input: seq<real>, filter: seq<real>, iu: nat, od: nat, fu: nat, mode: Mode): (r: seq<real>)
    requires Extendable(mode, input) && |filter| >= 1 && iu >= 1 && od >= 1 && fu >= 1 && |filter| * fu > iu
    ensures |r| == (|input| * iu + |filter| * fu - iu) / od
  {
    var f := Upsampled(filter, fu);
    Downsample(ConvolveValid(EdgeExtension(mode, input, |f| - 1, |f| - iu, iu), f), od)
  }

  /**
   * `unified_convolution` as called. The trailing pad `F' - iu` is negative
   * when the dilated filter is shorter than `iu`, and zero when they are
   * equal; `edge_extend` then raises `ValueError` unless a single sample is
   * broadcast into the empty core slice. An unknown mode name raises too.
   */
  function UnifiedConvolution(input: seq<real>, filter: seq<real>, iu: nat, od: nat, fu: nat, name: string): (res: Outcome)
    requires |input| >= 1 && |filter| >= 1 && iu >= 1 && od >= 1 && fu >= 1
    requires name == "smooth" ==> |input| >= 2
    ensures res == ValueError <==> !CoreFits(|input| * iu, |filter| * fu - 1, |filter| * fu - iu) || !Recognised(name)
    ensures res == ValueError <==> |filter| * fu < iu || (|filter| * fu == iu && |input| * iu >= 2) || !Recognised(name)
    ensures |filter| * fu == iu && res.Ok? ==> res.value == Downsample([if name == "constant" then filter[0] * input[0] else 0.0], od)
  {
    UnifiedCoreFits(|input|, iu, |filter| * fu);
    var F := |filter| * fu;
    if F < iu || (F == iu && |input| * iu >= 2) || !Recognised(name) then ValueError
    else if F == iu then
      OneTap(|input|, iu, |filter|, fu);
      var f := Upsampled(filter, fu);
      OneSampleConvolved(ModeOf(name), input, filter);
      Ok(Downsample(ConvolveValid(BroadcastExtension(ModeOf(name), input, F - 1), f), od))
    else Ok(Unified(input, filter, iu, od, fu, ModeOf(name)))
  }

  /** With one sample and one tap the valid convolution is one product, and 0 unless constant mode kept the sample. */
  lemma OneSampleConvolved(mode: Mode, input: seq<real>, filter: seq<real>)
    requires Extendable(mode, input) && |input| == 1 && |filter| == 1
    ensures ConvolveValid(BroadcastExtension(mode, input, 0), Upsampled(filter, 1))
      == [if mode == ConstantEdge then filter[0] * input[0] else 0.0]
  {
    var x := BroadcastExtension(mode, input, 0);
    var f := Upsampled(filter, 1);
    assert f == [filter[0]] by {
      assert |f| == 1 && f[0] == UpsampledAt(filter, 1, 0);
    }
    assert x == [if mode == ConstantEdge then input[0] else 0.0];
    ConvolveOne(x, f);
    assert f[0] * x[0] == if mode == ConstantEdge then filter[0] * input[0] else 0.0;
  }

  /** The valid part of one sample against one tap. */
  lemma ConvolveOne(x: seq<real>, f: seq<real>)
    requires |x| == 1 && |f| == 1
    ensures ConvolveValid(x, f) == [f[0] * x[0]]
  {
    assert RowSum(x, f, 0, 0, 1) == RowSum(x, f, 0, 0, 0) + f[0] * x[0];
  }

  /** A one-sample core against a filter of `iu` taps means one sample, one tap and no upsampling. */
  lemma OneTap(n: nat, iu: nat, flen: nat, fu: nat)
    requires n >= 1 && iu >= 1 && flen >= 1 && fu >= 1 && n * iu == 1 && flen * fu == iu
    ensures n == 1 && iu == 1 && flen == 1 && fu == 1
  {
    if n > 1 { MulStrict(1, n, iu); }
    if flen > 1 { MulStrict(1, flen, fu); }
  }

  /**
   * Where the core of `unified_convolution`'s padded input fits `r[n0:-n1]`:
   * with `n0 = F' - 1` and `n1 = F' - iu` it fits when the dilated filter
   * is longer than `iu`, or as long and the core a single sample. A shorter
   * filter makes `-n1` a positive stop, and the slice then holds fewer than
   * `iu` slots while the core holds at least two.
   */
  lemma UnifiedCoreFits(n: nat, iu: nat, fl: nat)
    requires n >= 1 && iu >= 1 && fl >= 1
    ensures CoreFits(n * iu, fl - 1, fl - iu) <==> fl > iu || (fl == iu && n * iu == 1)
  {
    var m := n * iu;
    MulMono(1, n, iu);
    if fl >= iu {
      CoreSlice(m, fl - 1, fl - iu);
    } else {
      var len := m + (fl - 1) + (fl - iu);
      assert len >= 0;
      assert SliceLength(len, fl - 1, iu - fl) < iu;
    }
  }

  /** The one-sample case of the Python: `unified_convolution(array([5.]), array([2.]))` gives `[0.]`, and `[10.]` in constant mode. */
  lemma UnifiedOneSample()
    ensures UnifiedConvolution([5.0], [2.0], 1, 1, 1, "zero-pad") == Ok([0.0])
    ensures UnifiedConvolution([5.0], [2.0], 1, 1, 1, "constant") == Ok([10.0])
  {
    OneSampleConvolved(ZeroPad, [5.0], [2.0]);
    OneSampleConvolved(ConstantEdge, [5.0], [2.0]);
    DownsampleUnit([0.0]);
    DownsampleUnit([10.0]);
  }
}
