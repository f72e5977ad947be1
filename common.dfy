/**
 * Buffer lengths and decomposition levels (`pywt/src/common.c`): the sizes
 * callers check their output buffers against, in `size_t` arithmetic, and
 * the deepest levels a signal supports.
 */
module Common {
  import opened Arith
  import opened Extension
  import opened Downsampling
  import opened Upsampling

  /** A `size_t` value. */
  type Size = x: nat | x < SIZE_LIMIT

  /** Which half of a decomposition step a coefficient row holds. */
  datatype Coefficient = Approx | Detail

  function Pow2(k: nat): (r: nat)
    ensures r >= 1
  {
    if k == 0 then 1 else 2 * Pow2(k - 1)
  }

  lemma {:induction false} Pow2Mono(j: nat, k: nat)
    requires j <= k
    ensures Pow2(j) <= Pow2(k)
  {
    if j < k {
      Pow2Mono(j, k - 1);
    }
  }

  lemma {:induction false} Pow2Add(j: nat, k: nat)
    ensures Pow2(j + k) == Pow2(j) * Pow2(k)
  {
    if k > 0 {
      Pow2Add(j, k - 1);
      assert Pow2(j + k) == 2 * Pow2(j + k - 1);
    }
  }

  lemma Pow2Of64()
    ensures Pow2(64) == SIZE_LIMIT
  {
    assert Pow2(1) == 2;
    Pow2Add(1, 1);
    assert Pow2(2) == 4;
    Pow2Add(2, 2);
    assert Pow2(4) == 16;
    Pow2Add(4, 4);
    assert Pow2(8) == 256;
    Pow2Add(8, 8);
    assert Pow2(16) == 0x1_0000;
    Pow2Add(16, 16);
    assert Pow2(32) == 0x1_0000_0000;
    Pow2Add(32, 32);
  }

  /** A `size_t` holds exactly the values below `2^64`. */
  lemma Pow2Bits(k: nat)
    ensures k <= 64 ==> Pow2(k) <= SIZE_LIMIT
    ensures k >= 64 ==> Pow2(k) >= SIZE_LIMIT
  {
    Pow2Of64();
    if k <= 64 {
      Pow2Mono(k, 64);
    } else {
      Pow2Mono(64, k);
    }
  }

  // ---------------------------------------------------------------------------
  // Decomposition buffers.

  /**
   * `dwt_buffer_length`: the number of coefficients one decomposition step
   * writes, 0 for an empty signal or filter. Whenever `N + F - 1` fits a
   * `size_t` it is the write count of the step-2 downsampling kernel:
   * `⌈N/2⌉` for periodization, `⌊(N + F - 1)/2⌋` otherwise.
   */
  function DwtBufferLength(n: Size, f: Size, mode: Mode): (r: Size)
    ensures n < 1 || f < 1 ==> r == 0
    ensures n >= 1 && f >= 1 && mode == Periodization ==> r == PeriodizedCount(n, 2)
    ensures n >= 1 && f >= 1 && mode != Periodization && n + f - 1 < SIZE_LIMIT ==> r == DownCount(n, f, 2)
  {
    if n < 1 || f < 1 then 0
    else if mode == Periodization then
      DivModOf(n + 1, 2, n / 2 + n % 2, (n + 1) % 2);
      n / 2 + (if n % 2 == 1 then 1 else 0)
    else SizeT(n + f - 1) / 2
  }

  /**
   * `dwt_buffer_length_o`: the decomposition length with an adjustment of one
   * for the approximation of an odd-length signal. In `size_t` arithmetic the
   * non-periodization branch wraps to `SIZE_LIMIT - 1` for `N = F = 1` with
   * the detail coefficient. Away from that wrap it is one less than the
   * kernel's write count unless the adjustment applies.
   */
  function DwtBufferLengthO(n: Size, f: Size, coef: Coefficient, mode: Mode): (r: Size)
    ensures n < 1 || f < 1 ==> r == 0
    ensures n >= 1 && f >= 1 && mode == Periodization ==>
      r + (if n % 2 == 1 && coef == Detail then 1 else 0) == DwtBufferLength(n, f, mode)
    ensures n >= 1 && f >= 1 && mode != Periodization && n + f - 1 < SIZE_LIMIT && n + f >= 3 ==>
      r + (if n % 2 == 1 && coef == Approx then 0 else 1) == DwtBufferLength(n, f, mode)
    ensures n == 1 && f == 1 && mode != Periodization && coef == Detail ==> r == SIZE_LIMIT - 1
  {
    if n < 1 || f < 1 then 0
    else
      var adj := if n % 2 == 1 && coef == Approx then 1 else 0;
      if mode == Periodization then
        assert n % 2 == 1 || n % 2 == 0;
        assert coef == Approx || coef == Detail;
        assert DwtBufferLength(n, f, mode) == n / 2 + (if n % 2 == 1 then 1 else 0);
        n / 2 + adj
      else SizeT(SizeT(n + f - 1) / 2 - 1 + adj)
  }

  /**
   * The downsampling kernel writes one slot past a buffer sized by
   * `dwt_buffer_length_o`: for a four-sample row, a two-tap filter and the
   * detail coefficient the length is 1 where two outputs are written.
   */
  lemma DwtBufferLengthOShort(n: Size, f: Size, coef: Coefficient, mode: Mode)
    requires n >= 1 && f >= 1 && n + f >= 3 && n + f - 1 < SIZE_LIMIT && mode != Periodization
    requires n % 2 == 0 || coef == Detail
    ensures DwtBufferLengthO(n, f, coef, mode) + 1 == DownCount(n, f, 2)
    ensures DwtBufferLengthO(4, 2, Detail, ZeroPad) == 1 && DownCount(4, 2, 2) == 2
  {
  }

  /**
   * In periodization the adjustment goes only to the approximation, yet the
   * periodization kernel writes `⌈N/2⌉` coefficients for either filter: for
   * an odd row the detail buffer is one slot short (three samples: 1 vs 2).
   */
  lemma DwtBufferLengthOPeriodizedShort(n: Size, f: Size)
    requires n >= 1 && n % 2 == 1 && f >= 1
    ensures DwtBufferLengthO(n, f, Detail, Periodization) + 1 == PeriodizedCount(n, 2)
    ensures forall a: seq<real>, filter: seq<real>, pad: nat {:trigger Periodized(a, filter, 2, pad)} ::
      |a| == n ==> DwtBufferLengthO(n, f, Detail, Periodization) + 1 == |Periodized(a, filter, 2, pad)|
    ensures DwtBufferLengthO(3, 2, Detail, Periodization) == 1 && PeriodizedCount(3, 2) == 2
  {
    assert DwtBufferLength(n, f, Periodization) == PeriodizedCount(n, 2);
    assert DwtBufferLength(3, 2, Periodization) == PeriodizedCount(3, 2) == 2;
  }

  // ---------------------------------------------------------------------------
  // Reconstruction buffers.

  /**
   * `reconstruction_buffer_length`: `2C + F - 2` outputs of a full
   * reconstruction, 0 for empty coefficients or filter. For an even filter
   * this is the write count of the full upsampling kernel.
   */
  function ReconstructionBufferLength(c: Size, f: Size): (r: Size)
    ensures c < 1 || f < 1 ==> r == 0
    ensures c >= 1 && f >= 2 && f % 2 == 0 && 2 * c + f - 2 < SIZE_LIMIT ==>
      forall a: seq<real>, filter: seq<real> {:trigger UpsampledFull(a, filter)} ::
        |a| == c && |filter| == f ==> r == |UpsampledFull(a, filter)|
  {
    if c < 1 || f < 1 then 0 else SizeT(2 * c + f - 2)
  }

  /**
   * `idwt_buffer_length`: `2C` for periodization, `2C - F + 2` otherwise
   * (wrapping when the filter is longer than `2C + 2`). These are the write
   * counts of the two valid-part upsampling kernels.
   */
  function IdwtBufferLength(c: Size, f: Size, mode: Mode): (r: Size)
    ensures mode == Periodization && 2 * c < SIZE_LIMIT ==> r == 2 * c
    ensures mode != Periodization && f >= 2 && f % 2 == 0 && f / 2 <= c && 2 * c < SIZE_LIMIT ==>
      forall a: seq<real>, filter: seq<real> {:trigger UpsampledValid(a, filter)} ::
        |a| == c && |filter| == f ==> r == |UpsampledValid(a, filter)|
    ensures mode != Periodization && f > 2 * c + 2 ==> r == SIZE_LIMIT + 2 * c + 2 - f
  {
    if mode == Periodization then SizeT(2 * c) else SizeT(2 * c - f + 2)
  }

  /** Approximation and detail rows can be reconstructed together: both empty is refused, and the approximation may be one longer. */
  predicate Paired(a: nat, d: nat) {
    (a == 0) != (d == 0) || (a != 0 && d != 0 && (a == d || a == d + 1))
  }

  /** The longer of the two coefficient rows. */
  function Longer(a: nat, d: nat): nat {
    if a < d then d else a
  }

  /**
   * `idwt_buffer_length_o`: the reconstruction length for an approximation
   * row of `A` and a detail row of `D` coefficients. It is 0 when both are
   * empty or when `A - D`, taken in `size_t` arithmetic, exceeds 1, which
   * includes `A < D`. One empty row gives the other row's length; otherwise
   * the adjustment `A - D` is added.
   */
  function IdwtBufferLengthO(a: Size, d: Size, f: Size, mode: Mode): (r: Size)
    ensures !Paired(a, d) ==> r == 0
    ensures Paired(a, d) && mode == Periodization && 2 * Longer(a, d) < SIZE_LIMIT ==> r == 2 * Longer(a, d) - (if a == d + 1 && d != 0 then 1 else 0)
    ensures Paired(a, d) && mode != Periodization ==>
      r == SizeT(2 * Longer(a, d) - f + 1)
  {
    if a == 0 && d == 0 then 0
    else if a == 0 then IdwtLength(d, 0, f, mode)
    else if d == 0 then IdwtLength(a, 0, f, mode)
    else
      var adj := SizeT(a - d);
      if adj > 1 then 0 else IdwtLength(d, adj, f, mode)
  }

  /** The closing `switch` of `idwt_buffer_length_o`. */
  function IdwtLength(len: Size, adj: nat, f: Size, mode: Mode): (r: Size)
    requires adj <= 1
  {
    if mode == Periodization then SizeT(2 * len + adj) else SizeT((len + adj) * 2 - f + 1)
  }

  /**
   * A buffer sized by `idwt_buffer_length_o` is one slot short of what the
   * valid-part kernel writes for the longer coefficient row, whatever the
   * pairing: two rows of two with a two-tap filter give 3 where 4 outputs
   * are written.
   */
  lemma IdwtBufferLengthOShort(a: Size, d: Size, f: Size, mode: Mode)
    requires Paired(a, d) && mode != Periodization && f >= 2 && f % 2 == 0
    requires f / 2 <= Longer(a, d) && 2 * Longer(a, d) < SIZE_LIMIT
    ensures IdwtBufferLengthO(a, d, f, mode) + 1 == 2 * (Longer(a, d) - f / 2 + 1)
    ensures IdwtBufferLengthO(2, 2, 2, ZeroPad) == 3
  {
  }

  /**
   * In periodization mode an approximation row one longer than the detail
   * row gets a buffer of `2D + 1` from `idwt_buffer_length_o`, while the
   * periodization kernel run on that row writes `2(D + 1)` slots: three
   * and two coefficients give 5 where 6 outputs are written.
   */
  lemma IdwtBufferLengthOPeriodizedShort(d: Size, f: Size)
    requires d >= 1 && 2 * (d + 1) < SIZE_LIMIT
    ensures IdwtBufferLengthO(d + 1, d, f, Periodization) + 1 == 2 * (d + 1)
    ensures forall a: seq<real>, filter: seq<real> {:trigger UpsampledPeriodized(a, filter)} ::
      |a| == d + 1 ==> IdwtBufferLengthO(d + 1, d, f, Periodization) + 1 == |UpsampledPeriodized(a, filter)|
    ensures IdwtBufferLengthO(3, 2, 2, Periodization) == 5
  {
  }

  /**
   * The reconstruction length that covers what the kernels write: `2L` for
   * periodization and `2L - F + 2` otherwise, with `L` the longer row, under
   * the same pairing rules as `idwt_buffer_length_o`.
   */
  function IdwtOutputLength(a: Size, d: Size, f: Size, mode: Mode): (r: Size)
    ensures !Paired(a, d) ==> r == 0
    ensures Paired(a, d) && mode == Periodization && 2 * Longer(a, d) < SIZE_LIMIT ==> r == 2 * Longer(a, d)
    ensures Paired(a, d) && mode != Periodization && f >= 2 && f % 2 == 0 && f / 2 <= Longer(a, d) && 2 * Longer(a, d) < SIZE_LIMIT ==>
      forall x: seq<real>, filter: seq<real> {:trigger UpsampledValid(x, filter)} ::
        |x| == Longer(a, d) && |filter| == f ==> r == |UpsampledValid(x, filter)|
  {
    if Paired(a, d) then IdwtBufferLength(Longer(a, d), f, mode) else 0
  }

  /**
   * `swt_buffer_length`: a stationary step keeps every sample, so the output
   * is as long as the input: the write count of the periodization kernel at
   * step 1.
   */
  function SwtBufferLength(n: Size): (r: Size)
    ensures r == PeriodizedCount(n, 1)
  {
    DivModOf(n, 1, n, 0);
    n
  }

  // ---------------------------------------------------------------------------
  // Decomposition levels.

  /** `uint_log2`: the floor of the base-2 logarithm of a positive value. */
  function UintLog2(x: nat): (r: nat)
    requires x >= 1
    ensures Pow2(r) <= x < Pow2(r + 1)
  {
    if x == 1 then 0 else UintLog2(x / 2) + 1
  }

  /** The floor logarithm is the only exponent bracketing `x`, and a `size_t` gives at most 63. */
  lemma Log2Unique(x: nat, k: nat)
    requires Pow2(k) <= x < Pow2(k + 1)
    ensures UintLog2(x) == k
    ensures x < SIZE_LIMIT ==> k < 64
  {
    var r := UintLog2(x);
    if r < k {
      Pow2Mono(r + 1, k);
    } else if k < r {
      Pow2Mono(k + 1, r);
    }
    if k >= 64 {
      Pow2Bits(k);
    }
  }

  /** What a call whose result may be undefined gives: a level, or behaviour the C language leaves undefined. */
  datatype Level = Defined(level: nat) | Undefined

  /**
   * `dwt_max_level` as written: 0 for an empty signal or a filter shorter
   * than two taps, otherwise `uint_log2(N / (F - 1))`. When the signal is
   * shorter than `F - 1` the quotient is 0, and `uint_log2(0)` counts the
   * leading zeros of 0, which is undefined with GCC and clang.
   */
  function DwtMaxLevelAsWritten(n: Size, f: Size): (r: Level)
    ensures r == Undefined <==> n >= 1 && f >= 2 && n < f - 1
    ensures r.Defined? ==> r.level == DwtMaxLevel(n, f)
  {
    if n < 1 || f < 2 then Defined(0)
    else
      var q := n / (f - 1);
      QuotientZero(n, f - 1);
      if q == 0 then Undefined else Defined(UintLog2(q))
  }

  /** The quotient is 0 exactly when the dividend is below the divisor. */
  lemma QuotientZero(n: nat, d: nat)
    requires d >= 1
    ensures n / d == 0 <==> n < d
  {
    if n >= d {
      DivLower(n, d, 1);
    } else {
      DivModOf(n, d, 0, n);
    }
  }

  /** A three-sample signal and an eight-tap filter reach `uint_log2(0)`. */
  lemma DwtMaxLevelShortSignal()
    ensures DwtMaxLevelAsWritten(3, 8) == Undefined
    ensures DwtMaxLevel(3, 8) == 0
  {
  }

  /**
   * `dwt_max_level` as intended: 0 for an empty signal, a filter shorter
   * than two taps, or a signal shorter than `F - 1` (no level fits);
   * otherwise the largest level `L` with `(F - 1) * 2^L <= N`.
   */
  function DwtMaxLevel(n: Size, f: Size): (r: nat)
    ensures n < 1 || f < 2 || n < f - 1 ==> r == 0
    ensures n >= 1 && f >= 2 && n >= f - 1 ==> (f - 1) * Pow2(r) <= n < (f - 1) * Pow2(r + 1)
  {
    if n < 1 || f < 2 || n < f - 1 then 0
    else
      var q := n / (f - 1);
      DivLower(n, f - 1, 1);
      var r := UintLog2(q);
      LevelBracket(n, f - 1, r);
      r
  }

  /** Bracketing the quotient `N / d` between powers of two brackets `N` between their multiples. */
  lemma LevelBracket(n: nat, d: nat, r: nat)
    requires d >= 1 && Pow2(r) <= n / d < Pow2(r + 1)
    ensures d * Pow2(r) <= n < d * Pow2(r + 1)
  {
    var q := n / d;
    MulMono(Pow2(r), q, d);
    MulMono(q + 1, Pow2(r + 1), d);
    assert n < (q + 1) * d;
  }

  /**
   * `swt_max_level`: how many times the signal length halves evenly, the
   * exponent of the largest power of two dividing `N` (0 for `N = 0`).
   */
  method SwtMaxLevel(n: Size) returns (j: nat)
    ensures n == 0 ==> j == 0
    ensures n > 0 ==> n % Pow2(j) == 0 && n % Pow2(j + 1) != 0
    ensures j < 64
  {
    var m: nat := n;
    j := 0;
    while m > 0
      invariant n == m * Pow2(j)
      invariant n == 0 ==> j == 0
      invariant Pow2(j) <= n || n == 0
      decreases m
    {
      if m % 2 == 1 {
        OddMultiple(m, j);
        PowerBelow(n, j);
        return;
      }
      DivModOf(m, 2, m / 2, 0);
      assert n == (m / 2) * Pow2(j + 1);
      MulMono(1, m / 2, Pow2(j + 1));
      m := m / 2;
      j := j + 1;
    }
  }

  /** An odd multiple of `2^j` is divisible by `2^j` and not by `2^(j+1)`. */
  lemma OddMultiple(m: nat, j: nat)
    requires m % 2 == 1
    ensures (m * Pow2(j)) % Pow2(j) == 0 && (m * Pow2(j)) % Pow2(j + 1) == Pow2(j)
  {
    DivModOf(m * Pow2(j), Pow2(j), m, 0);
    DivModOf(m * Pow2(j), Pow2(j + 1), m / 2, Pow2(j));
  }

  /** A power of two no larger than a `size_t` value has exponent below 64. */
  lemma PowerBelow(n: Size, j: nat)
    requires Pow2(j) <= n
    ensures j < 64
  {
    if j >= 64 {
      Pow2Bits(j);
    }
  }
}
