/** Integer facts used by the index arithmetic of the convolution kernels. */
module Arith {

  /** A `size_t` holds `0 .. SIZE_LIMIT - 1` (64 bits); its arithmetic wraps modulo `SIZE_LIMIT`. */
  const SIZE_LIMIT: nat := 0x1_0000_0000_0000_0000

  /** The `size_t` value of an integer expression evaluated in unsigned arithmetic. */
  function SizeT(x: int): (r: nat)
    ensures r < SIZE_LIMIT
    ensures 0 <= x < SIZE_LIMIT ==> r == x
    ensures x < 0 && 0 <= x + SIZE_LIMIT ==> r == x + SIZE_LIMIT
  {
    x % SIZE_LIMIT
  }

  lemma MulMono(a: int, b: int, c: nat)
    requires a <= b
    ensures a * c <= b * c
  {
    assert b * c - a * c == (b - a) * c;
  }

  /** One more multiple of `m`. */
  lemma MulNext(q: int, m: int)
    ensures (q + 1) * m == q * m + m
  {
  }

  lemma MulStrict(a: int, b: int, c: nat)
    requires a < b && c > 0
    ensures a * c < b * c
  {
    assert b * c - a * c == (b - a) * c;
    MulMono(1, b - a, c);
  }

  /** Quotient and remainder are unique: `x == q * m + r` with `0 <= r < m` fixes both. */
  lemma DivModOf(x: int, m: int, q: int, r: int)
    requires m > 0 && 0 <= r < m && x == q * m + r
    ensures x / m == q && x % m == r
  {
    var d := q - x / m;
    assert d * m == x % m - r;
    if d > 0 {
      MulMono(1, d, m);
    } else if d < 0 {
      MulMono(d, -1, m);
    }
  }

  /** `q * b <= a` bounds the quotient from below. */
  lemma DivLower(a: int, b: int, q: int)
    requires b > 0 && q * b <= a
    ensures q <= a / b
  {
    assert a == (a / b) * b + a % b;
    assert (a / b + 1) * b == (a / b) * b + b;
    if a / b < q {
      MulMono(a / b + 1, q, b);
    }
  }

  /** The number of multiples of `m` below `n` is the ceiling of `n / m`. */
  lemma CeilCount(q: int, m: int, n: int)
    requires m > 0 && q >= 0 && n >= 0 && q * m >= n
    requires q == 0 || (q - 1) * m < n
    ensures q == (n + m - 1) / m
  {
    if q == 0 {
      DivModOf(n + m - 1, m, 0, n + m - 1);
    } else {
      assert (q - 1) * m == q * m - m;
      DivModOf(n + m - 1, m, q, n + m - 1 - q * m);
    }
  }

  lemma CeilBelow(q: int, m: int, n: int)
    requires m > 0 && q >= 0 && q * m < n
    ensures q < (n + m - 1) / m
  {
    assert (q + 1) * m == q * m + m;
    DivLower(n + m - 1, m, q + 1);
  }

  /** `q` outputs of stride `m` starting at `m - 1` fit below `end` exactly when `q < end / m + 1`. */
  lemma CountBelow(q: int, m: int, end: int)
    requires m > 0 && q >= 0 && m - 1 + q * m < end
    ensures q < end / m
  {
    var r := end % m;
    assert end == (end / m) * m + r;
    assert (q + 1) * m == q * m + m;
    if end / m <= q {
      MulMono(end / m, q, m);
    }
  }

  lemma CountExact(q: int, m: int, end: int)
    requires m > 0 && q >= 0 && end >= 0 && m - 1 + q * m >= end
    requires q == 0 || m - 1 + (q - 1) * m < end
    ensures q == end / m
  {
    assert (q + 1) * m == q * m + m;
    if q == 0 {
      DivModOf(end, m, 0, end);
    } else {
      assert (q - 1) * m == q * m - m;
      DivModOf(end, m, q, end - q * m);
    }
  }

  /** Distinct multiples stay distinct. */
  lemma MulInjective(a: int, b: int, c: nat)
    requires c > 0 && a * c == b * c
    ensures a == b
  {
    if a < b { MulStrict(a, b, c); }
    if b < a { MulStrict(b, a, c); }
  }

  lemma ModPeriod(x: int, m: int, q: int)
    requires m > 0
    ensures (x + q * m) % m == x % m
  {
    DivModOf(x + q * m, m, x / m + q, x % m);
  }

  /** A count bounded by `end / m` whose next centre `m - 1 + q * m` reaches `end` is exactly `end / m`. */
  lemma CountReached(q: int, m: int, end: int)
    requires m > 0 && q >= 0 && end >= 0 && q <= end / m && m - 1 + q * m >= end
    ensures q == end / m
  {
    assert end == (end / m) * m + end % m;
    assert (q + 1) * m == q * m + m;
    if q < end / m {
      MulMono(q + 1, end / m, m);
    }
  }

  /** A count bounded by the ceiling of `n / m` whose next multiple reaches `n` is exactly that ceiling. */
  lemma CeilReached(q: int, m: int, n: int)
    requires m > 0 && q >= 0 && n >= 0 && q <= (n + m - 1) / m && q * m >= n
    ensures q == (n + m - 1) / m
  {
    var c := (n + m - 1) / m;
    assert n + m - 1 == c * m + (n + m - 1) % m;
    if q < c {
      MulMono(q + 1, c, m);
    }
  }

  /** The number of centres `first + o * step` (for `o = 0, 1, ...`) that lie below `x`. */
  function Centres(first: nat, step: nat, x: nat): nat
    requires step >= 1
  {
    if x <= first then 0 else (x - first + step - 1) / step
  }

  /** Centre `o` lies below `x` exactly when `o` is below the count of such centres. */
  lemma CentresBelow(first: nat, step: nat, x: nat, o: nat)
    requires step >= 1
    ensures first + o * step < x <==> o < Centres(first, step, x)
  {
    if x > first {
      var n := x - first;
      if o * step < n {
        CeilBelow(o, step, n);
      } else {
        var c := (n + step - 1) / step;
        assert n + step - 1 == c * step + (n + step - 1) % step;
        assert (o + 1) * step == o * step + step;
        if o < c {
          MulMono(o + 1, c, step);
        }
      }
    }
  }
}
