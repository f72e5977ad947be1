/**
 * The n-d array layout behind the axis transforms (`pywt/src/wt.template.c`):
 * rows along one axis of a strided array, numbered mixed-radix with the last
 * dimension fastest, and the strided copies in and out of a contiguous row.
 * Strides count elements, not bytes.
 */
module Layout {
  import opened Arith

  /** The number of rows along `axis`: the product of every other extent. */
  function NumRows(shape: seq<nat>, axis: nat): nat
    decreases |shape|
  {
    if |shape| == 0 then 1
    else
      var n := |shape| - 1;
      if n == axis then NumRows(shape[..n], axis) else NumRows(shape[..n], axis) * shape[n]
  }

  /**
   * `num_loops`: the product of the extents other than `axis`, accumulated
   * over the dimensions in order.
   */
  method NumLoops(shape: seq<nat>, axis: nat) returns (count: nat)
    ensures count == NumRows(shape, axis)
  {
    count := 1;
    var i := 0;
    while i < |shape|
      invariant i <= |shape| && count == NumRows(shape[..i], axis)
    {
      assert shape[..i + 1][..i] == shape[..i];
      if i != axis {
        count := count * shape[i];
      }
      i := i + 1;
    }
    assert shape[..|shape|] == shape;
  }

  /**
   * The index tuple of row `r`: each dimension other than `axis`, from the
   * last one back, takes the remainder of `r` by its extent and divides it
   * out; the axis coordinate is 0.
   */
  function Unravel(r: nat, shape: seq<nat>, axis: nat): (idx: seq<nat>)
    ensures |idx| == |shape|
    decreases |shape|
  {
    if |shape| == 0 then []
    else
      var n := |shape| - 1;
      if n == axis || shape[n] == 0 then Unravel(r, shape[..n], axis) + [0]
      else Unravel(r / shape[n], shape[..n], axis) + [r % shape[n]]
  }

  /** The row number of an index tuple, last dimension fastest, skipping `axis`. */
  function Ravel(idx: seq<nat>, shape: seq<nat>, axis: nat): nat
    requires |idx| == |shape|
    decreases |shape|
  {
    if |shape| == 0 then 0
    else
      var n := |shape| - 1;
      if n == axis then Ravel(idx[..n], shape[..n], axis)
      else Ravel(idx[..n], shape[..n], axis) * shape[n] + idx[n]
  }

  /** An index tuple of a row: inside every extent, 0 on the axis. */
  predicate InShape(idx: seq<nat>, shape: seq<nat>, axis: nat) {
    |idx| == |shape| && forall k :: 0 <= k < |idx| ==> if k == axis then idx[k] == 0 else idx[k] < shape[k]
  }

  lemma InShapePrefix(idx: seq<nat>, shape: seq<nat>, axis: nat)
    requires |idx| == |shape| >= 1
    ensures InShape(idx, shape, axis) <==>
      InShape(idx[..|idx| - 1], shape[..|shape| - 1], axis)
      && (if |idx| - 1 == axis then idx[|idx| - 1] == 0 else idx[|idx| - 1] < shape[|idx| - 1])
  {
  }

  /** Row `r * s + t` of a shape extended by one extent `s`: quotient `r`, remainder `t`. */
  lemma MixedDigit(r: nat, t: nat, s: nat, count: nat)
    requires t < s && r < count
    ensures (r * s + t) / s == r && (r * s + t) % s == t && r * s + t < count * s
  {
    DivModOf(r * s + t, s, r, t);
    MulMono(r + 1, count, s);
  }

  /** Every row number below `NumRows` unravels to an index tuple of a row, and ravels back. */
  lemma {:induction false} UnravelInShape(r: nat, shape: seq<nat>, axis: nat)
    requires r < NumRows(shape, axis)
    ensures InShape(Unravel(r, shape, axis), shape, axis)
    ensures Ravel(Unravel(r, shape, axis), shape, axis) == r
    decreases |shape|
  {
    if |shape| > 0 {
      var n := |shape| - 1;
      var idx := Unravel(r, shape, axis);
      InShapePrefix(idx, shape, axis);
      if n == axis {
        assert idx[..n] == Unravel(r, shape[..n], axis);
        UnravelInShape(r, shape[..n], axis);
      } else {
        var s := shape[n];
        var q := r / s;
        assert s > 0;
        assert r == q * s + r % s;
        assert q < NumRows(shape[..n], axis) by {
          if q >= NumRows(shape[..n], axis) {
            MulMono(NumRows(shape[..n], axis), q, s);
          }
        }
        assert idx[..n] == Unravel(q, shape[..n], axis);
        UnravelInShape(q, shape[..n], axis);
      }
    }
  }

  /** Every index tuple of a row ravels to a row number below `NumRows`, and unravels back. */
  lemma {:induction false} RavelInRange(idx: seq<nat>, shape: seq<nat>, axis: nat)
    requires InShape(idx, shape, axis)
    ensures Ravel(idx, shape, axis) < NumRows(shape, axis)
    ensures Unravel(Ravel(idx, shape, axis), shape, axis) == idx
    decreases |shape|
  {
    if |shape| > 0 {
      var n := |shape| - 1;
      InShapePrefix(idx, shape, axis);
      RavelInRange(idx[..n], shape[..n], axis);
      var r := Ravel(idx[..n], shape[..n], axis);
      assert idx == idx[..n] + [idx[n]];
      if n == axis {
        assert Unravel(r, shape, axis) == Unravel(r, shape[..n], axis) + [0];
      } else {
        var s := shape[n];
        MixedDigit(r, idx[n], s, NumRows(shape[..n], axis));
        assert Ravel(idx, shape, axis) == r * s + idx[n];
        assert Unravel(r * s + idx[n], shape, axis) == Unravel(r, shape[..n], axis) + [idx[n]];
      }
    }
  }

  /** The rows are the index tuples: `Unravel` is injective on row numbers below `NumRows`. */
  lemma UnravelInjective(r1: nat, r2: nat, shape: seq<nat>, axis: nat)
    requires r1 < NumRows(shape, axis) && r2 < NumRows(shape, axis)
    requires Unravel(r1, shape, axis) == Unravel(r2, shape, axis)
    ensures r1 == r2
  {
    UnravelInShape(r1, shape, axis);
    UnravelInShape(r2, shape, axis);
  }

  /** `Σ idx[k] * strides[k]` over `k >= d`. */
  function OffsetFrom(idx: seq<nat>, strides: seq<int>, d: nat): int
    requires |idx| <= |strides|
    decreases |idx| - d
  {
    if d >= |idx| then 0 else idx[d] * strides[d] + OffsetFrom(idx, strides, d + 1)
  }

  /** The element offset of an index tuple. */
  function Offset(idx: seq<nat>, strides: seq<int>): int
    requires |idx| <= |strides|
  {
    OffsetFrom(idx, strides, 0)
  }

  /**
   * The "offset into linear buffer" block: the dimensions are visited from
   * the last one back, and each one other than `axis` contributes the
   * remainder of the reduced row number times its stride.
   */
  method RowOffset(i: nat, shape: seq<nat>, axis: nat, strides: seq<int>) returns (offset: int)
    requires |strides| == |shape| && i < NumRows(shape, axis)
    ensures offset == Offset(Unravel(i, shape, axis), strides)
  {
    ghost var idx := Unravel(i, shape, axis);
    var reduced: nat := i;
    offset := 0;
    var j := 0;
    assert shape[..|shape|] == shape && idx[|shape|..] == [];
    ghost var top := |shape|;
    while j < |shape|
      invariant j <= |shape| && top == |shape| - j
      invariant reduced < NumRows(shape[..top], axis)
      invariant idx == Unravel(reduced, shape[..top], axis) + idx[top..]
      invariant offset == OffsetFrom(idx, strides, top)
    {
      var jRev := |shape| - 1 - j;
      OffsetStep(idx, strides, shape, axis, reduced, jRev, top);
      if jRev != axis {
        var extent := shape[jRev];
        var axisIdx: nat := reduced % extent;
        reduced := reduced / extent;
        offset := offset + axisIdx * strides[jRev];
      }
      j, top := j + 1, jRev;
    }
    assert shape[..0] == [];
    assert idx[0..] == idx;
  }

  /** One pass of the offset loop: dimension `d` peeled off the row number and its term added to the offset. */
  lemma OffsetStep(idx: seq<nat>, strides: seq<int>, shape: seq<nat>, axis: nat, reduced: nat, d: nat, top: nat)
    requires |strides| == |shape| == |idx| && top == d + 1 <= |shape| && reduced < NumRows(shape[..top], axis)
    requires idx == Unravel(reduced, shape[..top], axis) + idx[top..]
    ensures d != axis ==> shape[d] > 0 && reduced / shape[d] >= 0
    ensures var next := if d == axis then reduced else reduced / shape[d];
      next < NumRows(shape[..d], axis) && idx == Unravel(next, shape[..d], axis) + idx[d..]
    ensures OffsetFrom(idx, strides, d) == (if d == axis then 0 else reduced % shape[d]) * strides[d] + OffsetFrom(idx, strides, top)
  {
    PeelLast(reduced, shape[..d + 1], axis);
    assert shape[..d + 1][..d] == shape[..d];
    if d != axis {
      TailStep(idx, Unravel(reduced / shape[d], shape[..d], axis), reduced % shape[d], d);
    } else {
      TailStep(idx, Unravel(reduced, shape[..d], axis), 0, d);
    }
  }

  /** The last coordinate of a row's index tuple, and the row number left for the dimensions before it. */
  lemma PeelLast(r: nat, prefix: seq<nat>, axis: nat)
    requires |prefix| >= 1 && r < NumRows(prefix, axis)
    ensures var n := |prefix| - 1;
      if n == axis then
        Unravel(r, prefix, axis) == Unravel(r, prefix[..n], axis) + [0] && r < NumRows(prefix[..n], axis)
      else
        prefix[n] > 0 && r / prefix[n] < NumRows(prefix[..n], axis)
        && Unravel(r, prefix, axis) == Unravel(r / prefix[n], prefix[..n], axis) + [r % prefix[n]]
  {
    var n := |prefix| - 1;
    if n != axis {
      var s := prefix[n];
      var q := r / s;
      assert r == q * s + r % s;
      if q >= NumRows(prefix[..n], axis) {
        MulMono(NumRows(prefix[..n], axis), q, s);
      }
    }
  }

  /** Peeling the last coordinate of the unravelled prefix onto the processed tail. */
  lemma TailStep(idx: seq<nat>, head: seq<nat>, x: nat, d: nat)
    requires d < |idx| && |head| == d
    requires idx == (head + [x]) + idx[d + 1..]
    ensures idx == head + idx[d..] && idx[d] == x
  {
    assert idx[d..] == [x] + idx[d + 1..];
  }

  // ---------------------------------------------------------------------------
  // Strided rows.

  /** Position `j` of a row that starts at `off` and advances by `stride`. */
  function Pos(off: int, stride: int, j: nat): int {
    off + j * stride
  }

  /** Every position of an `n`-element row lies inside a buffer of `len` elements: it is enough that both ends do. */
  predicate RowFits(len: nat, off: int, stride: int, n: nat) {
    n == 0 || (0 <= off < len && 0 <= off + (n - 1) * stride < len)
  }

  /** A position of a fitting row lies between its two ends. */
  lemma PosFits(len: nat, off: int, stride: int, n: nat, j: nat)
    requires RowFits(len, off, stride, n) && j < n
    ensures 0 <= Pos(off, stride, j) < len
    ensures RowFits(len, off, stride, j + 1)
  {
    if stride >= 0 {
      MulMono(j, n - 1, stride);
      assert 0 <= j * stride;
    } else {
      MulMono(j, n - 1, -stride);
      assert j * stride <= 0 && j * stride == -(j * (-stride));
      assert (n - 1) * stride == -((n - 1) * (-stride));
    }
  }

  /** With a non-zero stride, different places of a row are different positions. */
  lemma PosDistinct(off: int, stride: int, j: nat, k: nat)
    requires stride != 0 && j != k
    ensures Pos(off, stride, j) != Pos(off, stride, k)
  {
    var m: nat := if stride > 0 then stride else -stride;
    if stride < 0 {
      assert j * stride == -(j * m) && k * stride == -(k * m);
    }
    if j * m == k * m {
      MulInjective(j, k, m);
    }
  }

  /** The row read out of `buf`. */
  function Row(buf: seq<real>, off: int, stride: int, n: nat): (row: seq<real>)
    requires RowFits(|buf|, off, stride, n)
    ensures |row| == n
  {
    seq(n, j requires 0 <= j < n => (PosFits(|buf|, off, stride, n, j); buf[Pos(off, stride, j)]))
  }

  /** "Copy to temporary": the strided row gathered into a fresh contiguous buffer. */
  method GatherRow(buf: seq<real>, off: int, stride: int, n: nat) returns (temp: array<real>)
    requires RowFits(|buf|, off, stride, n)
    ensures fresh(temp) && temp[..] == Row(buf, off, stride, n)
  {
    temp := new real[n];
    var j := 0;
    while j < n
      invariant j <= n
      invariant forall k :: 0 <= k < j ==> temp[k] == Row(buf, off, stride, n)[k]
    {
      PosFits(|buf|, off, stride, n, j);
      temp[j] := buf[off + j * stride];
      j := j + 1;
    }
  }

  /** `s` after `vals[j]` is stored at position `j` of the row, for `j` in order. */
  function Written(s: seq<real>, off: int, stride: int, vals: seq<real>): (r: seq<real>)
    requires RowFits(|s|, off, stride, |vals|)
    ensures |r| == |s|
    decreases |vals|
  {
    if |vals| == 0 then s
    else
      var j := |vals| - 1;
      PosFits(|s|, off, stride, |vals|, j);
      Written(s, off, stride, vals[..j])[Pos(off, stride, j) := vals[j]]
  }

  /** "Copy from temporary": the contiguous row stored back with the array's stride. */
  method ScatterRow(output: array<real>, off: int, stride: int, vals: seq<real>)
    requires RowFits(output.Length, off, stride, |vals|)
    modifies output
    ensures output[..] == Written(old(output[..]), off, stride, vals)
  {
    var j := 0;
    while j < |vals|
      invariant j <= |vals| && RowFits(output.Length, off, stride, j)
      invariant output[..] == Written(old(output[..]), off, stride, vals[..j])
    {
      PosFits(output.Length, off, stride, |vals|, j);
      assert vals[..j + 1][..j] == vals[..j];
      output[off + j * stride] := vals[j];
      j := j + 1;
    }
    assert vals[..|vals|] == vals;
  }

  /**
   * With a non-zero stride the positions of a row are distinct, so every
   * position of the row ends up holding its value and every other element
   * keeps its old one.
   */
  lemma {:induction false} WrittenAt(s: seq<real>, off: int, stride: int, vals: seq<real>, p: int)
    requires RowFits(|s|, off, stride, |vals|) && (stride != 0 || |vals| <= 1) && 0 <= p < |s|
    ensures forall j :: 0 <= j < |vals| && p == Pos(off, stride, j) ==> Written(s, off, stride, vals)[p] == vals[j]
    ensures (forall j :: 0 <= j < |vals| ==> p != Pos(off, stride, j)) ==> Written(s, off, stride, vals)[p] == s[p]
    decreases |vals|
  {
    if |vals| > 0 {
      var n := |vals| - 1;
      PosFits(|s|, off, stride, |vals|, n);
      WrittenAt(s, off, stride, vals[..n], p);
      forall j | 0 <= j < n
        ensures Pos(off, stride, j) != Pos(off, stride, n)
      {
        PosDistinct(off, stride, j, n);
      }
    }
  }

  // ---------------------------------------------------------------------------
  // All the rows of an array.

  /** Where row `r` starts: the offset of its index tuple, unravelled over `shape`. */
  function RowStart(strides: seq<int>, shape: seq<nat>, axis: nat, r: nat): int
    requires |strides| == |shape|
  {
    Offset(Unravel(r, shape, axis), strides)
  }

  /** The start of every row, in row order. */
  function Starts(strides: seq<int>, shape: seq<nat>, axis: nat): (offs: seq<int>)
    requires |strides| == |shape|
    ensures |offs| == NumRows(shape, axis)
    ensures forall r :: 0 <= r < |offs| ==> offs[r] == RowStart(strides, shape, axis, r)
  {
    seq(NumRows(shape, axis), r requires 0 <= r => RowStart(strides, shape, axis, r))
  }

  /** Two shapes that differ at most along `axis` have the same rows. */
  lemma {:induction false} SameRows(s1: seq<nat>, s2: seq<nat>, axis: nat)
    requires |s1| == |s2| && forall k :: 0 <= k < |s1| && k != axis ==> s1[k] == s2[k]
    ensures NumRows(s1, axis) == NumRows(s2, axis)
    ensures forall r: nat :: Unravel(r, s1, axis) == Unravel(r, s2, axis)
    decreases |s1|
  {
    if |s1| > 0 {
      var n := |s1| - 1;
      SameRows(s1[..n], s2[..n], axis);
    }
  }

  /** The rows written one after the other: row `k` of `rows` at `offs[k]`. */
  function WrittenRows(s: seq<real>, offs: seq<int>, stride: int, rows: seq<seq<real>>): (r: seq<real>)
    requires |offs| == |rows| && forall k :: 0 <= k < |rows| ==> RowFits(|s|, offs[k], stride, |rows[k]|)
    ensures |r| == |s|
    decreases |rows|
  {
    if |rows| == 0 then s
    else
      var n := |rows| - 1;
      Written(WrittenRows(s, offs[..n], stride, rows[..n]), offs[n], stride, rows[n])
  }

  /** No two places of `m`-element rows starting at `offs` share a position. */
  predicate Disjoint(offs: seq<int>, stride: int, m: nat) {
    forall k1, j1, k2, j2 :: 0 <= k1 < |offs| && 0 <= k2 < |offs| && 0 <= j1 < m && 0 <= j2 < m && (k1 != k2 || j1 != j2)
      ==> Pos(offs[k1], stride, j1) != Pos(offs[k2], stride, j2)
  }

  /** A fitting rows layout: every row has `m` values and fits the buffer. */
  predicate RowsFit(len: nat, offs: seq<int>, stride: int, rows: seq<seq<real>>, m: nat) {
    |offs| == |rows| && forall k :: 0 <= k < |rows| ==> |rows[k]| == m && RowFits(len, offs[k], stride, m)
  }

  lemma DisjointPrefix(offs: seq<int>, stride: int, m: nat, n: nat)
    requires Disjoint(offs, stride, m) && n <= |offs|
    ensures Disjoint(offs[..n], stride, m)
    ensures |offs| >= 1 && m >= 2 ==> stride != 0
  {
    if |offs| >= 1 && m >= 2 {
      assert Pos(offs[0], stride, 0) != Pos(offs[0], stride, 1);
    }
  }

  /** With disjoint rows, place `j` of row `k` holds `rows[k][j]` once all rows are written. */
  lemma {:induction false} RowsLand(s: seq<real>, offs: seq<int>, stride: int, rows: seq<seq<real>>, m: nat, k: nat, j: nat)
    requires RowsFit(|s|, offs, stride, rows, m) && Disjoint(offs, stride, m) && k < |rows| && j < m
    ensures 0 <= Pos(offs[k], stride, j) < |s|
    ensures WrittenRows(s, offs, stride, rows)[Pos(offs[k], stride, j)] == rows[k][j]
    decreases |rows|
  {
    var n := |rows| - 1;
    var p := Pos(offs[k], stride, j);
    PosFits(|s|, offs[k], stride, m, j);
    DisjointPrefix(offs, stride, m, n);
    var prev := WrittenRows(s, offs[..n], stride, rows[..n]);
    WrittenAt(prev, offs[n], stride, rows[n], p);
    if k < n {
      RowsLand(s, offs[..n], stride, rows[..n], m, k, j);
    }
  }

  /** The prefixes the row loop ends with are the whole sequences. */
  lemma WholePrefix(offs: seq<int>, rows: seq<seq<real>>)
    ensures offs[..|offs|] == offs && rows[..|rows|] == rows
  {
  }

  /** The state of a row loop: rows `0 .. r - 1` of a fitting layout are written over `base`. */
  ghost predicate PrefixWritten(out: seq<real>, base: seq<real>, offs: seq<int>, stride: int, rows: seq<seq<real>>, m: nat, r: nat) {
    RowsFit(|base|, offs, stride, rows, m) && r <= |rows|
    && RowsFit(|base|, offs[..r], stride, rows[..r], m)
    && out == WrittenRows(base, offs[..r], stride, rows[..r])
  }

  /** Before the row loop nothing is written. */
  lemma PrefixWrittenStart(base: seq<real>, offs: seq<int>, stride: int, rows: seq<seq<real>>, m: nat)
    requires RowsFit(|base|, offs, stride, rows, m)
    ensures PrefixWritten(base, base, offs, stride, rows, m, 0)
  {
    assert offs[..0] == [] && rows[..0] == [];
  }

  /** After the last pass every row is written. */
  lemma PrefixWrittenAll(out: seq<real>, base: seq<real>, offs: seq<int>, stride: int, rows: seq<seq<real>>, m: nat)
    requires PrefixWritten(out, base, offs, stride, rows, m, |rows|)
    ensures out == WrittenRows(base, offs, stride, rows)
  {
    WholePrefix(offs, rows);
  }

  /** Writing the first `r + 1` rows is writing the first `r` and then row `r`. */
  lemma WrittenRowsStep(s: seq<real>, offs: seq<int>, stride: int, rows: seq<seq<real>>, m: nat, r: nat)
    requires RowsFit(|s|, offs, stride, rows, m) && r < |rows|
    ensures RowsFit(|s|, offs[..r], stride, rows[..r], m) && RowsFit(|s|, offs[..r + 1], stride, rows[..r + 1], m)
    ensures WrittenRows(s, offs[..r + 1], stride, rows[..r + 1])
         == Written(WrittenRows(s, offs[..r], stride, rows[..r]), offs[r], stride, rows[r])
  {
    assert offs[..r + 1][..r] == offs[..r] && rows[..r + 1][..r] == rows[..r];
  }

  /** With disjoint rows, a position outside every row keeps its old value. */
  lemma {:induction false} RowsKeep(s: seq<real>, offs: seq<int>, stride: int, rows: seq<seq<real>>, m: nat, p: int)
    requires RowsFit(|s|, offs, stride, rows, m) && Disjoint(offs, stride, m) && 0 <= p < |s|
    requires forall k, j :: 0 <= k < |rows| && 0 <= j < m ==> p != Pos(offs[k], stride, j)
    ensures WrittenRows(s, offs, stride, rows)[p] == s[p]
    decreases |rows|
  {
    if |rows| > 0 {
      var n := |rows| - 1;
      DisjointPrefix(offs, stride, m, n);
      var prev := WrittenRows(s, offs[..n], stride, rows[..n]);
      WrittenAt(prev, offs[n], stride, rows[n], p);
      RowsKeep(s, offs[..n], stride, rows[..n], m, p);
    }
  }

  /** With unit stride a row is a contiguous slice. */
  lemma {:induction false} WrittenContiguous(s: seq<real>, off: nat, vals: seq<real>)
    requires off + |vals| <= |s|
    ensures RowFits(|s|, off, 1, |vals|)
    ensures Written(s, off, 1, vals) == s[..off] + vals + s[off + |vals|..]
    decreases |vals|
  {
    if |vals| > 0 {
      var n := |vals| - 1;
      WrittenContiguous(s, off, vals[..n]);
      assert vals == vals[..n] + [vals[n]];
    }
  }

  /** A contiguous row as long as the buffer replaces its whole contents. */
  lemma WrittenFull(s: seq<real>, vals: seq<real>)
    requires |vals| == |s|
    ensures RowFits(|s|, 0, 1, |vals|)
    ensures Written(s, 0, 1, vals) == vals
  {
    WrittenContiguous(s, 0, vals);
    assert s[..0] + vals + s[|vals|..] == vals;
  }

  /** A single contiguous row as long as the buffer overwrites all of it. */
  lemma WrittenWhole(s: seq<real>, vals: seq<real>)
    requires |vals| == |s|
    ensures RowFits(|s|, 0, 1, |vals|)
    ensures WrittenRows(s, [0], 1, [vals]) == vals
  {
    var offs, rows := [0], [vals];
    WrittenFull(s, vals);
    assert offs[..0] == [] && rows[..0] == [];
    assert WrittenRows(s, offs, 1, rows) == Written(s, 0, 1, vals);
  }
}
