/**
 * The n-d transforms of `pywt/src/wt.template.c`, `downcoef_axis` and
 * `idwt_axis`: every row along one axis of a strided array is copied out,
 * transformed by a kernel and copied back into the matching row of the
 * output array. Rows are numbered as in `Layout`, and both arrays are
 * addressed with the index tuple unravelled over the output's shape.
 */
module AxisTransform {
  import opened Arith
  import opened Extension
  import opened Common
  import opened Layout
  import opened Upsampling
  import opened ExtConvolution
  import opened Transform

  /** `ArrayInfo`: the extents and strides of an n-d array, strides counted in elements. */
  datatype ArrayInfo = ArrayInfo(shape: seq<nat>, strides: seq<int>)

  /** A present coefficient array of `idwt_axis`: its buffer and its layout. */
  datatype Operand = Operand(buf: seq<real>, info: ArrayInfo)

  /** One stride per dimension and every extent a `size_t`. */
  predicate WellFormed(info: ArrayInfo) {
    |info.strides| == |info.shape| && forall k :: 0 <= k < |info.shape| ==> info.shape[k] < SIZE_LIMIT
  }

  /** `info` describes an array held in a buffer of `len` elements: every row along `axis` lies inside it. */
  predicate Describes(len: nat, info: ArrayInfo, axis: nat) {
    WellFormed(info)
    && (axis < |info.shape| ==> forall r :: 0 <= r < NumRows(info.shape, axis) ==>
          RowFits(len, RowStart(info.strides, info.shape, axis, r), info.strides[axis], info.shape[axis]))
  }

  /** Two shapes of one rank that agree everywhere except along `axis`. */
  predicate SameOffAxis(s1: seq<nat>, s2: seq<nat>, axis: nat) {
    |s1| == |s2| && forall k :: 0 <= k < |s1| && k != axis ==> s1[k] == s2[k]
  }

  /** A row addressed through another shape with the same rows is one of the array's rows. */
  lemma RowOfFits(len: nat, info: ArrayInfo, shape: seq<nat>, axis: nat, r: nat)
    requires Describes(len, info, axis) && axis < |info.shape| && SameOffAxis(shape, info.shape, axis)
    requires r < NumRows(shape, axis)
    ensures r < NumRows(info.shape, axis)
    ensures RowStart(info.strides, shape, axis, r) == RowStart(info.strides, info.shape, axis, r)
    ensures RowFits(len, RowStart(info.strides, shape, axis, r), info.strides[axis], info.shape[axis])
  {
    SameRows(shape, info.shape, axis);
    assert Unravel(r, shape, axis) == Unravel(r, info.shape, axis);
  }

  /** Row `r` of an array, addressed through the index tuple unravelled over `shape`. */
  function RowOf(buf: seq<real>, info: ArrayInfo, shape: seq<nat>, axis: nat, r: nat): (row: seq<real>)
    requires Describes(|buf|, info, axis) && axis < |info.shape| && SameOffAxis(shape, info.shape, axis)
    requires r < NumRows(shape, axis)
    ensures |row| == info.shape[axis]
  {
    RowOfFits(|buf|, info, shape, axis, r);
    Row(buf, RowStart(info.strides, shape, axis, r), info.strides[axis], info.shape[axis])
  }

  // ---------------------------------------------------------------------------
  // downcoef_axis

  /** The checks of `downcoef_axis`: equal rank, an axis inside it, equal extents off the axis and the coefficient count along it. */
  predicate DecConforms(inInfo: ArrayInfo, outInfo: ArrayInfo, f: Size, axis: nat, mode: Mode)
    requires WellFormed(inInfo)
  {
    |inInfo.shape| == |outInfo.shape| && axis < |outInfo.shape|
    && SameOffAxis(outInfo.shape, inInfo.shape, axis)
    && DwtBufferLength(inInfo.shape[axis], f, mode) != 0
    && DwtBufferLength(inInfo.shape[axis], f, mode) == outInfo.shape[axis]
  }

  /** Everything the rows of `downcoef_axis` need: conforming shapes over buffers they describe. */
  predicate DecReady(input: seq<real>, inInfo: ArrayInfo, len: nat, outInfo: ArrayInfo, filter: seq<real>, axis: nat, mode: Mode) {
    Describes(|input|, inInfo, axis) && Describes(len, outInfo, axis) && 1 <= |filter| < SIZE_LIMIT
    && DecConforms(inInfo, outInfo, |filter|, axis, mode)
    && inInfo.shape[axis] + |filter| - 1 < SIZE_LIMIT
  }

  /** The coefficients of every row, in row order. */
  function DecRows(input: seq<real>, inInfo: ArrayInfo, len: nat, outInfo: ArrayInfo, filter: seq<real>, axis: nat, mode: Mode)
    : (rows: seq<seq<real>>)
    requires DecReady(input, inInfo, len, outInfo, filter, axis, mode)
    ensures RowsFit(len, Starts(outInfo.strides, outInfo.shape, axis), outInfo.strides[axis], rows, outInfo.shape[axis])
  {
    seq(NumRows(outInfo.shape, axis), r requires 0 <= r < NumRows(outInfo.shape, axis) =>
      DecomposedLength(RowOf(input, inInfo, outInfo.shape, axis, r), filter, mode);
      Decomposed(RowOf(input, inInfo, outInfo.shape, axis, r), filter, mode))
  }

  /** `base` with every output row overwritten by the coefficients of the matching input row. */
  function AxisDecomposition(base: seq<real>, input: seq<real>, inInfo: ArrayInfo, outInfo: ArrayInfo, filter: seq<real>, axis: nat, mode: Mode)
    : (r: seq<real>)
    requires DecReady(input, inInfo, |base|, outInfo, filter, axis, mode)
    ensures |r| == |base|
  {
    WrittenRows(base, Starts(outInfo.strides, outInfo.shape, axis), outInfo.strides[axis],
                DecRows(input, inInfo, |base|, outInfo, filter, axis, mode))
  }

  /**
   * `downcoef_axis` with the length check of `dwt_buffer_length`: 1 for
   * arrays that do not conform, 2 when a temporary row cannot be allocated
   * (only possible for a non-unit stride along the axis), and otherwise 0
   * with every output row holding the coefficients of its input row. (The
   * source checks the axis extent against `dwt_buffer_length_o`; see
   * `Common.DwtBufferLengthOShort`.)
   */
  method DowncoefAxis(input: seq<real>, inInfo: ArrayInfo, output: array<real>, outInfo: ArrayInfo,
                      w: Wavelet, axis: nat, coef: Coefficient, mode: Mode) returns (status: int)
    requires w.Valid()
    requires Describes(|input|, inInfo, axis) && Describes(output.Length, outInfo, axis)
    requires axis < |inInfo.shape| ==> inInfo.shape[axis] + |w.decLo| - 1 < SIZE_LIMIT
    modifies output
    ensures status == 0 || status == 1 || status == 2
    ensures status == 1 <==> !DecConforms(inInfo, outInfo, |w.decLo|, axis, mode)
    ensures status == 2 ==> inInfo.strides[axis] != 1 || outInfo.strides[axis] != 1
    ensures status != 0 ==> output[..] == old(output[..])
    ensures status == 0 ==> (DecReady(input, inInfo, output.Length, outInfo, CoefFilter(w, coef), axis, mode)
      && output[..] == AxisDecomposition(old(output[..]), input, inInfo, outInfo, CoefFilter(w, coef), axis, mode))
  {
    var conforms := DecCheck(inInfo, outInfo, |w.decLo|, axis, mode);
    if !conforms {
      return 1;
    }
    var filter := match coef case Approx => w.decLo case Detail => w.decHi;
    if inInfo.strides[axis] != 1 || outInfo.strides[axis] != 1 {
      var failed: bool :| true;
      if failed {
        return 2;
      }
    }
    DecAllRows(input, inInfo, output, outInfo, filter, axis, mode);
    status := 0;
  }

  /** The rank, axis and extent checks at the head of `downcoef_axis`. */
  method DecCheck(inInfo: ArrayInfo, outInfo: ArrayInfo, f: Size, axis: nat, mode: Mode) returns (conforms: bool)
    requires WellFormed(inInfo)
    ensures conforms == DecConforms(inInfo, outInfo, f, axis, mode)
  {
    var ndim := |outInfo.shape|;
    if |inInfo.shape| != ndim || axis >= ndim {
      return false;
    }
    var i := 0;
    while i < ndim
      invariant i <= ndim && forall k :: 0 <= k < i && k != axis ==> inInfo.shape[k] == outInfo.shape[k]
      invariant axis < i ==> (DwtBufferLength(inInfo.shape[axis], f, mode) != 0
        && DwtBufferLength(inInfo.shape[axis], f, mode) == outInfo.shape[axis])
    {
      if i == axis {
        var outLen := DwtBufferLength(inInfo.shape[i], f, mode);
        if outLen == 0 || outLen != outInfo.shape[i] {
          return false;
        }
      } else if inInfo.shape[i] != outInfo.shape[i] {
        return false;
      }
      i := i + 1;
    }
    return true;
  }

  /** The row loop of `downcoef_axis`. */
  method DecAllRows(input: seq<real>, inInfo: ArrayInfo, output: array<real>, outInfo: ArrayInfo, filter: seq<real>,
                    axis: nat, mode: Mode)
    requires DecReady(input, inInfo, output.Length, outInfo, filter, axis, mode)
    modifies output
    ensures output[..] == AxisDecomposition(old(output[..]), input, inInfo, outInfo, filter, axis, mode)
  {
    var numLoops := NumLoops(outInfo.shape, axis);
    ghost var offs := Starts(outInfo.strides, outInfo.shape, axis);
    ghost var rows := DecRows(input, inInfo, output.Length, outInfo, filter, axis, mode);
    ghost var stride, m := outInfo.strides[axis], outInfo.shape[axis];
    assert RowsFit(output.Length, offs, stride, rows, m) && |rows| == numLoops;
    ghost var base := output[..];
    PrefixWrittenStart(base, offs, stride, rows, m);
    var r := 0;
    while r < numLoops
      invariant r <= numLoops
      invariant PrefixWritten(output[..], base, offs, stride, rows, m, r)
    {
      DecRow(input, inInfo, output, outInfo, filter, axis, mode, r, offs, rows, base);
      r := r + 1;
    }
    PrefixWrittenAll(output[..], base, offs, stride, rows, m);
  }

  /** One pass of the row loop of `downcoef_axis`: offsets, copy in, kernel, copy out. */
  method DecRow(input: seq<real>, inInfo: ArrayInfo, output: array<real>, outInfo: ArrayInfo, filter: seq<real>,
                axis: nat, mode: Mode, r: nat, ghost offs: seq<int>, ghost rows: seq<seq<real>>,
                ghost base: seq<real>)
    requires DecReady(input, inInfo, output.Length, outInfo, filter, axis, mode)
    requires offs == Starts(outInfo.strides, outInfo.shape, axis)
    requires rows == DecRows(input, inInfo, output.Length, outInfo, filter, axis, mode)
    requires r < |rows| && PrefixWritten(output[..], base, offs, outInfo.strides[axis], rows, outInfo.shape[axis], r)
    modifies output
    ensures PrefixWritten(output[..], base, offs, outInfo.strides[axis], rows, outInfo.shape[axis], r + 1)
  {
    WrittenRowsStep(base, offs, outInfo.strides[axis], rows, outInfo.shape[axis], r);
    var inOff := RowOffset(r, outInfo.shape, axis, inInfo.strides);
    var outOff := RowOffset(r, outInfo.shape, axis, outInfo.strides);
    RowOfFits(|input|, inInfo, outInfo.shape, axis, r);
    var row := GatherRow(input, inOff, inInfo.strides[axis], inInfo.shape[axis]);
    assert row[..] == RowOf(input, inInfo, outInfo.shape, axis, r);
    DecomposedLength(row[..], filter, mode);
    var temp := new real[outInfo.shape[axis]];
    var ignored := DownsamplingConvolution(row[..], filter, temp, 2, mode);
    assert temp[..] == rows[r];
    ScatterRow(output, outOff, outInfo.strides[axis], temp[..]);
  }

  /**
   * When no two output places share a position, place `j` of output row `r`
   * ends up holding coefficient `j` of the decomposition of input row `r`.
   */
  lemma DowncoefAxisRows(base: seq<real>, input: seq<real>, inInfo: ArrayInfo, outInfo: ArrayInfo, filter: seq<real>,
                         axis: nat, mode: Mode, r: nat, j: nat)
    requires DecReady(input, inInfo, |base|, outInfo, filter, axis, mode)
    requires Disjoint(Starts(outInfo.strides, outInfo.shape, axis), outInfo.strides[axis], outInfo.shape[axis])
    requires r < NumRows(outInfo.shape, axis) && j < outInfo.shape[axis]
    ensures 0 <= Pos(RowStart(outInfo.strides, outInfo.shape, axis, r), outInfo.strides[axis], j) < |base|
    ensures |Decomposed(RowOf(input, inInfo, outInfo.shape, axis, r), filter, mode)| == outInfo.shape[axis]
    ensures AxisDecomposition(base, input, inInfo, outInfo, filter, axis, mode)[Pos(RowStart(outInfo.strides, outInfo.shape, axis, r), outInfo.strides[axis], j)]
         == Decomposed(RowOf(input, inInfo, outInfo.shape, axis, r), filter, mode)[j]
  {
    var offs := Starts(outInfo.strides, outInfo.shape, axis);
    var rows := DecRows(input, inInfo, |base|, outInfo, filter, axis, mode);
    RowsLand(base, offs, outInfo.strides[axis], rows, outInfo.shape[axis], r, j);
  }

  /** A contiguous one-dimensional array has a single row: `downcoef_axis` then is the single-row decomposition. */
  lemma DowncoefAxisOneRow(base: seq<real>, input: seq<real>, filter: seq<real>, mode: Mode)
    requires 1 <= |input| < SIZE_LIMIT && 1 <= |filter| < SIZE_LIMIT && |input| + |filter| - 1 < SIZE_LIMIT
    requires |base| == DwtBufferLength(|input|, |filter|, mode) != 0
    ensures DecReady(input, ArrayInfo([|input|], [1]), |base|, ArrayInfo([|base|], [1]), filter, 0, mode)
    ensures AxisDecomposition(base, input, ArrayInfo([|input|], [1]), ArrayInfo([|base|], [1]), filter, 0, mode)
         == Decomposed(input, filter, mode)
  {
    var inInfo, outInfo := ArrayInfo([|input|], [1]), ArrayInfo([|base|], [1]);
    OneRowReady(|base|, input, filter, mode);
    var d := Decomposed(input, filter, mode);
    DecomposedLength(input, filter, mode);
    WrittenWhole(base, d);
    assert DecRows(input, inInfo, |base|, outInfo, filter, 0, mode) == [d];
  }

  /** The one-dimensional contiguous layouts meet the requirements of `downcoef_axis`, with one row starting at 0. */
  lemma OneRowReady(len: nat, input: seq<real>, filter: seq<real>, mode: Mode)
    requires 1 <= |input| < SIZE_LIMIT && 1 <= |filter| < SIZE_LIMIT && |input| + |filter| - 1 < SIZE_LIMIT
    requires len == DwtBufferLength(|input|, |filter|, mode) != 0
    ensures DecReady(input, ArrayInfo([|input|], [1]), len, ArrayInfo([len], [1]), filter, 0, mode)
    ensures NumRows([len], 0) == 1 && Starts([1], [len], 0) == [0]
    ensures RowOf(input, ArrayInfo([|input|], [1]), [len], 0, 0) == input
  {
    var inInfo, outInfo := ArrayInfo([|input|], [1]), ArrayInfo([len], [1]);
    OneRow(|input|);
    OneRow(len);
    assert Describes(|input|, inInfo, 0) && Describes(len, outInfo, 0);
    assert DecReady(input, inInfo, len, outInfo, filter, 0, mode);
    assert RowOf(input, inInfo, outInfo.shape, 0, 0) == input by {
      ContiguousRow(input);
    }
    assert Starts(outInfo.strides, outInfo.shape, 0) == [0];
  }

  /** The whole buffer read with unit stride from 0 is the buffer. */
  lemma ContiguousRow(a: seq<real>)
    ensures RowFits(|a|, 0, 1, |a|) && Row(a, 0, 1, |a|) == a
  {
  }

  /** A one-dimensional shape has one row, starting at element 0. */
  lemma OneRow(n: nat)
    ensures NumRows([n], 0) == 1 && Unravel(0, [n], 0) == [0] && RowStart([1], [n], 0, 0) == 0
  {
    assert [n][..0] == [];
    assert OffsetFrom([0], [1], 1) == 0;
  }

  // ---------------------------------------------------------------------------
  // idwt_axis

  /** The extent along `axis` of an optional array; a missing one counts as empty. */
  function AxisLen(x: Option<Operand>, axis: nat): nat {
    if x.Some? && axis < |x.value.info.shape| then x.value.info.shape[axis] else 0
  }

  /** A missing array, or a present one described by its buffer. */
  predicate OperandOk(x: Option<Operand>, axis: nat) {
    x.Some? ==> Describes(|x.value.buf|, x.value.info, axis)
  }

  /**
   * The checks of `idwt_axis` once an array is present: each present array
   * has the output's rank and its extents off the axis, the axis is inside
   * the rank, and the output extent along it is the reconstruction length.
   */
  predicate IdwtConforms(a: Option<Operand>, d: Option<Operand>, outInfo: ArrayInfo, f: Size, axis: nat, mode: Mode)
    requires OperandOk(a, axis) && OperandOk(d, axis)
  {
    (a.Some? ==> SameOffAxis(outInfo.shape, a.value.info.shape, axis))
    && (d.Some? ==> SameOffAxis(outInfo.shape, d.value.info.shape, axis))
    && axis < |outInfo.shape|
    && IdwtOutputLength(AxisLen(a, axis), AxisLen(d, axis), f, mode) != 0
    && IdwtOutputLength(AxisLen(a, axis), AxisLen(d, axis), f, mode) == outInfo.shape[axis]
  }

  /** Everything the rows of `idwt_axis` need. */
  predicate IdwtReady(a: Option<Operand>, d: Option<Operand>, len: nat, outInfo: ArrayInfo, w: Wavelet, axis: nat, mode: Mode) {
    w.Valid() && OperandOk(a, axis) && OperandOk(d, axis) && Describes(len, outInfo, axis)
    && IdwtConforms(a, d, outInfo, |w.recLo|, axis, mode)
    && 2 * Longer(AxisLen(a, axis), AxisLen(d, axis)) < SIZE_LIMIT
    && (mode == Periodization ==>
         (a.Some? ==> PeriodizedRowOk(AxisLen(a, axis), |w.recLo|)) && (d.Some? ==> PeriodizedRowOk(AxisLen(d, axis), |w.recHi|)))
  }

  /** Row `r` of an optional array. */
  function OptRowOf(x: Option<Operand>, shape: seq<nat>, axis: nat, r: nat): (row: Option<seq<real>>)
    requires OperandOk(x, axis) && (x.Some? ==> axis < |x.value.info.shape| && SameOffAxis(shape, x.value.info.shape, axis))
    requires r < NumRows(shape, axis)
    ensures row.Some? == x.Some? && (row.Some? ==> |row.value| == AxisLen(x, axis))
  {
    if x.None? then None else Some(RowOf(x.value.buf, x.value.info, shape, axis, r))
  }

  /** The reconstruction of every row, in row order. */
  function IdwtRows(a: Option<Operand>, d: Option<Operand>, len: nat, outInfo: ArrayInfo, w: Wavelet, axis: nat, mode: Mode)
    : (rows: seq<seq<real>>)
    requires IdwtReady(a, d, len, outInfo, w, axis, mode)
    ensures RowsFit(len, Starts(outInfo.strides, outInfo.shape, axis), outInfo.strides[axis], rows, outInfo.shape[axis])
  {
    seq(NumRows(outInfo.shape, axis), r requires 0 <= r < NumRows(outInfo.shape, axis) =>
      Reconstructed(OptRowOf(a, outInfo.shape, axis, r), OptRowOf(d, outInfo.shape, axis, r), w, mode, outInfo.shape[axis]))
  }

  /** `base` with every output row overwritten by the reconstruction from the matching coefficient rows. */
  function AxisReconstruction(base: seq<real>, a: Option<Operand>, d: Option<Operand>, outInfo: ArrayInfo, w: Wavelet, axis: nat, mode: Mode)
    : (r: seq<real>)
    requires IdwtReady(a, d, |base|, outInfo, w, axis, mode)
    ensures |r| == |base|
  {
    WrittenRows(base, Starts(outInfo.strides, outInfo.shape, axis), outInfo.strides[axis],
                IdwtRows(a, d, |base|, outInfo, w, axis, mode))
  }

  /**
   * `idwt_axis` with the length of `IdwtOutputLength`: 3 when neither array
   * is present, 1 for arrays that do not conform, 2 when a temporary row
   * cannot be allocated, and otherwise 0 with every output row holding the
   * reconstruction from its coefficient rows. A kernel that refuses a row
   * adds nothing to it; its status is not reported. (The source checks the
   * axis extent against `idwt_buffer_length_o`; see
   * `Common.IdwtBufferLengthOShort`.)
   */
  method IdwtAxis(a: Option<Operand>, d: Option<Operand>, output: array<real>, outInfo: ArrayInfo,
                  w: Wavelet, axis: nat, mode: Mode) returns (status: int)
    requires w.Valid() && OperandOk(a, axis) && OperandOk(d, axis) && Describes(output.Length, outInfo, axis)
    requires 2 * Longer(AxisLen(a, axis), AxisLen(d, axis)) < SIZE_LIMIT
    requires mode == Periodization && IdwtConforms(a, d, outInfo, |w.recLo|, axis, mode) ==>
      (a.Some? ==> PeriodizedRowOk(AxisLen(a, axis), |w.recLo|)) && (d.Some? ==> PeriodizedRowOk(AxisLen(d, axis), |w.recHi|))
    modifies output
    ensures 0 <= status <= 3
    ensures status == 3 <==> a.None? && d.None?
    ensures status == 1 <==> (a.Some? || d.Some?) && !IdwtConforms(a, d, outInfo, |w.recLo|, axis, mode)
    ensures status == 2 ==> (IdwtConforms(a, d, outInfo, |w.recLo|, axis, mode)
      && ((a.Some? && a.value.info.strides[axis] != 1) || (d.Some? && d.value.info.strides[axis] != 1) || outInfo.strides[axis] != 1))
    ensures status != 0 ==> output[..] == old(output[..])
    ensures status == 0 ==> (IdwtReady(a, d, output.Length, outInfo, w, axis, mode)
      && output[..] == AxisReconstruction(old(output[..]), a, d, outInfo, w, axis, mode))
  {
    if a.None? && d.None? {
      return 3;
    }
    var conforms := IdwtCheck(a, d, outInfo, |w.recLo|, axis, mode);
    if !conforms {
      return 1;
    }
    if (a.Some? && a.value.info.strides[axis] != 1) || (d.Some? && d.value.info.strides[axis] != 1)
       || outInfo.strides[axis] != 1 {
      var failed: bool :| true;
      if failed {
        return 2;
      }
    }
    IdwtAllRows(a, d, output, outInfo, w, axis, mode);
    status := 0;
  }

  /** The rank, axis and extent checks at the head of `idwt_axis`. */
  method IdwtCheck(a: Option<Operand>, d: Option<Operand>, outInfo: ArrayInfo, f: Size, axis: nat, mode: Mode)
    returns (conforms: bool)
    requires OperandOk(a, axis) && OperandOk(d, axis)
    ensures conforms == IdwtConforms(a, d, outInfo, f, axis, mode)
  {
    var ndim := |outInfo.shape|;
    if (a.Some? && |a.value.info.shape| != ndim) || (d.Some? && |d.value.info.shape| != ndim) {
      return false;
    }
    if axis >= ndim {
      return false;
    }
    var i := 0;
    while i < ndim
      invariant i <= ndim
      invariant a.Some? ==> forall k :: 0 <= k < i && k != axis ==> a.value.info.shape[k] == outInfo.shape[k]
      invariant d.Some? ==> forall k :: 0 <= k < i && k != axis ==> d.value.info.shape[k] == outInfo.shape[k]
      invariant axis < i ==> (IdwtOutputLength(AxisLen(a, axis), AxisLen(d, axis), f, mode) != 0
        && IdwtOutputLength(AxisLen(a, axis), AxisLen(d, axis), f, mode) == outInfo.shape[axis])
    {
      if i == axis {
        var aLen := if a.Some? then a.value.info.shape[i] else 0;
        var dLen := if d.Some? then d.value.info.shape[i] else 0;
        var outLen := IdwtOutputLength(aLen, dLen, f, mode);
        if outLen == 0 || outLen != outInfo.shape[i] {
          return false;
        }
      } else if (a.Some? && a.value.info.shape[i] != outInfo.shape[i]) || (d.Some? && d.value.info.shape[i] != outInfo.shape[i]) {
        return false;
      }
      i := i + 1;
    }
    return true;
  }

  /** The row loop of `idwt_axis`. */
  method IdwtAllRows(a: Option<Operand>, d: Option<Operand>, output: array<real>, outInfo: ArrayInfo, w: Wavelet, axis: nat, mode: Mode)
    requires IdwtReady(a, d, output.Length, outInfo, w, axis, mode)
    modifies output
    ensures output[..] == AxisReconstruction(old(output[..]), a, d, outInfo, w, axis, mode)
  {
    var numLoops := NumLoops(outInfo.shape, axis);
    ghost var offs := Starts(outInfo.strides, outInfo.shape, axis);
    ghost var rows := IdwtRows(a, d, output.Length, outInfo, w, axis, mode);
    ghost var stride, m := outInfo.strides[axis], outInfo.shape[axis];
    assert RowsFit(output.Length, offs, stride, rows, m) && |rows| == numLoops;
    ghost var base := output[..];
    PrefixWrittenStart(base, offs, stride, rows, m);
    var r := 0;
    while r < numLoops
      invariant r <= numLoops
      invariant PrefixWritten(output[..], base, offs, stride, rows, m, r)
    {
      IdwtRow(a, d, output, outInfo, w, axis, mode, r, offs, rows, base);
      r := r + 1;
    }
    PrefixWrittenAll(output[..], base, offs, stride, rows, m);
  }

  /** Copies row `r` of an optional array into a fresh contiguous buffer. */
  method GatherOptRow(x: Option<Operand>, shape: seq<nat>, axis: nat, r: nat) returns (row: Option<seq<real>>)
    requires OperandOk(x, axis) && (x.Some? ==> axis < |x.value.info.shape| && SameOffAxis(shape, x.value.info.shape, axis))
    requires r < NumRows(shape, axis)
    ensures row == OptRowOf(x, shape, axis, r)
  {
    if x.None? {
      return None;
    }
    var info := x.value.info;
    var off := RowOffset(r, shape, axis, info.strides);
    RowOfFits(|x.value.buf|, info, shape, axis, r);
    var temp := GatherRow(x.value.buf, off, info.strides[axis], info.shape[axis]);
    row := Some(temp[..]);
  }

  /** One pass of the row loop of `idwt_axis`: offsets, copies in, zeroed row, both kernels, copy out. */
  method IdwtRow(a: Option<Operand>, d: Option<Operand>, output: array<real>, outInfo: ArrayInfo, w: Wavelet,
                 axis: nat, mode: Mode, r: nat, ghost offs: seq<int>, ghost rows: seq<seq<real>>,
                 ghost base: seq<real>)
    requires IdwtReady(a, d, output.Length, outInfo, w, axis, mode)
    requires offs == Starts(outInfo.strides, outInfo.shape, axis)
    requires rows == IdwtRows(a, d, output.Length, outInfo, w, axis, mode)
    requires r < |rows| && PrefixWritten(output[..], base, offs, outInfo.strides[axis], rows, outInfo.shape[axis], r)
    modifies output
    ensures PrefixWritten(output[..], base, offs, outInfo.strides[axis], rows, outInfo.shape[axis], r + 1)
  {
    WrittenRowsStep(base, offs, outInfo.strides[axis], rows, outInfo.shape[axis], r);
    var la, ld := AxisLen(a, axis), AxisLen(d, axis);
    var aRow := GatherOptRow(a, outInfo.shape, axis, r);
    var dRow := GatherOptRow(d, outInfo.shape, axis, r);
    var outOff := RowOffset(r, outInfo.shape, axis, outInfo.strides);
    var temp := ReconstructInto(aRow, dRow, w, mode, la, ld, outInfo.shape[axis]);
    assert temp[..] == rows[r];
    ScatterRow(output, outOff, outInfo.strides[axis], temp[..]);
  }

  /** The zeroed temporary row with the present rows' reconstructions added; the kernels' statuses are dropped. */
  method ReconstructInto(aRow: Option<seq<real>>, dRow: Option<seq<real>>, w: Wavelet, mode: Mode, la: nat, ld: nat, n: nat)
    returns (temp: array<real>)
    requires w.Valid() && Paired(la, ld) && 2 * Longer(la, ld) < SIZE_LIMIT
    requires n == IdwtOutputLength(la, ld, |w.recLo|, mode)
    requires aRow.Some? ==> |aRow.value| == la
    requires dRow.Some? ==> |dRow.value| == ld
    requires mode == Periodization ==> (aRow.Some? ==> PeriodizedRowOk(la, |w.recLo|)) && (dRow.Some? ==> PeriodizedRowOk(ld, |w.recHi|))
    ensures fresh(temp) && temp[..] == Reconstructed(aRow, dRow, w, mode, n)
  {
    temp := new real[n];
    ZeroFill(temp);
    if aRow.Some? {
      var ignored := ReconstructRow(aRow.value, w.recLo, temp, mode, la, ld);
    } else {
      assert temp[..] == AddInto(Zeros(n), Part(aRow, w.recLo, mode));
    }
    if dRow.Some? {
      var ignored := ReconstructRow(dRow.value, w.recHi, temp, mode, la, ld);
    } else {
      assert temp[..] == AddInto(AddInto(Zeros(n), Part(aRow, w.recLo, mode)), Part(dRow, w.recHi, mode));
    }
  }

  /**
   * When no two output places share a position, place `j` of output row `r`
   * ends up holding value `j` of the reconstruction from coefficient row `r`
   * of each present array.
   */
  lemma IdwtAxisRows(base: seq<real>, a: Option<Operand>, d: Option<Operand>, outInfo: ArrayInfo, w: Wavelet,
                     axis: nat, mode: Mode, r: nat, j: nat)
    requires IdwtReady(a, d, |base|, outInfo, w, axis, mode)
    requires Disjoint(Starts(outInfo.strides, outInfo.shape, axis), outInfo.strides[axis], outInfo.shape[axis])
    requires r < NumRows(outInfo.shape, axis) && j < outInfo.shape[axis]
    ensures 0 <= Pos(RowStart(outInfo.strides, outInfo.shape, axis, r), outInfo.strides[axis], j) < |base|
    ensures AxisReconstruction(base, a, d, outInfo, w, axis, mode)[Pos(RowStart(outInfo.strides, outInfo.shape, axis, r), outInfo.strides[axis], j)]
         == Reconstructed(OptRowOf(a, outInfo.shape, axis, r), OptRowOf(d, outInfo.shape, axis, r), w, mode, outInfo.shape[axis])[j]
  {
    var offs := Starts(outInfo.strides, outInfo.shape, axis);
    var rows := IdwtRows(a, d, |base|, outInfo, w, axis, mode);
    RowsLand(base, offs, outInfo.strides[axis], rows, outInfo.shape[axis], r, j);
  }
}
