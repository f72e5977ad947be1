/**
 * Output buffers as the kernels leave them. A kernel's effect on its output
 * buffer is described as the list of stores it performs, in order: either
 * plain assignments (`output[at] = value`) or accumulations
 * (`output[at] += value`).
 */
module Writes {
  import opened Arith

  /** One store into an output buffer. */
  datatype Write = Write(at: nat, value: real)

  /** The buffer after the assignments `w`, in order. Stores past the end are dropped. */
  function Stored(buf: seq<real>, w: seq<Write>): (r: seq<real>)
    ensures |r| == |buf|
    decreases |w|
  {
    if |w| == 0 then buf
    else
      var b := Stored(buf, w[..|w| - 1]);
      var last := w[|w| - 1];
      if last.at < |b| then b[last.at := last.value] else b
  }

  /** The buffer after the accumulations `w`, in order. Stores past the end are dropped. */
  function Added(buf: seq<real>, w: seq<Write>): (r: seq<real>)
    ensures |r| == |buf|
    decreases |w|
  {
    if |w| == 0 then buf
    else
      var b := Added(buf, w[..|w| - 1]);
      var last := w[|w| - 1];
      if last.at < |b| then b[last.at := b[last.at] + last.value] else b
  }

  /** The value the last store to `q` leaves, or `d` when no store targets `q`. */
  function LastAt(w: seq<Write>, q: nat, d: real): real
    decreases |w|
  {
    if |w| == 0 then d
    else if w[|w| - 1].at == q then w[|w| - 1].value
    else LastAt(w[..|w| - 1], q, d)
  }

  /** The total of the values accumulated into `q`. */
  function SumAt(w: seq<Write>, q: nat): real
    decreases |w|
  {
    if |w| == 0 then 0.0
    else SumAt(w[..|w| - 1], q) + (if w[|w| - 1].at == q then w[|w| - 1].value else 0.0)
  }

  /** After a run of assignments, each slot holds the last value stored to it. */
  lemma {:induction false} StoredAt(buf: seq<real>, w: seq<Write>, q: nat)
    requires q < |buf|
    ensures Stored(buf, w)[q] == LastAt(w, q, buf[q])
    decreases |w|
  {
    if |w| > 0 {
      StoredAt(buf, w[..|w| - 1], q);
    }
  }

  /** After a run of accumulations, each slot holds its old value plus everything added to it. */
  lemma {:induction false} AddedAt(buf: seq<real>, w: seq<Write>, q: nat)
    requires q < |buf|
    ensures Added(buf, w)[q] == buf[q] + SumAt(w, q)
    decreases |w|
  {
    if |w| > 0 {
      AddedAt(buf, w[..|w| - 1], q);
    }
  }

  /** Output `p` of a kernel with output stride `stride` goes to slot `p * stride`. */
  function StridedWrites(vals: seq<real>, stride: nat): (w: seq<Write>)
    ensures |w| == |vals|
  {
    seq(|vals|, p requires 0 <= p < |vals| => Write(p * stride, vals[p]))
  }

  /** Distinct outputs land in distinct slots, so each slot shows its own output; the rest keep `d`. */
  lemma {:induction false} StridedLastAt(vals: seq<real>, stride: nat, q: nat, d: real)
    requires stride >= 1
    ensures forall p :: 0 <= p < |vals| && q == p * stride ==> LastAt(StridedWrites(vals, stride), q, d) == vals[p]
    ensures (forall p :: 0 <= p < |vals| ==> q != p * stride) ==> LastAt(StridedWrites(vals, stride), q, d) == d
    decreases |vals|
  {
    if |vals| > 0 {
      var m := |vals| - 1;
      assert StridedWrites(vals, stride)[..m] == StridedWrites(vals[..m], stride);
      StridedLastAt(vals[..m], stride, q, d);
      forall p | 0 <= p < m && q == p * stride
        ensures q != m * stride
      {
        MulStrict(p, m, stride);
      }
    }
  }

  /** One accumulation `buf[p] += s`; a slot past the end is left alone, as in `Added`. */
  function Bump(buf: seq<real>, p: nat, s: real): (r: seq<real>)
    ensures |r| == |buf|
  {
    if p < |buf| then buf[p := buf[p] + s] else buf
  }

  /** Appending one accumulation to the run is one more `Bump`. */
  lemma AddedSnoc(buf: seq<real>, w: seq<Write>, p: nat, s: real)
    ensures Added(buf, w + [Write(p, s)]) == Bump(Added(buf, w), p, s)
  {
    assert (w + [Write(p, s)])[..|w|] == w;
  }

  /** Accumulating nothing leaves the buffer as it was. */
  lemma BumpZero(buf: seq<real>, p: nat)
    ensures Bump(buf, p, 0.0) == buf
  {
    if p < |buf| {
      assert buf[p := buf[p] + 0.0] == buf;
    }
  }

  /** Accumulations into distinct slots add up in each slot separately. */
  lemma {:induction false} SumAtAppend(v: seq<Write>, w: seq<Write>, q: nat)
    ensures SumAt(v + w, q) == SumAt(v, q) + SumAt(w, q)
    decreases |w|
  {
    if |w| == 0 {
      assert v + w == v;
    } else {
      assert (v + w)[..|v + w| - 1] == v + w[..|w| - 1];
      SumAtAppend(v, w[..|w| - 1], q);
    }
  }

  /** Each strided slot receives its own output once; every other slot receives nothing. */
  lemma {:induction false} StridedSumAt(vals: seq<real>, stride: nat, q: nat)
    requires stride >= 1
    ensures forall p :: 0 <= p < |vals| && q == p * stride ==> SumAt(StridedWrites(vals, stride), q) == vals[p]
    ensures (forall p :: 0 <= p < |vals| ==> q != p * stride) ==> SumAt(StridedWrites(vals, stride), q) == 0.0
    decreases |vals|
  {
    if |vals| > 0 {
      var m := |vals| - 1;
      assert StridedWrites(vals, stride)[..m] == StridedWrites(vals[..m], stride);
      StridedSumAt(vals[..m], stride, q);
      forall p | 0 <= p < m && q == p * stride
        ensures q != m * stride
      {
        MulStrict(p, m, stride);
      }
    }
  }

  /**
   * Output `p` goes to slot `p * inner` for `lo <= p < hi` and to `p * stride`
   * otherwise: the stores of a staged loop whose middle stage indexes its
   * output with its own stride.
   */
  function SlotWrites(vals: seq<real>, stride: nat, inner: nat, lo: nat, hi: nat): (w: seq<Write>)
    ensures |w| == |vals|
  {
    seq(|vals|, p requires 0 <= p < |vals| => Write(if lo <= p < hi then p * inner else p * stride, vals[p]))
  }

  /** With one stride for every stage the stores are the plain strided ones. */
  lemma SlotWritesStrided(vals: seq<real>, stride: nat, lo: nat, hi: nat)
    ensures SlotWrites(vals, stride, stride, lo, hi) == StridedWrites(vals, stride)
  {
  }

  /** Contiguous stores: the values replace a prefix of the buffer and the rest is kept. */
  lemma StoredContiguous(buf: seq<real>, vals: seq<real>)
    requires |vals| <= |buf|
    ensures Stored(buf, StridedWrites(vals, 1)) == vals + buf[|vals|..]
  {
    var r := Stored(buf, StridedWrites(vals, 1));
    forall q | 0 <= q < |buf|
      ensures r[q] == (vals + buf[|vals|..])[q]
    {
      StoredAt(buf, StridedWrites(vals, 1), q);
      StridedLastAt(vals, 1, q, buf[q]);
    }
  }

  /** Contiguous accumulations: each value is added to its own slot and the rest is kept. */
  lemma AddedContiguous(buf: seq<real>, vals: seq<real>)
    requires |vals| <= |buf|
    ensures forall q :: 0 <= q < |vals| ==> Added(buf, StridedWrites(vals, 1))[q] == buf[q] + vals[q]
    ensures Added(buf, StridedWrites(vals, 1))[|vals|..] == buf[|vals|..]
  {
    var r := Added(buf, StridedWrites(vals, 1));
    forall q | 0 <= q < |buf|
      ensures r[q] == buf[q] + (if q < |vals| then vals[q] else 0.0)
    {
      AddedAt(buf, StridedWrites(vals, 1), q);
      StridedSumAt(vals, 1, q);
    }
  }
}
