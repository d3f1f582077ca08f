/**
  Action chunks: tensors of chunks, environments and actions per chunk, flattened to
  time-major rows and back, the offsets of the sliced flags and values, and the loss mask.
*/
module Chunks {
  import opened Arithmetic
  import opened Sequences

  /** `[chunks, batch, span]`. */
  type Tensor<T> = seq<seq<seq<T>>>

  ghost predicate Dims<T>(x: Tensor<T>, chunks: nat, batch: nat, span: nat) {
    && |x| == chunks
    && (forall c :: 0 <= c < chunks ==> |x[c]| == batch)
    && (forall c, b :: 0 <= c < chunks && 0 <= b < batch ==> |x[c][b]| == span)
  }

  ghost predicate Grid<T>(m: seq<seq<T>>, rows: nat, cols: nat) {
    |m| == rows && forall i :: 0 <= i < rows ==> |m[i]| == cols
  }

  function Transpose<T>(m: seq<seq<T>>, rows: nat, cols: nat): (r: seq<seq<T>>)
    requires |m| == rows && forall i :: 0 <= i < rows ==> |m[i]| == cols
    ensures |r| == cols
    ensures forall j :: 0 <= j < cols ==> |r[j]| == rows
    ensures forall i, j :: 0 <= i < rows && 0 <= j < cols ==> r[j][i] == m[i][j]
  {
    seq(cols, j requires 0 <= j < cols => seq(rows, i requires 0 <= i < rows => m[i][j]))
  }

  function Transposed<T>(x: Tensor<T>, chunks: nat, batch: nat, span: nat): (r: Tensor<T>)
    requires |x| == chunks && forall c :: 0 <= c < chunks ==> |x[c]| == batch
    requires forall c, b :: 0 <= c < chunks && 0 <= b < batch ==> |x[c][b]| == span
    ensures |r| == chunks
    ensures forall c :: 0 <= c < chunks ==> |r[c]| == span && r[c] == Transpose(x[c], batch, span)
  {
    seq(chunks, c requires 0 <= c < chunks => Transpose(x[c], batch, span))
  }

  /** `transpose(1, 2).reshape(chunks * span, batch)`: chunk after chunk, action after action. */
  function FlattenTime<T>(x: Tensor<T>, chunks: nat, batch: nat, span: nat): seq<seq<T>>
    requires |x| == chunks && forall c :: 0 <= c < chunks ==> |x[c]| == batch
    requires forall c, b :: 0 <= c < chunks && 0 <= b < batch ==> |x[c][b]| == span
  {
    Flatten(Transposed(x, chunks, batch, span))
  }

  lemma ChunkWithin(chunks: nat, span: nat, c: nat)
    requires c < chunks
    ensures 0 <= c * span && c * span + span <= chunks * span
  {
    MulStep(c, span);
    MulMonotone(chunks, c + 1, span);
    MulMonotone(c, 0, span);
  }

  /** `reshape(chunks, span, -1)`. */
  function Chop<T>(rows: seq<seq<T>>, chunks: nat, span: nat, c: nat): (r: seq<seq<T>>)
    requires |rows| == chunks * span && c < chunks
    ensures |r| == span && 0 <= c * span && c * span + span <= |rows|
    ensures forall j :: 0 <= j < span ==> r[j] == rows[c * span + j]
  {
    ChunkWithin(chunks, span, c);
    rows[c * span..c * span + span]
  }

  /** `reshape(chunks, span, -1).transpose(1, 2)`. */
  function Unflatten<T>(rows: seq<seq<T>>, chunks: nat, batch: nat, span: nat): (r: Tensor<T>)
    requires |rows| == chunks * span && forall t :: 0 <= t < |rows| ==> |rows[t]| == batch
    ensures |r| == chunks
    ensures forall c :: 0 <= c < chunks ==> r[c] == Transpose(Chop(rows, chunks, span, c), span, batch)
  {
    seq(chunks, c requires 0 <= c < chunks => Transpose(Chop(rows, chunks, span, c), span, batch))
  }

  // ---------- where everything goes ----------

  lemma {:induction false} FlattenBlock<T>(ss: seq<seq<T>>, size: nat, c: nat, j: nat)
    requires c < |ss| && j < size && forall i :: 0 <= i < |ss| ==> |ss[i]| == size
    ensures 0 <= c * size + j < |Flatten(ss)| && Flatten(ss)[c * size + j] == ss[c][j]
  {
    if c == 0 {
    } else {
      FlattenBlock(ss[1..], size, c - 1, j);
      MulStep(c - 1, size);
    }
  }

  /** Time c * span + j of environment b is entry [c, b, j]. */
  lemma FlattenTimeAt<T>(x: Tensor<T>, chunks: nat, batch: nat, span: nat, c: nat, b: nat, j: nat)
    requires Dims(x, chunks, batch, span) && c < chunks && b < batch && j < span
    ensures |FlattenTime(x, chunks, batch, span)| == chunks * span && 0 <= c * span + j < chunks * span
    ensures |FlattenTime(x, chunks, batch, span)[c * span + j]| == batch
    ensures FlattenTime(x, chunks, batch, span)[c * span + j][b] == x[c][b][j]
  {
    FlattenLength(Transposed(x, chunks, batch, span), span);
    FlattenBlock(Transposed(x, chunks, batch, span), span, c, j);
  }

  lemma TimeSplit(chunks: nat, span: nat, t: nat)
    requires 1 <= span && t < chunks * span
    ensures t / span < chunks && t % span < span && t == (t / span) * span + t % span
  {
    assert t == span * (t / span) + t % span;
    assert span * (t / span) == (t / span) * span;
    if t / span >= chunks {
      MulMonotone(t / span, chunks, span);
    }
  }

  /** The row of time t: environment by environment, chunk t / span, position t % span. */
  lemma FlattenTimeRow<T>(x: Tensor<T>, chunks: nat, batch: nat, span: nat, t: nat)
    requires Dims(x, chunks, batch, span) && 1 <= span && t < chunks * span
    ensures |FlattenTime(x, chunks, batch, span)| == chunks * span && |FlattenTime(x, chunks, batch, span)[t]| == batch
    ensures t / span < chunks
    ensures forall b :: 0 <= b < batch ==> FlattenTime(x, chunks, batch, span)[t][b] == x[t / span][b][t % span]
  {
    TimeSplit(chunks, span, t);
    FlattenLength(Transposed(x, chunks, batch, span), span);
    FlattenBlock(Transposed(x, chunks, batch, span), span, t / span, t % span);
    forall b | 0 <= b < batch ensures FlattenTime(x, chunks, batch, span)[t][b] == x[t / span][b][t % span] {
      FlattenTimeAt(x, chunks, batch, span, t / span, b, t % span);
    }
  }

  lemma FlattenTimeGrid<T>(x: Tensor<T>, chunks: nat, batch: nat, span: nat)
    requires Dims(x, chunks, batch, span) && 1 <= span
    ensures Grid(FlattenTime(x, chunks, batch, span), chunks * span, batch)
  {
    FlattenLength(Transposed(x, chunks, batch, span), span);
    forall t | 0 <= t < chunks * span ensures |FlattenTime(x, chunks, batch, span)[t]| == batch {
      FlattenTimeRow(x, chunks, batch, span, t);
    }
  }

  /** Postprocessing undoes preprocessing. */
  lemma UnflattenInverts<T>(x: Tensor<T>, chunks: nat, batch: nat, span: nat)
    requires Dims(x, chunks, batch, span) && 1 <= span
    ensures Grid(FlattenTime(x, chunks, batch, span), chunks * span, batch)
    ensures Unflatten(FlattenTime(x, chunks, batch, span), chunks, batch, span) == x
  {
    hide FlattenTime;
    FlattenTimeGrid(x, chunks, batch, span);
    var rows := FlattenTime(x, chunks, batch, span);
    forall c | 0 <= c < chunks ensures Unflatten(rows, chunks, batch, span)[c] == x[c] {
      forall b | 0 <= b < batch ensures Transpose(Chop(rows, chunks, span, c), span, batch)[b] == x[c][b] {
        forall j | 0 <= j < span ensures Chop(rows, chunks, span, c)[j][b] == x[c][b][j] {
          FlattenTimeAt(x, chunks, batch, span, c, b, j);
        }
      }
    }
  }

  lemma UnflattenDims<T>(rows: seq<seq<T>>, chunks: nat, batch: nat, span: nat)
    requires Grid(rows, chunks * span, batch)
    ensures Dims(Unflatten(rows, chunks, batch, span), chunks, batch, span)
  {
  }

  /** ... and preprocessing undoes postprocessing. */
  lemma FlattenInverts<T>(rows: seq<seq<T>>, chunks: nat, batch: nat, span: nat)
    requires Grid(rows, chunks * span, batch) && 1 <= span
    ensures Dims(Unflatten(rows, chunks, batch, span), chunks, batch, span)
    ensures FlattenTime(Unflatten(rows, chunks, batch, span), chunks, batch, span) == rows
  {
    hide FlattenTime;
    var x := Unflatten(rows, chunks, batch, span);
    UnflattenDims(rows, chunks, batch, span);
    FlattenTimeGrid(x, chunks, batch, span);
    forall t | 0 <= t < chunks * span ensures FlattenTime(x, chunks, batch, span)[t] == rows[t] {
      TimeSplit(chunks, span, t);
      FlattenTimeRow(x, chunks, batch, span, t);
      forall b | 0 <= b < batch ensures x[t / span][b][t % span] == rows[t][b] {
        assert Chop(rows, chunks, span, t / span)[t % span] == rows[t];
      }
    }
  }

  // ---------- the sliced flags and values ----------

  /** Flags of one chunk more: the last chunks * span + 1 rows. */
  function FlagRows(dones: Tensor<bool>, chunks: nat, batch: nat, span: nat): seq<seq<bool>>
    requires |dones| == chunks + 1 && (forall c :: 0 <= c < chunks + 1 ==> |dones[c]| == batch) && 1 <= span
    requires forall c, b :: 0 <= c < chunks + 1 && 0 <= b < batch ==> |dones[c][b]| == span
  {
    FlattenLength(Transposed(dones, chunks + 1, batch, span), span);
    MulStep(chunks, span);
    FlattenTime(dones, chunks + 1, batch, span)[span - 1..]
  }

  /** Values of one chunk more: the first chunks * span + 1 rows. */
  function ValueRows<T>(values: Tensor<T>, chunks: nat, batch: nat, span: nat): seq<seq<T>>
    requires |values| == chunks + 1 && (forall c :: 0 <= c < chunks + 1 ==> |values[c]| == batch) && 1 <= span
    requires forall c, b :: 0 <= c < chunks + 1 && 0 <= b < batch ==> |values[c][b]| == span
  {
    FlattenLength(Transposed(values, chunks + 1, batch, span), span);
    MulStep(chunks, span);
    FlattenTime(values, chunks + 1, batch, span)[..chunks * span + 1]
  }

  lemma ShiftTime(span: nat, t: nat)
    requires 1 <= span
    ensures (span + t) / span == 1 + t / span && (span + t) % span == t % span
  {
    assert t == span * (t / span) + t % span;
    assert span + t == span * (1 + t / span) + t % span;
    DivModUnique(span + t, span, 1 + t / span, t % span);
  }

  /** Row t + 1 of the flags is chunk 1 + t / span, position t % span; row 0 is the last flag of the initial chunk. */
  lemma FlagRowAt(dones: Tensor<bool>, chunks: nat, batch: nat, span: nat, t: nat, b: nat)
    requires Dims(dones, chunks + 1, batch, span) && 1 <= span && t < chunks * span && b < batch
    ensures |FlagRows(dones, chunks, batch, span)| == chunks * span + 1
    ensures |FlagRows(dones, chunks, batch, span)[t + 1]| == batch && t / span < chunks
    ensures FlagRows(dones, chunks, batch, span)[t + 1][b] == dones[1 + t / span][b][t % span]
  {
    MulStep(chunks, span);
    TimeSplit(chunks, span, t);
    ShiftTime(span, t);
    FlattenTimeRow(dones, chunks + 1, batch, span, span + t);
  }

  lemma FlagRowFirst(dones: Tensor<bool>, chunks: nat, batch: nat, span: nat, b: nat)
    requires Dims(dones, chunks + 1, batch, span) && 1 <= span && b < batch
    ensures |FlagRows(dones, chunks, batch, span)| == chunks * span + 1
    ensures |FlagRows(dones, chunks, batch, span)[0]| == batch
    ensures FlagRows(dones, chunks, batch, span)[0][b] == dones[0][b][span - 1]
  {
    MulStep(chunks, span);
    MulMonotone(chunks, 0, span);
    DivModUnique(span - 1, span, 0, span - 1);
    FlattenTimeRow(dones, chunks + 1, batch, span, span - 1);
  }

  /** Row t of the values is chunk t / span, position t % span; the last row is the first value of the last chunk. */
  lemma ValueRowAt<T>(values: Tensor<T>, chunks: nat, batch: nat, span: nat, t: nat, b: nat)
    requires Dims(values, chunks + 1, batch, span) && 1 <= span && t <= chunks * span && b < batch
    ensures |ValueRows(values, chunks, batch, span)| == chunks * span + 1
    ensures |ValueRows(values, chunks, batch, span)[t]| == batch
    ensures t / span <= chunks && ValueRows(values, chunks, batch, span)[t][b] == values[t / span][b][t % span]
  {
    MulStep(chunks, span);
    TimeSplit(chunks + 1, span, t);
    FlattenTimeRow(values, chunks + 1, batch, span, t);
  }
}
