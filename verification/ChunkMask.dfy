/**
  The loss mask of chunked rollouts: which actions count, that it is the mask the advantage loop
  assumes, and when reducing it to whole chunks agrees with masking the reduced flags.
*/
module ChunkMask {
  import opened Arithmetic
  import opened Sequences
  import opened LossMask
  import opened Chunks

  /** One environment's entries over time. */
  function TimeColumn<T>(rows: seq<seq<T>>, b: nat): (r: seq<T>)
    requires forall t :: 0 <= t < |rows| ==> b < |rows[t]|
    ensures |r| == |rows|
    ensures forall t :: 0 <= t < |rows| ==> r[t] == rows[t][b]
  {
    seq(|rows|, t requires 0 <= t < |rows| => rows[t][b])
  }

  /** `(cumsum(dim=0) == 0)[:-1]`, environment by environment. */
  function MaskRows(rows: seq<seq<bool>>, batch: nat): (r: seq<seq<bool>>)
    requires rows != [] && forall t :: 0 <= t < |rows| ==> |rows[t]| == batch
    ensures |r| == |rows| - 1
    ensures forall t :: 0 <= t < |r| ==> |r[t]| == batch
    ensures forall t, b :: 0 <= t < |r| && 0 <= b < batch ==> r[t][b] == Mask(TimeColumn(rows, b))[t]
  {
    seq(|rows| - 1, t requires 0 <= t < |rows| - 1 =>
      seq(batch, b requires 0 <= b < batch => Mask(TimeColumn(rows, b))[t]))
  }

  lemma FlagRowsGrid(dones: Tensor<bool>, chunks: nat, batch: nat, span: nat)
    requires Dims(dones, chunks + 1, batch, span) && 1 <= span
    ensures Grid(FlagRows(dones, chunks, batch, span), chunks * span + 1, batch)
  {
    MulStep(chunks, span);
    MulMonotone(chunks, 0, span);
    FlattenTimeGrid(dones, chunks + 1, batch, span);
  }

  /** `compute_loss_mask` on flags of one chunk more. */
  ghost function LossMaskTensor(dones: Tensor<bool>, chunks: nat, batch: nat, span: nat): Tensor<bool>
    requires Dims(dones, chunks + 1, batch, span) && 1 <= span
  {
    FlagRowsGrid(dones, chunks, batch, span);
    MulMonotone(chunks, 0, span);
    Unflatten(MaskRows(FlagRows(dones, chunks, batch, span), batch), chunks, batch, span)
  }

  /** Preprocessing hands the advantage loop, for each environment, the mask of the very flags it hands it. */
  lemma MaskMatchesFlags(dones: Tensor<bool>, chunks: nat, batch: nat, span: nat, t: nat, b: nat)
    requires Dims(dones, chunks + 1, batch, span) && 1 <= span && t < chunks * span && b < batch
    ensures Grid(FlagRows(dones, chunks, batch, span), chunks * span + 1, batch)
    ensures Dims(LossMaskTensor(dones, chunks, batch, span), chunks, batch, span)
    ensures var flat := FlattenTime(LossMaskTensor(dones, chunks, batch, span), chunks, batch, span);
            Grid(flat, chunks * span, batch) &&
            flat[t][b] == Mask(TimeColumn(FlagRows(dones, chunks, batch, span), b))[t]
  {
    hide FlagRows;
    FlagRowsGrid(dones, chunks, batch, span);
    FlattenInverts(MaskRows(FlagRows(dones, chunks, batch, span), batch), chunks, batch, span);
  }

  // ---------- one environment ----------

  /** The flags of one environment, chunk by chunk. */
  function EnvFlags(dones: Tensor<bool>, chunks: nat, b: nat): (r: seq<seq<bool>>)
    requires |dones| == chunks && forall c :: 0 <= c < chunks ==> b < |dones[c]|
    ensures |r| == chunks && forall c :: 0 <= c < chunks ==> r[c] == dones[c][b]
  {
    seq(chunks, c requires 0 <= c < chunks => dones[c][b])
  }

  lemma EnvColumn(dones: Tensor<bool>, chunks: nat, batch: nat, span: nat, b: nat)
    requires Dims(dones, chunks + 1, batch, span) && 1 <= span && b < batch
    ensures Grid(FlagRows(dones, chunks, batch, span), chunks * span + 1, batch)
    ensures |Flatten(EnvFlags(dones, chunks + 1, b))| == chunks * span + span
    ensures TimeColumn(FlagRows(dones, chunks, batch, span), b) == Flatten(EnvFlags(dones, chunks + 1, b))[span - 1..]
  {
    FlagRowsGrid(dones, chunks, batch, span);
    FlattenLength(EnvFlags(dones, chunks + 1, b), span);
    MulStep(chunks, span);
    var rows := FlagRows(dones, chunks, batch, span);
    hide FlagRows;
    forall t | 0 <= t < chunks * span + 1 ensures rows[t][b] == Flatten(EnvFlags(dones, chunks + 1, b))[span - 1 + t] {
      EnvEntry(dones, chunks, batch, span, b, t);
    }
  }

  lemma EnvEntry(dones: Tensor<bool>, chunks: nat, batch: nat, span: nat, b: nat, t: nat)
    requires Dims(dones, chunks + 1, batch, span) && 1 <= span && b < batch && t < chunks * span + 1
    ensures Grid(FlagRows(dones, chunks, batch, span), chunks * span + 1, batch)
    ensures |Flatten(EnvFlags(dones, chunks + 1, b))| == chunks * span + span
    ensures FlagRows(dones, chunks, batch, span)[t][b] == Flatten(EnvFlags(dones, chunks + 1, b))[span - 1 + t]
  {
    hide FlagRows;
    var env := EnvFlags(dones, chunks + 1, b);
    FlagRowsGrid(dones, chunks, batch, span);
    FlattenLength(env, span);
    MulStep(chunks, span);
    if t == 0 {
      FlagRowFirst(dones, chunks, batch, span, b);
      FlattenBlock(env, span, 0, span - 1);
    } else {
      FlagRowAt(dones, chunks, batch, span, t - 1, b);
      TimeSplit(chunks, span, t - 1);
      FlattenBlock(env, span, 1 + (t - 1) / span, (t - 1) % span);
      MulStep((t - 1) / span, span);
    }
  }

  // ---------- reducing to whole chunks ----------

  predicate Any(m: seq<bool>) {
    exists j :: 0 <= j < |m| && m[j]
  }

  lemma MaskChunkFits(env: seq<seq<bool>>, span: nat, c: nat)
    requires 1 <= span && |Flatten(env)| == (|env| - 1) * span + span && c < |env| - 1
    ensures 0 <= c * span && c * span + span <= |Flatten(env)| - span
  {
    ChunkWithin(|env| - 1, span, c);
  }

  /** The actions of chunk c the mask keeps. */
  function MaskChunk(env: seq<seq<bool>>, span: nat, c: nat): (r: seq<bool>)
    requires 1 <= span && |Flatten(env)| == (|env| - 1) * span + span && c < |env| - 1
    ensures |r| == span
  {
    MaskChunkFits(env, span, c);
    Mask(Flatten(env)[span - 1..])[c * span..c * span + span]
  }

  /** max over each chunk, as one flag per chunk. */
  function Reduced(env: seq<seq<bool>>): (r: seq<bool>)
    ensures |r| == |env| && forall c :: 0 <= c < |env| ==> r[c] == Any(env[c])
  {
    seq(|env|, c requires 0 <= c < |env| => Any(env[c]))
  }

  ghost predicate Chunked(env: seq<seq<bool>>, span: nat) {
    1 <= span && env != [] && forall c :: 0 <= c < |env| ==> |env[c]| == span
  }

  lemma ChunkedLength(env: seq<seq<bool>>, span: nat)
    requires Chunked(env, span)
    ensures |Flatten(env)| == (|env| - 1) * span + span
  {
    FlattenLength(env, span);
    MulStep(|env| - 1, span);
  }

  /** The tensor's mask for chunk c of environment b is that environment's mask of chunk c. */
  lemma TensorChunk(dones: Tensor<bool>, chunks: nat, batch: nat, span: nat, c: nat, b: nat)
    requires Dims(dones, chunks + 1, batch, span) && 1 <= span && c < chunks && b < batch
    ensures Dims(LossMaskTensor(dones, chunks, batch, span), chunks, batch, span)
    ensures |Flatten(EnvFlags(dones, chunks + 1, b))| == chunks * span + span
    ensures LossMaskTensor(dones, chunks, batch, span)[c][b] == MaskChunk(EnvFlags(dones, chunks + 1, b), span, c)
  {
    hide FlagRows;
    hide Flatten;
    var env := EnvFlags(dones, chunks + 1, b);
    var rows := FlagRows(dones, chunks, batch, span);
    EnvColumn(dones, chunks, batch, span, b);
    UnflattenDims(MaskRows(rows, batch), chunks, batch, span);
    ChunkWithin(chunks, span, c);
    MaskChunkFits(env, span, c);
    var chunk := Chop(MaskRows(rows, batch), chunks, span, c);
    forall j | 0 <= j < span ensures chunk[j][b] == MaskChunk(env, span, c)[j] {
      assert chunk[j] == MaskRows(rows, batch)[c * span + j];
    }
  }

  /** No flag is set in chunks 1 to c, nor at the end of the initial chunk. */
  ghost predicate ClearThrough(env: seq<seq<bool>>, span: nat, c: nat)
    requires Chunked(env, span) && c < |env|
  {
    !env[0][span - 1] && forall i :: 1 <= i <= c ==> !Any(env[i])
  }

  lemma ClearSlice(env: seq<seq<bool>>, span: nat, c: nat)
    requires Chunked(env, span) && c < |env| - 1
    ensures |Flatten(env)| == (|env| - 1) * span + span
    ensures 0 <= c * span < (|env| - 1) * span + 1
    ensures NoDoneUpTo(Flatten(env)[span - 1..], c * span) <==> ClearThrough(env, span, c)
  {
    ChunkedLength(env, span);
    ChunkWithin(|env| - 1, span, c);
    var flags := Flatten(env)[span - 1..];
    if NoDoneUpTo(flags, c * span) {
      FlattenBlock(env, span, 0, span - 1);
      assert flags[0] == env[0][span - 1];
      forall i | 1 <= i <= c ensures !Any(env[i]) {
        forall j | 0 <= j < span ensures !env[i][j] {
          FlagPosition(env, span, i, j, c);
        }
      }
    }
    if ClearThrough(env, span, c) {
      forall s | 0 <= s <= c * span ensures !flags[s] {
        FlagSource(env, span, c, s);
      }
    }
  }

  lemma FlagPosition(env: seq<seq<bool>>, span: nat, i: nat, j: nat, c: nat)
    requires Chunked(env, span) && 1 <= i <= c < |env| && j < span
    ensures |Flatten(env)| == (|env| - 1) * span + span
    ensures 0 <= i * span + j - (span - 1) <= c * span < |Flatten(env)[span - 1..]|
    ensures Flatten(env)[span - 1..][i * span + j - (span - 1)] == env[i][j]
  {
    ChunkedLength(env, span);
    FlattenBlock(env, span, i, j);
    MulStep(i - 1, span);
    MulMonotone(i - 1, 0, span);
    MulMonotone(c, i, span);
    MulMonotone(|env| - 1, c, span);
  }

  lemma FlagSource(env: seq<seq<bool>>, span: nat, c: nat, s: nat)
    requires Chunked(env, span) && c < |env| && s <= c * span && ClearThrough(env, span, c)
    ensures |Flatten(env)| == (|env| - 1) * span + span && s < |Flatten(env)[span - 1..]|
    ensures !Flatten(env)[span - 1..][s]
  {
    ChunkedLength(env, span);
    MulMonotone(|env| - 1, c, span);
    if s == 0 {
      FlattenBlock(env, span, 0, span - 1);
    } else {
      TimeSplit(c, span, s - 1);
      var i, j := 1 + (s - 1) / span, (s - 1) % span;
      MulStep((s - 1) / span, span);
      FlattenBlock(env, span, i, j);
      assert !Any(env[i]);
    }
  }

  /** A chunk keeps some action exactly when nothing was done up to its start. */
  lemma KeepsChunk(env: seq<seq<bool>>, span: nat, c: nat)
    requires Chunked(env, span) && c < |env| - 1
    ensures |Flatten(env)| == (|env| - 1) * span + span
    ensures Any(MaskChunk(env, span, c)) <==> ClearThrough(env, span, c)
  {
    ChunkedLength(env, span);
    ChunkWithin(|env| - 1, span, c);
    ClearSlice(env, span, c);
    var flags := Flatten(env)[span - 1..];
    var chunk := MaskChunk(env, span, c);
    CumulativeZero(flags, c * span);
    assert chunk[0] == Mask(flags)[c * span];
    if Any(chunk) {
      var j :| 0 <= j < span && chunk[j];
      CumulativeZero(flags, c * span + j);
    }
  }

  /** Masking the reduced flags keeps chunk c exactly when no chunk up to it, the initial one included, has a flag. */
  lemma KeepsReduced(env: seq<seq<bool>>, c: nat)
    requires c < |env| - 1
    ensures Mask(Reduced(env))[c] <==> forall i :: 0 <= i <= c ==> !Any(env[i])
  {
    CumulativeZero(Reduced(env), c);
  }

  /**
    Reducing the action-level mask agrees with masking the reduced flags, on every chunk, exactly when
    a flag in the initial chunk implies a flag at its last position.
  */
  lemma ReductionCommutes(env: seq<seq<bool>>, span: nat)
    requires Chunked(env, span) && |env| >= 2
    ensures |Flatten(env)| == (|env| - 1) * span + span
    ensures (forall c :: 0 <= c < |env| - 1 ==> Any(MaskChunk(env, span, c)) == Mask(Reduced(env))[c])
            <==> (Any(env[0]) ==> env[0][span - 1])
  {
    ChunkedLength(env, span);
    forall c | 0 <= c < |env| - 1
      ensures Any(MaskChunk(env, span, c)) <==> ClearThrough(env, span, c)
      ensures Mask(Reduced(env))[c] <==> forall i :: 0 <= i <= c ==> !Any(env[i])
    {
      KeepsChunk(env, span, c);
      KeepsReduced(env, c);
    }
    if Any(env[0]) && !env[0][span - 1] {
      assert Any(MaskChunk(env, span, 0)) && !Mask(Reduced(env))[0];
    } else {
      forall c | 0 <= c < |env| - 1 ensures Any(MaskChunk(env, span, c)) == Mask(Reduced(env))[c] {
        assert !Any(env[0]) <==> !env[0][span - 1];
      }
    }
  }

  /** A flag early in the initial chunk, not at its end, makes the two disagree. */
  lemma ReductionFails()
    ensures var env := [[true, false], [false, false]];
            |Flatten(env)| == 4 && Any(MaskChunk(env, 2, 0)) && !Mask(Reduced(env))[0]
  {
    var env := [[true, false], [false, false]];
    ChunkedLength(env, 2);
    KeepsChunk(env, 2, 0);
    KeepsReduced(env, 0);
    assert env[0][0];
  }

  /** `loss_mask.sum(dim=(0, 2))` for environment b: the kept actions of the first n chunks. */
  function TensorSum(mask: Tensor<bool>, b: nat, n: nat): nat
    requires n <= |mask| && forall c :: 0 <= c < |mask| ==> b < |mask[c]|
  {
    if n == 0 then 0 else TensorSum(mask, b, n - 1) + CountTrue(mask[n - 1][b])
  }

  lemma {:induction false} CountAppend(a: seq<bool>, b: seq<bool>)
    ensures CountTrue(a + b) == CountTrue(a) + CountTrue(b)
  {
    if a == [] {
      assert a + b == b;
    } else {
      assert (a + b)[1..] == a[1..] + b;
      CountAppend(a[1..], b);
    }
  }

  /** The first n chunks of the tensor hold the first n * span entries of the environment's mask. */
  lemma {:induction false} TensorSumPrefix(dones: Tensor<bool>, chunks: nat, batch: nat, span: nat, b: nat, n: nat)
    requires Dims(dones, chunks + 1, batch, span) && 1 <= span && b < batch && n <= chunks
    ensures Dims(LossMaskTensor(dones, chunks, batch, span), chunks, batch, span)
    ensures var env := EnvFlags(dones, chunks + 1, b);
            |Flatten(env)| == chunks * span + span && 0 <= n * span <= chunks * span &&
            TensorSum(LossMaskTensor(dones, chunks, batch, span), b, n)
              == CountTrue(Mask(Flatten(env)[span - 1..])[..n * span])
  {
    hide LossMaskTensor;
    hide Mask;
    hide CountTrue;
    hide Flatten;
    TensorDims(dones, chunks, batch, span, b);
    if n == 0 {
      NoneCounted();
      assert 0 * span == 0;
    } else {
      TensorSumPrefix(dones, chunks, batch, span, b, n - 1);
      TensorChunk(dones, chunks, batch, span, n - 1, b);
      ChunkWithin(chunks, span, n - 1);
      MulStep(n - 1, span);
      NextChunk(EnvFlags(dones, chunks + 1, b), span, n - 1);
    }
  }

  lemma TensorDims(dones: Tensor<bool>, chunks: nat, batch: nat, span: nat, b: nat)
    requires Dims(dones, chunks + 1, batch, span) && 1 <= span && b < batch
    ensures Dims(LossMaskTensor(dones, chunks, batch, span), chunks, batch, span)
    ensures |Flatten(EnvFlags(dones, chunks + 1, b))| == chunks * span + span
    ensures 0 <= chunks * span
  {
    hide FlagRows;
    EnvColumn(dones, chunks, batch, span, b);
    MulMonotone(chunks, 0, span);
    UnflattenDims(MaskRows(FlagRows(dones, chunks, batch, span), batch), chunks, batch, span);
  }

  lemma NoneCounted()
    ensures CountTrue([]) == 0
  {
  }

  lemma NextChunk(env: seq<seq<bool>>, span: nat, c: nat)
    requires 1 <= span && |Flatten(env)| == (|env| - 1) * span + span && c < |env| - 1
    ensures 0 <= c * span && c * span + span <= |Flatten(env)| - span
    ensures var mask := Mask(Flatten(env)[span - 1..]);
            CountTrue(mask[..c * span + span]) == CountTrue(mask[..c * span]) + CountTrue(MaskChunk(env, span, c))
  {
    hide Mask;
    hide CountTrue;
    hide Flatten;
    MaskChunkFits(env, span, c);
    var mask := Mask(Flatten(env)[span - 1..]);
    assert mask[..c * span + span] == mask[..c * span] + MaskChunk(env, span, c);
    CountAppend(mask[..c * span], MaskChunk(env, span, c));
  }

  /**
    The mask sum of an environment, over all chunks and actions of the tensor, is the time of its first flag counted
    from the end of the initial chunk, or the number of steps.
  */
  lemma MaskSumIsFirstDone(dones: Tensor<bool>, chunks: nat, batch: nat, span: nat, b: nat)
    requires Dims(dones, chunks + 1, batch, span) && 1 <= span && b < batch
    ensures Dims(LossMaskTensor(dones, chunks, batch, span), chunks, batch, span)
    ensures |Flatten(EnvFlags(dones, chunks + 1, b))| == chunks * span + span
    ensures var first := FirstDone(Flatten(EnvFlags(dones, chunks + 1, b))[span - 1..]);
            TensorSum(LossMaskTensor(dones, chunks, batch, span), b, chunks)
              == if first <= chunks * span then first else chunks * span
  {
    hide LossMaskTensor;
    hide Flatten;
    hide TensorSum;
    TensorSumPrefix(dones, chunks, batch, span, b, chunks);
    var flags := Flatten(EnvFlags(dones, chunks + 1, b))[span - 1..];
    MaskIsPrefix(flags);
    assert Mask(flags)[..chunks * span] == Mask(flags);
  }
}
