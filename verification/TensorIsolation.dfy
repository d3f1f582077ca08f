/**
  Advantages of chunked rollouts, from tensors to tensors: preprocessing, the advantage loop of every environment,
  normalization over what the loss mask keeps, and postprocessing. Nothing that happens in an environment after its
  first done reaches a kept entry of the result.
*/
module TensorIsolation {
  import opened Arithmetic
  import opened Sequences
  import opened RealSums
  import opened LossMask
  import opened Gae
  import opened Chunks
  import opened ChunkMask

  /** Rewards of each chunk; values and done flags of one chunk more. */
  datatype Rollouts = Rollouts(rewards: Tensor<real>, values: Tensor<real>, dones: Tensor<bool>)

  /** Numbers of chunks, environments and actions per chunk. */
  datatype Shape = Shape(chunks: nat, batch: nat, span: nat)

  ghost function Steps(s: Shape): nat {
    MulMonotone(s.chunks, 0, s.span);
    s.chunks * s.span
  }

  ghost predicate Shaped(x: Rollouts, s: Shape) {
    && 1 <= s.span
    && Dims(x.rewards, s.chunks, s.batch, s.span)
    && Dims(x.values, s.chunks + 1, s.batch, s.span)
    && Dims(x.dones, s.chunks + 1, s.batch, s.span)
  }

  // ---------- the advantages of the tensors ----------

  lemma RowGrids(x: Rollouts, s: Shape)
    requires Shaped(x, s)
    ensures Grid(FlattenTime(x.rewards, s.chunks, s.batch, s.span), Steps(s), s.batch)
    ensures Grid(ValueRows(x.values, s.chunks, s.batch, s.span), Steps(s) + 1, s.batch)
    ensures Grid(FlagRows(x.dones, s.chunks, s.batch, s.span), Steps(s) + 1, s.batch)
  {
    MulStep(s.chunks, s.span);
    FlattenTimeGrid(x.rewards, s.chunks, s.batch, s.span);
    FlattenTimeGrid(x.values, s.chunks + 1, s.batch, s.span);
    FlagRowsGrid(x.dones, s.chunks, s.batch, s.span);
  }

  /** What preprocessing hands the loop for environment b. */
  ghost function EpisodeOf(x: Rollouts, s: Shape, b: nat): (e: Episode)
    requires Shaped(x, s) && b < s.batch
    ensures Fits(e) && |e.rewards| == Steps(s)
  {
    RowGrids(x, s);
    Episode(TimeColumn(FlattenTime(x.rewards, s.chunks, s.batch, s.span), b),
            TimeColumn(ValueRows(x.values, s.chunks, s.batch, s.span), b),
            TimeColumn(FlagRows(x.dones, s.chunks, s.batch, s.span), b))
  }

  ghost function Episodes(x: Rollouts, s: Shape): (r: seq<Episode>)
    requires Shaped(x, s)
    ensures |r| == s.batch && forall b :: 0 <= b < s.batch ==> r[b] == EpisodeOf(x, s, b)
    ensures SameSteps(r, Steps(s))
  {
    seq(s.batch, b requires 0 <= b < s.batch => EpisodeOf(x, s, b))
  }

  ghost function LossMaskOf(x: Rollouts, s: Shape): (m: Tensor<bool>)
    requires Shaped(x, s)
    ensures Dims(m, s.chunks, s.batch, s.span)
  {
    RowGrids(x, s);
    UnflattenDims(MaskRows(FlagRows(x.dones, s.chunks, s.batch, s.span), s.batch), s.chunks, s.batch, s.span);
    LossMaskTensor(x.dones, s.chunks, s.batch, s.span)
  }

  ghost function RowOf(xs: seq<real>, rows: nat, batch: nat, t: nat): (r: seq<real>)
    requires |xs| == rows * batch && t < rows
    ensures |r| == batch && 0 <= t * batch && t * batch + batch <= |xs|
    ensures forall b :: 0 <= b < batch ==> r[b] == xs[t * batch + b]
  {
    ChunkWithin(rows, batch, t);
    xs[t * batch..t * batch + batch]
  }

  /** The flat entries as rows of one entry per environment. */
  ghost function RowsOf(xs: seq<real>, rows: nat, batch: nat): (r: seq<seq<real>>)
    requires |xs| == rows * batch
    ensures Grid(r, rows, batch)
  {
    seq(rows, t requires 0 <= t < rows => RowOf(xs, rows, batch, t))
  }

  lemma FlatLengths(x: Rollouts, s: Shape, gamma: real, gaeLambda: real)
    requires Shaped(x, s)
    ensures Grid(FlattenTime(LossMaskOf(x, s), s.chunks, s.batch, s.span), Steps(s), s.batch)
    ensures |Flatten(FlattenTime(LossMaskOf(x, s), s.chunks, s.batch, s.span))| == Steps(s) * s.batch
    ensures |Flatten(BatchAdvantages(Episodes(x, s), Steps(s), gamma, gaeLambda))| == Steps(s) * s.batch
  {
    FlattenTimeGrid(LossMaskOf(x, s), s.chunks, s.batch, s.span);
    FlattenLength(FlattenTime(LossMaskOf(x, s), s.chunks, s.batch, s.span), s.batch);
    FlattenLength(BatchAdvantages(Episodes(x, s), Steps(s), gamma, gaeLambda), s.batch);
  }

  /** All advantages, time after time, environment after environment. */
  ghost function RawAdvantages(x: Rollouts, s: Shape, gamma: real, gaeLambda: real): (r: seq<real>)
    requires Shaped(x, s)
    ensures |r| == Steps(s) * s.batch
  {
    FlatLengths(x, s, gamma, gaeLambda);
    Flatten(BatchAdvantages(Episodes(x, s), Steps(s), gamma, gaeLambda))
  }

  /** The preprocessed loss mask in the same order. */
  ghost function FlatMask(x: Rollouts, s: Shape): (r: seq<bool>)
    requires Shaped(x, s)
    ensures |r| == Steps(s) * s.batch
  {
    FlatLengths(x, s, 0.0, 0.0);
    Flatten(FlattenTime(LossMaskOf(x, s), s.chunks, s.batch, s.span))
  }

  /** The advantages, normalized over the entries the mask keeps. */
  ghost function FlatAdvantages(x: Rollouts, s: Shape, gamma: real, gaeLambda: real, sqrt: real -> real): Normalized
    requires Shaped(x, s)
  {
    SafeNormalize(RawAdvantages(x, s, gamma, gaeLambda), FlatMask(x, s), sqrt)
  }

  lemma NormalizedLength(xs: seq<real>, mask: seq<bool>, sqrt: real -> real)
    requires |mask| == |xs|
    ensures SafeNormalize(xs, mask, sqrt).Values? ==> |SafeNormalize(xs, mask, sqrt).xs| == |xs|
  {
    hide Variance;
    hide Mean;
    hide Reciprocal;
  }

  /** Postprocessing: the flat advantages as a tensor again. */
  ghost function AdvantageTensor(flat: seq<real>, s: Shape): (r: Tensor<real>)
    requires |flat| == Steps(s) * s.batch
    ensures Dims(r, s.chunks, s.batch, s.span)
  {
    UnflattenDims(RowsOf(flat, Steps(s), s.batch), s.chunks, s.batch, s.span);
    Unflatten(RowsOf(flat, Steps(s), s.batch), s.chunks, s.batch, s.span)
  }

  // ---------- where the entries of the result come from ----------

  /** Entry [c, b, j] of the result is the flat entry of time c * span + j and environment b. */
  lemma TensorEntry(flat: seq<real>, s: Shape, c: nat, b: nat, j: nat)
    requires |flat| == Steps(s) * s.batch && c < s.chunks && b < s.batch && j < s.span
    ensures 0 <= c * s.span + j < Steps(s)
    ensures 0 <= (c * s.span + j) * s.batch + b < |flat|
    ensures AdvantageTensor(flat, s)[c][b][j] == flat[(c * s.span + j) * s.batch + b]
  {
    ChunkWithin(s.chunks, s.span, c);
    var t := c * s.span + j;
    var rows := RowsOf(flat, Steps(s), s.batch);
    assert rows[t] == RowOf(flat, Steps(s), s.batch, t);
    assert Chop(rows, s.chunks, s.span, c)[j] == rows[t];
  }

  /** Entry [c, b, j] of a tensor, found in its flat form. */
  lemma FlatEntry<T>(m: Tensor<T>, s: Shape, c: nat, b: nat, j: nat)
    requires Dims(m, s.chunks, s.batch, s.span) && c < s.chunks && b < s.batch && j < s.span
    ensures var flat := Flatten(FlattenTime(m, s.chunks, s.batch, s.span));
            0 <= c * s.span + j < Steps(s) && 0 <= (c * s.span + j) * s.batch + b < |flat| &&
            flat[(c * s.span + j) * s.batch + b] == m[c][b][j]
  {
    hide Flatten;
    FlattenTimeAt(m, s.chunks, s.batch, s.span, c, b, j);
    FlattenTimeGrid(m, s.chunks, s.batch, s.span);
    FlattenBlock(FlattenTime(m, s.chunks, s.batch, s.span), s.batch, c * s.span + j, b);
  }

  /** The masks of the episodes, time after time, are the preprocessed loss mask. */
  lemma MaskOfEpisodes(x: Rollouts, s: Shape)
    requires Shaped(x, s)
    ensures BatchMask(Episodes(x, s), Steps(s)) == FlattenTime(LossMaskOf(x, s), s.chunks, s.batch, s.span)
  {
    hide Flatten;
    hide LossMaskTensor;
    FlattenTimeGrid(LossMaskOf(x, s), s.chunks, s.batch, s.span);
    var a, m := BatchMask(Episodes(x, s), Steps(s)), FlattenTime(LossMaskOf(x, s), s.chunks, s.batch, s.span);
    forall t | 0 <= t < Steps(s) ensures a[t] == m[t] {
      forall b | 0 <= b < s.batch ensures a[t][b] == m[t][b] {
        MaskMatchesFlags(x.dones, s.chunks, s.batch, s.span, t, b);
        assert Episodes(x, s)[b].dones == TimeColumn(FlagRows(x.dones, s.chunks, s.batch, s.span), b);
      }
    }
  }

  /** Entry t * batch + b of the flat advantages is the advantage of environment b at time t. */
  lemma RawAdvantageAt(x: Rollouts, s: Shape, gamma: real, gaeLambda: real, t: nat, b: nat)
    requires Shaped(x, s) && t < Steps(s) && b < s.batch
    ensures var flat := RawAdvantages(x, s, gamma, gaeLambda);
            0 <= t * s.batch + b < |flat| &&
            flat[t * s.batch + b] == Advantage(EpisodeOf(x, s, b), gamma, gaeLambda, t)
  {
    hide Flatten;
    hide EpisodeOf;
    hide Advantage;
    FlattenBlock(BatchAdvantages(Episodes(x, s), Steps(s), gamma, gaeLambda), s.batch, t, b);
  }

  /** Entry [c, b, j] of the loss mask keeps time c * span + j of environment b exactly before its first done. */
  lemma FlatMaskAt(x: Rollouts, s: Shape, c: nat, b: nat, j: nat)
    requires Shaped(x, s) && c < s.chunks && b < s.batch && j < s.span
    ensures 0 <= c * s.span + j < Steps(s)
    ensures 0 <= (c * s.span + j) * s.batch + b < |FlatMask(x, s)|
    ensures FlatMask(x, s)[(c * s.span + j) * s.batch + b] == LossMaskOf(x, s)[c][b][j]
    ensures LossMaskOf(x, s)[c][b][j] <==> c * s.span + j < FirstDone(EpisodeOf(x, s, b).dones)
  {
    hide EpisodeOf;
    hide LossMaskOf;
    hide Flatten;
    hide FirstDone;
    var t := c * s.span + j;
    FlatEntry(LossMaskOf(x, s), s, c, b, j);
    FlattenTimeAt(LossMaskOf(x, s), s.chunks, s.batch, s.span, c, b, j);
    MaskOfEpisodes(x, s);
    assert BatchMask(Episodes(x, s), Steps(s))[t][b] == Mask(EpisodeOf(x, s, b).dones)[t];
    MaskIsPrefix(EpisodeOf(x, s, b).dones);
  }

  lemma NormalizedAt(all: seq<real>, mask: seq<bool>, sqrt: real -> real, k: nat)
    requires |mask| == |all| && k < |all| && IsRoot(sqrt)
    ensures var kept, r := Chosen(all, mask), SafeNormalize(all, mask, sqrt);
            (r.NotANumber? <==> |kept| == 1) && (r.Values? ==> |r.xs| == |all|) &&
            (kept == [] ==> r.xs[k] == all[k]) &&
            (|kept| >= 2 ==> r.xs[k] * (sqrt(Variance(kept)) + 0.00001) == all[k] - Mean(kept))
  {
    hide Chosen;
    hide Mean;
    hide Variance;
    hide SafeNormalize;
    hide IsRoot;
    hide SquaredDeviations;
    NormalizeScale(all, mask, sqrt);
    NormalizedLength(all, mask, sqrt);
  }

  /** The entry of the result and the advantage it comes from. */
  lemma EntryOf(x: Rollouts, s: Shape, gamma: real, gaeLambda: real, flat: seq<real>, c: nat, b: nat, j: nat)
      returns (k: nat)
    requires Shaped(x, s) && |flat| == Steps(s) * s.batch && c < s.chunks && b < s.batch && j < s.span
    ensures k < |flat| && AdvantageTensor(flat, s)[c][b][j] == flat[k]
    ensures 0 <= c * s.span + j < Steps(s)
    ensures RawAdvantages(x, s, gamma, gaeLambda)[k] == Advantage(EpisodeOf(x, s, b), gamma, gaeLambda, c * s.span + j)
  {
    hide Advantage;
    hide EpisodeOf;
    hide RawAdvantages;
    hide AdvantageTensor;
    TensorEntry(flat, s, c, b, j);
    RawAdvantageAt(x, s, gamma, gaeLambda, c * s.span + j, b);
    k := (c * s.span + j) * s.batch + b;
  }

  /**
    What an entry of the result is: with two kept entries or more, entry [c, b, j] times the deviation of the kept
    advantages plus 1e-5 is the advantage of environment b at time c * span + j less the mean of the kept ones;
    with none it is that advantage.
  */
  lemma EntryScale(x: Rollouts, s: Shape, gamma: real, gaeLambda: real, sqrt: real -> real, c: nat, b: nat, j: nat)
    requires Shaped(x, s) && IsRoot(sqrt) && c < s.chunks && b < s.batch && j < s.span
    ensures 0 <= c * s.span + j < Steps(s)
    ensures var kept := Chosen(RawAdvantages(x, s, gamma, gaeLambda), FlatMask(x, s));
            var r := FlatAdvantages(x, s, gamma, gaeLambda, sqrt);
            var own := Advantage(EpisodeOf(x, s, b), gamma, gaeLambda, c * s.span + j);
            (r.NotANumber? <==> |kept| == 1) && (r.Values? ==> |r.xs| == Steps(s) * s.batch) &&
            (kept == [] ==> AdvantageTensor(r.xs, s)[c][b][j] == own) &&
            (|kept| >= 2 ==>
              AdvantageTensor(r.xs, s)[c][b][j] * (sqrt(Variance(kept)) + 0.00001) == own - Mean(kept))
  {
    hide Advantage;
    hide EpisodeOf;
    hide RawAdvantages;
    hide FlatMask;
    hide AdvantageTensor;
    hide Chosen;
    hide Mean;
    hide Variance;
    hide SafeNormalize;
    hide IsRoot;
    var all, mask := RawAdvantages(x, s, gamma, gaeLambda), FlatMask(x, s);
    var k := EntryOf(x, s, gamma, gaeLambda, all, c, b, j);
    NormalizedAt(all, mask, sqrt, k);
    if |Chosen(all, mask)| != 1 {
      var k' := EntryOf(x, s, gamma, gaeLambda, FlatAdvantages(x, s, gamma, gaeLambda, sqrt).xs, c, b, j);
      NormalizedAt(all, mask, sqrt, k');
    }
  }

  // ---------- isolation ----------

  lemma TimeInTensor(s: Shape, t: nat)
    requires 1 <= s.span
    ensures t < Steps(s) ==> t / s.span < s.chunks && t % s.span < s.span
    ensures t <= Steps(s) ==> t / s.span < s.chunks + 1 && t % s.span < s.span
  {
    MulStep(s.chunks, s.span);
    if t < Steps(s) {
      TimeSplit(s.chunks, s.span, t);
    }
    if t <= Steps(s) {
      TimeSplit(s.chunks + 1, s.span, t);
    }
  }

  ghost function RewardAt(x: Rollouts, s: Shape, b: nat, t: nat): real
    requires Shaped(x, s) && b < s.batch && t < Steps(s)
  {
    TimeInTensor(s, t);
    x.rewards[t / s.span][b][t % s.span]
  }

  ghost function ValueAt(x: Rollouts, s: Shape, b: nat, t: nat): real
    requires Shaped(x, s) && b < s.batch && t <= Steps(s)
  {
    TimeInTensor(s, t);
    x.values[t / s.span][b][t % s.span]
  }

  /** Time 0 is the last action of the initial chunk, time t + 1 is action t after that chunk. */
  ghost function DoneAt(x: Rollouts, s: Shape, b: nat, t: nat): bool
    requires Shaped(x, s) && b < s.batch && t <= Steps(s)
  {
    if t == 0 then x.dones[0][b][s.span - 1]
    else
      TimeInTensor(s, t - 1);
      x.dones[1 + (t - 1) / s.span][b][(t - 1) % s.span]
  }

  lemma EpisodeEntries(x: Rollouts, s: Shape, b: nat, t: nat)
    requires Shaped(x, s) && b < s.batch && t <= Steps(s)
    ensures t < Steps(s) ==> EpisodeOf(x, s, b).rewards[t] == RewardAt(x, s, b, t)
    ensures EpisodeOf(x, s, b).values[t] == ValueAt(x, s, b, t)
    ensures EpisodeOf(x, s, b).dones[t] == DoneAt(x, s, b, t)
  {
    hide FlattenTime;
    hide ValueRows;
    hide FlagRows;
    RowGrids(x, s);
    TimeInTensor(s, t);
    ValueRowAt(x.values, s.chunks, s.batch, s.span, t, b);
    if t == 0 {
      FlagRowFirst(x.dones, s.chunks, s.batch, s.span, b);
    } else {
      FlagRowAt(x.dones, s.chunks, s.batch, s.span, t - 1, b);
    }
    if t < Steps(s) {
      FlattenTimeRow(x.rewards, s.chunks, s.batch, s.span, t);
    }
  }

  /** Nothing of environment b differs. */
  ghost predicate Untouched(p: Rollouts, q: Rollouts, s: Shape, b: nat)
    requires Shaped(p, s) && Shaped(q, s) && b < s.batch
  {
    && (forall c :: 0 <= c < s.chunks ==> p.rewards[c][b] == q.rewards[c][b])
    && (forall c :: 0 <= c <= s.chunks ==> p.values[c][b] == q.values[c][b] && p.dones[c][b] == q.dones[c][b])
  }

  /** Environment b is done for the first time at time d, and its rewards and values agree before that. */
  ghost predicate EndsAlike(p: Rollouts, q: Rollouts, s: Shape, b: nat, d: nat)
    requires Shaped(p, s) && Shaped(q, s) && b < s.batch
  {
    && d <= Steps(s) && DoneAt(p, s, b, d) && DoneAt(q, s, b, d)
    && (forall t :: 0 <= t < d ==> !DoneAt(p, s, b, t) && !DoneAt(q, s, b, t))
    && (forall t :: 0 <= t < d ==> RewardAt(p, s, b, t) == RewardAt(q, s, b, t))
    && (forall t :: 0 <= t < d ==> ValueAt(p, s, b, t) == ValueAt(q, s, b, t))
  }

  lemma UntouchedReward(p: Rollouts, q: Rollouts, s: Shape, b: nat, t: nat)
    requires Shaped(p, s) && Shaped(q, s) && b < s.batch && Untouched(p, q, s, b) && t < Steps(s)
    ensures RewardAt(p, s, b, t) == RewardAt(q, s, b, t)
  {
    hide Dims;
    TimeInTensor(s, t);
  }

  lemma UntouchedValue(p: Rollouts, q: Rollouts, s: Shape, b: nat, t: nat)
    requires Shaped(p, s) && Shaped(q, s) && b < s.batch && Untouched(p, q, s, b) && t <= Steps(s)
    ensures ValueAt(p, s, b, t) == ValueAt(q, s, b, t)
  {
    hide Dims;
    TimeInTensor(s, t);
  }

  lemma UntouchedDone(p: Rollouts, q: Rollouts, s: Shape, b: nat, t: nat)
    requires Shaped(p, s) && Shaped(q, s) && b < s.batch && Untouched(p, q, s, b) && t <= Steps(s)
    ensures DoneAt(p, s, b, t) == DoneAt(q, s, b, t)
  {
    hide Dims;
    if t > 0 {
      TimeInTensor(s, t - 1);
    }
  }

  lemma UntouchedEpisode(p: Rollouts, q: Rollouts, s: Shape, b: nat)
    requires Shaped(p, s) && Shaped(q, s) && b < s.batch && Untouched(p, q, s, b)
    ensures EpisodeOf(p, s, b) == EpisodeOf(q, s, b)
  {
    hide EpisodeOf;
    hide RewardAt;
    hide ValueAt;
    hide DoneAt;
    hide Shaped;
    hide Untouched;
    var e, f := EpisodeOf(p, s, b), EpisodeOf(q, s, b);
    forall t | 0 <= t <= Steps(s)
      ensures t < Steps(s) ==> e.rewards[t] == f.rewards[t]
      ensures e.values[t] == f.values[t] && e.dones[t] == f.dones[t]
    {
      EpisodeEntries(p, s, b, t);
      EpisodeEntries(q, s, b, t);
      UntouchedValue(p, q, s, b, t);
      UntouchedDone(p, q, s, b, t);
      if t < Steps(s) {
        UntouchedReward(p, q, s, b, t);
      }
    }
    assert e.rewards == f.rewards && e.values == f.values && e.dones == f.dones;
  }

  lemma AlikeEpisodes(p: Rollouts, q: Rollouts, s: Shape, b: nat, d: nat)
    requires Shaped(p, s) && Shaped(q, s) && b < s.batch && EndsAlike(p, q, s, b, d)
    ensures SameUntil(EpisodeOf(p, s, b), EpisodeOf(q, s, b), d)
  {
    hide EpisodeOf;
    hide RewardAt;
    hide ValueAt;
    hide DoneAt;
    forall t | 0 <= t <= d
      ensures EpisodeOf(p, s, b).dones[t] == DoneAt(p, s, b, t) && EpisodeOf(q, s, b).dones[t] == DoneAt(q, s, b, t)
      ensures t < d ==> EpisodeOf(p, s, b).rewards[t] == EpisodeOf(q, s, b).rewards[t]
      ensures t < d ==> EpisodeOf(p, s, b).values[t] == EpisodeOf(q, s, b).values[t]
    {
      EpisodeEntries(p, s, b, t);
      EpisodeEntries(q, s, b, t);
    }
  }

  /** The loss mask of both is the same, and the flat advantages it keeps agree. */
  lemma FlatIsolation(p: Rollouts, q: Rollouts, s: Shape, ds: seq<nat>,
                      gamma: real, gaeLambda: real, sqrt: real -> real)
    requires Shaped(p, s) && Shaped(q, s) && |ds| == s.batch
    requires forall b :: 0 <= b < s.batch ==> Untouched(p, q, s, b) || EndsAlike(p, q, s, b, ds[b])
    ensures LossMaskOf(p, s) == LossMaskOf(q, s)
    ensures var mask := FlatMask(p, s);
            var a, b := FlatAdvantages(p, s, gamma, gaeLambda, sqrt), FlatAdvantages(q, s, gamma, gaeLambda, sqrt);
            |mask| == Steps(s) * s.batch && (a.NotANumber? <==> b.NotANumber?) &&
            (a.Values? ==> |a.xs| == |b.xs| == |mask| && AgreeWhere(a.xs, b.xs, mask))
  {
    hide EpisodeOf;
    hide SafeNormalize;
    hide LossMaskOf;
    hide Untouched;
    hide EndsAlike;
    hide BatchAdvantages;
    hide FlattenTime;
    hide SameUntil;
    forall b | 0 <= b < s.batch
      ensures Episodes(p, s)[b] == Episodes(q, s)[b] || SameUntil(Episodes(p, s)[b], Episodes(q, s)[b], ds[b])
    {
      if Untouched(p, q, s, b) {
        UntouchedEpisode(p, q, s, b);
      } else {
        AlikeEpisodes(p, q, s, b, ds[b]);
      }
    }
    NormalizedIsolation(Episodes(p, s), Episodes(q, s), ds, Steps(s), gamma, gaeLambda, sqrt);
    MaskOfEpisodes(p, s);
    MaskOfEpisodes(q, s);
    UnflattenInverts(LossMaskOf(p, s), s.chunks, s.batch, s.span);
    UnflattenInverts(LossMaskOf(q, s), s.chunks, s.batch, s.span);
    FlatLengths(p, s, gamma, gaeLambda);
    FlatLengths(q, s, gamma, gaeLambda);
    var mask := FlatMask(p, s);
    NormalizedLength(RawAdvantages(p, s, gamma, gaeLambda), mask, sqrt);
    NormalizedLength(RawAdvantages(q, s, gamma, gaeLambda), mask, sqrt);
  }

  /**
    Main result, from tensors to tensors. In any environments, change rewards, values or later flags at or after the
    first done; leave the others alone. The loss mask does not change, the result stays defined or undefined, and no
    entry the mask keeps changes.
  */
  lemma KeptEntriesIsolated(p: Rollouts, q: Rollouts, s: Shape, ds: seq<nat>,
                            gamma: real, gaeLambda: real, sqrt: real -> real)
    requires Shaped(p, s) && Shaped(q, s) && |ds| == s.batch
    requires forall b :: 0 <= b < s.batch ==> Untouched(p, q, s, b) || EndsAlike(p, q, s, b, ds[b])
    ensures LossMaskOf(p, s) == LossMaskOf(q, s)
    ensures var x, y := FlatAdvantages(p, s, gamma, gaeLambda, sqrt), FlatAdvantages(q, s, gamma, gaeLambda, sqrt);
            (x.NotANumber? <==> y.NotANumber?) &&
            (x.Values? ==>
              |x.xs| == |y.xs| == Steps(s) * s.batch &&
              forall c, b, j :: 0 <= c < s.chunks && 0 <= b < s.batch && 0 <= j < s.span ==>
                LossMaskOf(p, s)[c][b][j] ==> AdvantageTensor(x.xs, s)[c][b][j] == AdvantageTensor(y.xs, s)[c][b][j])
  {
    hide FlatAdvantages;
    hide LossMaskOf;
    hide AdvantageTensor;
    hide Untouched;
    hide EndsAlike;
    hide FlattenTime;
    FlatIsolation(p, q, s, ds, gamma, gaeLambda, sqrt);
    var x, y := FlatAdvantages(p, s, gamma, gaeLambda, sqrt), FlatAdvantages(q, s, gamma, gaeLambda, sqrt);
    if x.Values? {
      forall c, b, j | 0 <= c < s.chunks && 0 <= b < s.batch && 0 <= j < s.span && LossMaskOf(p, s)[c][b][j]
        ensures AdvantageTensor(x.xs, s)[c][b][j] == AdvantageTensor(y.xs, s)[c][b][j]
      {
        TensorEntry(x.xs, s, c, b, j);
        TensorEntry(y.xs, s, c, b, j);
        FlatEntry(LossMaskOf(p, s), s, c, b, j);
      }
    }
  }
}
