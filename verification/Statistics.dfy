/** Counts, sums and square sums that add up over any split, and the moments computed from them. */
module Statistics {
  import opened LossMask
  import opened Options
  import opened RealSums
  import opened Sequences

  datatype Stats = Stats(count: nat, sum: real, squares: real)

  const NO_STATS := Stats(0, 0.0, 0.0)

  function Square(x: real): real {
    x * x
  }

  function Squares(xs: seq<real>): (r: seq<real>)
    ensures |r| == |xs| && forall i :: 0 <= i < |xs| ==> r[i] == Square(xs[i])
  {
    seq(|xs|, i requires 0 <= i < |xs| => Square(xs[i]))
  }

  lemma SquaresTail(xs: seq<real>)
    requires xs != []
    ensures Squares(xs)[1..] == Squares(xs[1..])
  {
    hide Square;
  }

  function StatsOf(xs: seq<real>): Stats {
    Stats(|xs|, SumOf(xs), SumOf(Squares(xs)))
  }

  function Add(a: Stats, b: Stats): Stats {
    Stats(a.count + b.count, a.sum + b.sum, a.squares + b.squares)
  }

  /** `all_reduce` with SUM over what every rank holds. */
  function AllReduce(parts: seq<Stats>): Stats {
    if parts == [] then NO_STATS else Add(parts[0], AllReduce(parts[1..]))
  }

  function EachStats(shards: seq<seq<real>>): (r: seq<Stats>)
    ensures |r| == |shards| && forall i :: 0 <= i < |r| ==> r[i] == StatsOf(shards[i])
  {
    seq(|shards|, i requires 0 <= i < |shards| => StatsOf(shards[i]))
  }

  lemma StatsAppend(a: seq<real>, b: seq<real>)
    ensures StatsOf(a + b) == Add(StatsOf(a), StatsOf(b))
  {
    hide Square;
    SumOfAppend(a, b);
    assert Squares(a + b) == Squares(a) + Squares(b);
    SumOfAppend(Squares(a), Squares(b));
  }

  /** Reducing the statistics of the shards gives the statistics of the whole, however it was split. */
  lemma {:induction false} MergeIsWhole(shards: seq<seq<real>>)
    ensures AllReduce(EachStats(shards)) == StatsOf(Flatten(shards))
  {
    hide StatsOf;
    if shards == [] {
      StatsOfNone();
    } else {
      MergeIsWhole(shards[1..]);
      assert EachStats(shards)[1..] == EachStats(shards[1..]);
      StatsAppend(shards[0], Flatten(shards[1..]));
    }
  }

  lemma StatsOfNone()
    ensures StatsOf([]) == NO_STATS
  {
  }

  // ---------- masking ----------

  /** `masked_stats`. */
  function MaskedStats(xs: seq<real>, mask: seq<bool>): Stats
    requires |mask| == |xs|
  {
    StatsOf(Chosen(xs, mask))
  }

  /** `x * mask`. */
  function Zeroed(xs: seq<real>, mask: seq<bool>): (r: seq<real>)
    requires |mask| == |xs|
    ensures |r| == |xs| && forall i :: 0 <= i < |xs| ==> r[i] == if mask[i] then xs[i] else 0.0
  {
    seq(|xs|, i requires 0 <= i < |xs| => if mask[i] then xs[i] else 0.0)
  }

  /** Multiplying by the mask and counting it gives the statistics of the selected entries. */
  lemma {:induction false} ZeroedStats(xs: seq<real>, mask: seq<bool>)
    requires |mask| == |xs|
    ensures MaskedStats(xs, mask)
         == Stats(CountTrue(mask), SumOf(Zeroed(xs, mask)), SumOf(Squares(Zeroed(xs, mask))))
  {
    hide Square;
    if xs == [] {
    } else {
      ZeroedStats(xs[1..], mask[1..]);
      var z, rest := Zeroed(xs, mask), Chosen(xs[1..], mask[1..]);
      assert z[1..] == Zeroed(xs[1..], mask[1..]);
      SquaresTail(z);
      if mask[0] {
        StatsAppend([xs[0]], rest);
        StatsOfOne(xs[0]);
      } else {
        assert [] + rest == rest;
        SquareOfZero();
      }
    }
  }

  lemma SquareOfZero()
    ensures Square(0.0) == 0.0
  {
  }

  lemma StatsOfOne(x: real)
    ensures StatsOf([x]) == Stats(1, x, Square(x))
  {
    SumOfOne(x);
    assert Squares([x]) == [Square(x)];
    SumOfOne(Square(x));
  }

  // ---------- variance ----------

  /** `sum(x^2) / n - (sum(x) / n)^2`. */
  function OnePassVariance(s: Stats): real
    requires s.count >= 1
  {
    s.squares / s.count as real - (s.sum / s.count as real) * (s.sum / s.count as real)
  }

  /** The sum of squared deviations from m, from the square sum q, the sum s and the count n. */
  function Expansion(q: real, s: real, n: real, m: real): real {
    q - 2.0 * m * s + n * (m * m)
  }

  lemma {:induction false} DeviationsExpand(xs: seq<real>, m: real)
    ensures SquaredDeviations(xs, m) == Expansion(SumOf(Squares(xs)), SumOf(xs), |xs| as real, m)
  {
    hide Expansion;
    hide Square;
    if xs == [] {
      ExpandNone(m);
    } else {
      var rest := xs[1..];
      DeviationsExpand(rest, m);
      SquaresTail(xs);
      DeviationsHead(xs, m);
      ExpandStep(xs[0], m, SumOf(Squares(rest)), SumOf(rest), |rest| as real);
    }
  }

  lemma ExpandNone(m: real)
    ensures Expansion(0.0, 0.0, 0.0, m) == 0.0
  {
  }

  lemma DeviationsHead(xs: seq<real>, m: real)
    requires xs != []
    ensures SquaredDeviations(xs, m) == Square(xs[0] - m) + SquaredDeviations(xs[1..], m)
  {
  }

  lemma ExpandStep(x: real, m: real, q: real, s: real, n: real)
    ensures Square(x - m) + Expansion(q, s, n, m) == Expansion(Square(x) + q, x + s, n + 1.0, m)
  {
    assert (x - m) * (x - m) == x * x - 2.0 * m * x + m * m;
    assert 2.0 * m * (x + s) == 2.0 * m * x + 2.0 * m * s;
    assert (n + 1.0) * (m * m) == n * (m * m) + m * m;
  }

  /** The one-pass form is the mean squared deviation from the mean, so it is never negative. */
  lemma OnePassIsTwoPass(xs: seq<real>)
    requires xs != []
    ensures OnePassVariance(StatsOf(xs)) == SquaredDeviations(xs, Mean(xs)) / |xs| as real
    ensures OnePassVariance(StatsOf(xs)) >= 0.0
  {
    hide SumOf;
    hide Squares;
    hide SquaredDeviations;
    hide Expansion;
    hide OnePassVariance;
    DeviationsExpand(xs, Mean(xs));
    var s, n := StatsOf(xs), |xs| as real;
    ExpansionIsVariance(s, Mean(xs));
    QuotientNonNegative(SquaredDeviations(xs, Mean(xs)), n);
  }

  lemma ExpansionIsVariance(s: Stats, m: real)
    requires s.count >= 1 && m == s.sum / s.count as real
    ensures Expansion(s.squares, s.sum, s.count as real, m) / s.count as real == OnePassVariance(s)
  {
    MomentsAgree(s.squares, s.sum, s.count as real, m);
  }

  lemma MomentsAgree(q: real, s: real, n: real, m: real)
    requires n > 0.0 && m == s / n
    ensures Expansion(q, s, n, m) / n == q / n - m * m
  {
    assert n * m == s;
    assert n * (m * m) == s * m;
    assert Expansion(q, s, n, m) == q - s * m;
    assert (q - s * m) / n == q / n - (s * m) / n;
    assert (s * m) / n == m * m;
  }

  lemma QuotientNonNegative(x: real, n: real)
    requires x >= 0.0 && n > 0.0
    ensures x / n >= 0.0
  {
  }

  /** `n * sum(x^2) >= (sum x)^2`. */
  ghost predicate Dominated(s: Stats) {
    s.count as real * s.squares >= Square(s.sum)
  }

  lemma SquaresDominate(xs: seq<real>)
    ensures Dominated(StatsOf(xs))
  {
    hide SquaredDeviations;
    hide OnePassVariance;
    hide Dominated;
    hide Mean;
    hide Squares;
    if xs == [] {
      StatsOfNone();
      NoneDominated();
    } else {
      OnePassIsTwoPass(xs);
      ClearDenominators(StatsOf(xs));
    }
  }

  lemma NoneDominated()
    ensures Dominated(NO_STATS)
  {
  }

  lemma ClearDenominators(s: Stats)
    requires s.count >= 1 && OnePassVariance(s) >= 0.0
    ensures Dominated(s)
  {
    hide OnePassVariance;
    var n := s.count as real;
    var m, p := s.sum / n, s.squares / n;
    assert p - m * m >= 0.0 by { OnePassVarianceIs(s); }
    ClearDenominator(s.sum, s.squares, n, m, p);
  }

  lemma OnePassVarianceIs(s: Stats)
    requires s.count >= 1
    ensures var m := s.sum / s.count as real; OnePassVariance(s) == s.squares / s.count as real - m * m
  {
  }

  lemma ClearDenominator(s: real, q: real, n: real, m: real, p: real)
    requires n > 0.0 && s == n * m && q == n * p && p - m * m >= 0.0
    ensures n * q >= s * s
  {
    var d := p - m * m;
    assert s * s == n * (n * (m * m));
    assert n * q == n * (n * (m * m + d));
    assert n * (m * m + d) == n * (m * m) + n * d;
    assert n * d >= 0.0;
    assert n * (n * d) >= 0.0;
  }

  /** The unbiased correction `n / (n - 1)` gives the sample variance. */
  lemma UnbiasedIsVariance(xs: seq<real>)
    requires |xs| >= 2
    ensures OnePassVariance(StatsOf(xs)) * (|xs| as real / (|xs| as real - 1.0)) == Variance(xs)
  {
    hide SquaredDeviations;
    hide StatsOf;
    hide OnePassVariance;
    hide Mean;
    OnePassIsTwoPass(xs);
    Rescale(SquaredDeviations(xs, Mean(xs)), |xs| as real);
  }

  lemma Rescale(x: real, n: real)
    requires n >= 2.0
    ensures x / n * (n / (n - 1.0)) == x / (n - 1.0)
  {
    var y, z := x / n, n / (n - 1.0);
    assert y * n == x;
    assert z == n * (1.0 / (n - 1.0));
    assert y * z == y * n * (1.0 / (n - 1.0));
  }

  // ---------- one pass and two passes over the ranks ----------

  datatype Shard = Shard(values: seq<real>, mask: seq<bool>)

  ghost predicate Shaped(ranks: seq<Shard>) {
    forall r :: 0 <= r < |ranks| ==> |ranks[r].mask| == |ranks[r].values|
  }

  /** What every rank selects. */
  ghost function Kept(ranks: seq<Shard>): (k: seq<seq<real>>)
    requires Shaped(ranks)
    ensures |k| == |ranks| && forall r :: 0 <= r < |k| ==> k[r] == Chosen(ranks[r].values, ranks[r].mask)
  {
    seq(|ranks|, r requires 0 <= r < |ranks| => Chosen(ranks[r].values, ranks[r].mask))
  }

  /** What every rank contributes to the all-reduces. */
  ghost function RankStats(ranks: seq<Shard>): (k: seq<Stats>)
    requires Shaped(ranks)
    ensures |k| == |ranks| && forall r :: 0 <= r < |k| ==> k[r] == MaskedStats(ranks[r].values, ranks[r].mask)
  {
    seq(|ranks|, r requires 0 <= r < |ranks| => MaskedStats(ranks[r].values, ranks[r].mask))
  }

  function MinusAll(xs: seq<real>, m: real): (r: seq<real>)
    ensures |r| == |xs| && forall i :: 0 <= i < |xs| ==> r[i] == xs[i] - m
  {
    seq(|xs|, i requires 0 <= i < |xs| => xs[i] - m)
  }

  /** `((values * mask - mean) ** 2 * mask).sum()` of one rank. */
  function MaskedSquares(s: Shard, mean: real): real
    requires |s.mask| == |s.values|
  {
    SumOf(Zeroed(Squares(MinusAll(Zeroed(s.values, s.mask), mean)), s.mask))
  }

  lemma {:induction false} MaskedSquaresAre(s: Shard, mean: real)
    requires |s.mask| == |s.values|
    ensures MaskedSquares(s, mean) == SquaredDeviations(Chosen(s.values, s.mask), mean)
    decreases |s.values|
  {
    hide Square;
    hide SquaredDeviations;
    if s.values == [] {
      DeviationsNone(mean);
    } else {
      var rest := Shard(s.values[1..], s.mask[1..]);
      MaskedSquaresAre(rest, mean);
      var z := Zeroed(Squares(MinusAll(Zeroed(s.values, s.mask), mean)), s.mask);
      assert z[1..] == Zeroed(Squares(MinusAll(Zeroed(rest.values, rest.mask), mean)), rest.mask);
      ChosenHead(s.values, s.mask);
      var chosen := Chosen(rest.values, rest.mask);
      if s.mask[0] {
        DeviationsHead([s.values[0]] + chosen, mean);
        assert ([s.values[0]] + chosen)[1..] == chosen;
      } else {
        assert [] + chosen == chosen;
      }
    }
  }

  /** ... added over the ranks. */
  ghost function TwoPassSum(ranks: seq<Shard>, mean: real): real
    requires Shaped(ranks)
  {
    if ranks == [] then 0.0 else MaskedSquares(ranks[0], mean) + TwoPassSum(ranks[1..], mean)
  }

  lemma {:induction false} DeviationsAppend(a: seq<real>, b: seq<real>, m: real)
    ensures SquaredDeviations(a + b, m) == SquaredDeviations(a, m) + SquaredDeviations(b, m)
  {
    hide Square;
    if a == [] {
      assert a + b == b;
    } else {
      assert (a + b)[1..] == a[1..] + b;
      DeviationsAppend(a[1..], b, m);
      DeviationsHead(a, m);
      DeviationsHead(a + b, m);
    }
  }

  lemma {:induction false} TwoPassIsWhole(ranks: seq<Shard>, mean: real)
    requires Shaped(ranks)
    ensures TwoPassSum(ranks, mean) == SquaredDeviations(Flatten(Kept(ranks)), mean)
  {
    hide SquaredDeviations;
    hide Chosen;
    hide MaskedSquares;
    if ranks == [] {
      DeviationsNone(mean);
    } else {
      TwoPassIsWhole(ranks[1..], mean);
      MaskedSquaresAre(ranks[0], mean);
      assert Kept(ranks)[1..] == Kept(ranks[1..]);
      DeviationsAppend(Kept(ranks)[0], Flatten(Kept(ranks[1..])), mean);
    }
  }

  lemma DeviationsNone(m: real)
    ensures SquaredDeviations([], m) == 0.0
  {
  }

  /** The reduced statistics are those of everything the ranks select together. */
  lemma RanksReduceToWhole(ranks: seq<Shard>)
    requires Shaped(ranks)
    ensures AllReduce(RankStats(ranks)) == StatsOf(Flatten(Kept(ranks)))
  {
    hide StatsOf;
    assert RankStats(ranks) == EachStats(Kept(ranks));
    MergeIsWhole(Kept(ranks));
  }

  /**
    `masked_normalization` and `masked_global_mean_var` agree on mean and variance, however the values are spread
    over the ranks: the one-pass variance of the reduced statistics is the reduced two-pass sum over the count.
  */
  lemma OnePassAgreesAcrossRanks(ranks: seq<Shard>)
    requires Shaped(ranks) && AllReduce(RankStats(ranks)).count >= 1
    ensures var s := AllReduce(RankStats(ranks));
            OnePassVariance(s) == TwoPassSum(ranks, s.sum / s.count as real) / s.count as real &&
            OnePassVariance(s) >= 0.0
  {
    hide OnePassVariance;
    hide SquaredDeviations;
    hide TwoPassSum;
    hide AllReduce;
    hide RankStats;
    RanksReduceToWhole(ranks);
    var all := Flatten(Kept(ranks));
    OnePassIsTwoPass(all);
    TwoPassIsWhole(ranks, Mean(all));
  }

  // ---------- normalizing over the ranks ----------

  datatype Outcome = NotNumbers | Ranks(values: seq<seq<real>>)

  /** `var *= n / (n - 1)` when unbiased. */
  function Corrected(s: Stats, unbiased: bool): real
    requires s.count >= 1 && (unbiased ==> s.count >= 2)
  {
    if unbiased then OnePassVariance(s) * (s.count as real / (s.count as real - 1.0)) else OnePassVariance(s)
  }

  function NormalizedShard(s: Shard, mean: real, factor: real): (r: seq<real>)
    requires |s.mask| == |s.values|
    ensures |r| == |s.values|
  {
    Scaled(Zeroed(s.values, s.mask), mean, factor)
  }

  function NormalizedShards(ranks: seq<Shard>, mean: real, factor: real): (r: seq<seq<real>>)
    requires forall i :: 0 <= i < |ranks| ==> |ranks[i].mask| == |ranks[i].values|
    ensures |r| == |ranks|
    ensures forall i :: 0 <= i < |r| ==> r[i] == NormalizedShard(ranks[i], mean, factor)
  {
    seq(|ranks|, i requires 0 <= i < |ranks| => NormalizedShard(ranks[i], mean, factor))
  }

  /** The result of every rank, given the reduced statistics; without enough entries it is not a number. */
  function FromStats(s: Stats, ranks: seq<Shard>, unbiased: bool, eps: real, sqrt: real -> real): Outcome
    requires forall i :: 0 <= i < |ranks| ==> |ranks[i].mask| == |ranks[i].values|
  {
    if s.count == 0 || (unbiased && s.count == 1) then NotNumbers
    else
      var d := sqrt(Corrected(s, unbiased)) + eps;
      if d == 0.0 then NotNumbers else Ranks(NormalizedShards(ranks, s.sum / s.count as real, Reciprocal(d)))
  }

  /** `masked_normalization` on all ranks. */
  ghost function NormalizeRanks(ranks: seq<Shard>, unbiased: bool, eps: real, sqrt: real -> real): Outcome
    requires Shaped(ranks)
  {
    FromStats(AllReduce(RankStats(ranks)), ranks, unbiased, eps, sqrt)
  }

  /** All shards put on one rank. */
  ghost function Joined(ranks: seq<Shard>): (s: Shard)
    requires Shaped(ranks)
    ensures |s.mask| == |s.values|
  {
    if ranks == [] then Shard([], [])
    else var rest := Joined(ranks[1..]); Shard(ranks[0].values + rest.values, ranks[0].mask + rest.mask)
  }

  lemma ChosenHead(xs: seq<real>, mask: seq<bool>)
    requires |mask| == |xs| && xs != []
    ensures Chosen(xs, mask) == (if mask[0] then [xs[0]] else []) + Chosen(xs[1..], mask[1..])
  {
  }

  lemma {:induction false} ChosenAppend(a: seq<real>, m: seq<bool>, b: seq<real>, n: seq<bool>)
    requires |a| == |m| && |b| == |n|
    ensures Chosen(a + b, m + n) == Chosen(a, m) + Chosen(b, n)
  {
    hide Chosen;
    if a == [] {
      ChosenNone();
      assert a + b == b && m + n == n && m == [];
    } else {
      assert (a + b)[1..] == a[1..] + b && (m + n)[1..] == m[1..] + n;
      ChosenAppend(a[1..], m[1..], b, n);
      ChosenHead(a, m);
      ChosenHead(a + b, m + n);
    }
  }

  lemma {:induction false} JoinedKept(ranks: seq<Shard>)
    requires Shaped(ranks)
    ensures Chosen(Joined(ranks).values, Joined(ranks).mask) == Flatten(Kept(ranks))
  {
    hide Chosen;
    if ranks == [] {
      ChosenNone();
    } else {
      JoinedKept(ranks[1..]);
      assert Kept(ranks)[1..] == Kept(ranks[1..]);
      var rest := Joined(ranks[1..]);
      ChosenAppend(ranks[0].values, ranks[0].mask, rest.values, rest.mask);
    }
  }

  lemma ChosenNone()
    ensures Chosen([], []) == []
  {
  }

  lemma NormalizedShardAppend(a: Shard, b: Shard, mean: real, factor: real)
    requires |a.mask| == |a.values| && |b.mask| == |b.values|
    ensures NormalizedShard(Shard(a.values + b.values, a.mask + b.mask), mean, factor)
         == NormalizedShard(a, mean, factor) + NormalizedShard(b, mean, factor)
  {
    hide Affine;
    var both := Zeroed(a.values + b.values, a.mask + b.mask);
    assert both == Zeroed(a.values, a.mask) + Zeroed(b.values, b.mask);
  }

  lemma {:induction false} JoinedNormalized(ranks: seq<Shard>, mean: real, factor: real)
    requires Shaped(ranks)
    ensures NormalizedShard(Joined(ranks), mean, factor) == Flatten(NormalizedShards(ranks, mean, factor))
  {
    hide NormalizedShard;
    if ranks == [] {
    } else {
      JoinedNormalized(ranks[1..], mean, factor);
      assert NormalizedShards(ranks, mean, factor)[1..] == NormalizedShards(ranks[1..], mean, factor);
      NormalizedShardAppend(ranks[0], Joined(ranks[1..]), mean, factor);
    }
  }

  /** Splitting a batch over ranks in any way changes neither whether the result is defined nor any of its values. */
  lemma SplitDoesNotMatter(ranks: seq<Shard>, unbiased: bool, eps: real, sqrt: real -> real)
    requires Shaped(ranks)
    ensures Shaped([Joined(ranks)])
    ensures var one := NormalizeRanks([Joined(ranks)], unbiased, eps, sqrt);
            var many := NormalizeRanks(ranks, unbiased, eps, sqrt);
            (one.NotNumbers? <==> many.NotNumbers?) &&
            (many.Ranks? ==> one.values == [Flatten(many.values)])
  {
    hide Corrected;
    hide NormalizedShard;
    hide Chosen;
    hide AllReduce;
    hide RankStats;
    hide StatsOf;
    hide Reciprocal;
    JoinedStats(ranks);
    var many := NormalizeRanks(ranks, unbiased, eps, sqrt);
    if many.Ranks? {
      var s := AllReduce(RankStats(ranks));
      JoinedNormalized(ranks, s.sum / s.count as real, Reciprocal(sqrt(Corrected(s, unbiased)) + eps));
    }
  }

  lemma JoinedStats(ranks: seq<Shard>)
    requires Shaped(ranks)
    ensures Shaped([Joined(ranks)]) && AllReduce(RankStats([Joined(ranks)])) == AllReduce(RankStats(ranks))
  {
    hide Chosen;
    hide AllReduce;
    hide RankStats;
    hide StatsOf;
    var whole := [Joined(ranks)];
    RanksReduceToWhole(ranks);
    RanksReduceToWhole(whole);
    JoinedKept(ranks);
    assert Kept(whole) == [Flatten(Kept(ranks))];
    FlattenSingleton(Flatten(Kept(ranks)));
  }

  /** With eps > 0 the result is defined exactly when there are enough selected entries. */
  lemma DefinedIff(ranks: seq<Shard>, unbiased: bool, eps: real, sqrt: real -> real)
    requires Shaped(ranks) && IsRoot(sqrt) && eps > 0.0
    ensures NormalizeRanks(ranks, unbiased, eps, sqrt).Ranks? <==>
            |Flatten(Kept(ranks))| >= if unbiased then 2 else 1
  {
    hide OnePassVariance;
    hide IsRoot;
    hide AllReduce;
    hide RankStats;
    hide NormalizedShards;
    var all := Flatten(Kept(ranks));
    RanksReduceToWhole(ranks);
    if |all| >= if unbiased then 2 else 1 {
      OnePassIsTwoPass(all);
      CorrectedNonNegative(StatsOf(all), unbiased);
      RootOf(sqrt, Corrected(StatsOf(all), unbiased));
    }
  }

  lemma CorrectedNonNegative(s: Stats, unbiased: bool)
    requires s.count >= 1 && (unbiased ==> s.count >= 2) && OnePassVariance(s) >= 0.0
    ensures Corrected(s, unbiased) >= 0.0
  {
    hide OnePassVariance;
    if unbiased {
      var n, v := s.count as real, OnePassVariance(s);
      var c := n / (n - 1.0);
      assert c > 0.0;
      assert v * c >= 0.0;
    }
  }

  lemma RootOf(sqrt: real -> real, x: real)
    requires IsRoot(sqrt) && x >= 0.0
    ensures sqrt(x) >= 0.0
  {
  }

  lemma {:induction false} ChosenZeroed(xs: seq<real>, mask: seq<bool>)
    requires |mask| == |xs|
    ensures Chosen(Zeroed(xs, mask), mask) == Chosen(xs, mask)
  {
    if xs == [] {
    } else {
      assert Zeroed(xs, mask)[1..] == Zeroed(xs[1..], mask[1..]);
      ChosenZeroed(xs[1..], mask[1..]);
    }
  }

  /** What every rank's mask selects from its result. */
  ghost function KeptResults(ranks: seq<Shard>, results: seq<seq<real>>): (k: seq<seq<real>>)
    requires |results| == |ranks| && forall r :: 0 <= r < |ranks| ==> |results[r]| == |ranks[r].mask|
    ensures |k| == |ranks| && forall r :: 0 <= r < |k| ==> k[r] == Chosen(results[r], ranks[r].mask)
  {
    seq(|ranks|, r requires 0 <= r < |ranks| => Chosen(results[r], ranks[r].mask))
  }

  lemma ScaledAppend(a: seq<real>, b: seq<real>, m: real, c: real)
    ensures Scaled(a + b, m, c) == Scaled(a, m, c) + Scaled(b, m, c)
  {
    hide Affine;
  }

  lemma {:induction false} KeptScaled(ranks: seq<Shard>, mean: real, factor: real)
    requires Shaped(ranks)
    ensures Flatten(KeptResults(ranks, NormalizedShards(ranks, mean, factor)))
         == Scaled(Flatten(Kept(ranks)), mean, factor)
  {
    hide Affine;
    hide Chosen;
    if ranks == [] {
    } else {
      KeptScaled(ranks[1..], mean, factor);
      var results, first := NormalizedShards(ranks, mean, factor), ranks[0];
      assert results[1..] == NormalizedShards(ranks[1..], mean, factor);
      assert KeptResults(ranks, results)[1..] == KeptResults(ranks[1..], results[1..]);
      assert Kept(ranks)[1..] == Kept(ranks[1..]);
      ChosenScaled(Zeroed(first.values, first.mask), first.mask, mean, factor);
      ChosenZeroed(first.values, first.mask);
      ScaledAppend(Kept(ranks)[0], Flatten(Kept(ranks[1..])), mean, factor);
    }
  }

  /** What the masks of all ranks select sums to zero after normalization. */
  lemma NormalizedSumsToZero(ranks: seq<Shard>, unbiased: bool, eps: real, sqrt: real -> real)
    requires Shaped(ranks) && NormalizeRanks(ranks, unbiased, eps, sqrt).Ranks?
    ensures var results := NormalizeRanks(ranks, unbiased, eps, sqrt).values;
            |results| == |ranks| && (forall r :: 0 <= r < |ranks| ==> |results[r]| == |ranks[r].mask|) &&
            SumOf(Flatten(KeptResults(ranks, results))) == 0.0
  {
    hide Corrected;
    hide Affine;
    hide Chosen;
    hide AllReduce;
    hide RankStats;
    hide Mean;
    hide Reciprocal;
    hide KeptResults;
    RanksReduceToWhole(ranks);
    var all := Flatten(Kept(ranks));
    var factor := Reciprocal(sqrt(Corrected(StatsOf(all), unbiased)) + eps);
    MeanIs(all);
    KeptScaled(ranks, Mean(all), factor);
    CenteredSum(all, factor);
  }

  /** The variance the result is scaled by: of all selected values, over n or, unbiased, over n - 1. */
  ghost function SelectedVariance(all: seq<real>, unbiased: bool): real
    requires |all| >= if unbiased then 2 else 1
  {
    if unbiased then Variance(all) else SquaredDeviations(all, Mean(all)) / |all| as real
  }

  lemma CorrectedIs(all: seq<real>, unbiased: bool)
    requires |all| >= if unbiased then 2 else 1
    ensures Corrected(StatsOf(all), unbiased) == SelectedVariance(all, unbiased)
  {
    hide SquaredDeviations;
    hide Mean;
    hide Variance;
    hide OnePassVariance;
    if unbiased {
      UnbiasedIsVariance(all);
    } else {
      OnePassIsTwoPass(all);
    }
  }

  lemma ShardScale(s: Shard, m: real, d: real)
    requires |s.mask| == |s.values| && d != 0.0
    ensures forall i :: 0 <= i < |s.values| ==>
              NormalizedShard(s, m, Reciprocal(d))[i] * d == (if s.mask[i] then s.values[i] else 0.0) - m
  {
    hide Affine;
    hide Reciprocal;
    forall i | 0 <= i < |s.values|
      ensures NormalizedShard(s, m, Reciprocal(d))[i] * d == (if s.mask[i] then s.values[i] else 0.0) - m
    {
      AffineUndone(if s.mask[i] then s.values[i] else 0.0, m, d);
    }
  }

  /** Every entry of every rank, times d, is the masked value less m. */
  ghost predicate ScaledBy(ranks: seq<Shard>, results: seq<seq<real>>, m: real, d: real)
    requires Shaped(ranks)
  {
    |results| == |ranks| &&
    forall r :: 0 <= r < |ranks| ==>
      |results[r]| == |ranks[r].values| &&
      forall i :: 0 <= i < |results[r]| ==>
        results[r][i] * d == (if ranks[r].mask[i] then ranks[r].values[i] else 0.0) - m
  }

  lemma ShardsScale(ranks: seq<Shard>, m: real, d: real)
    requires Shaped(ranks) && d != 0.0
    ensures ScaledBy(ranks, NormalizedShards(ranks, m, Reciprocal(d)), m, d)
  {
    hide NormalizedShard;
    hide Reciprocal;
    forall r | 0 <= r < |ranks|
      ensures forall i :: 0 <= i < |ranks[r].values| ==>
        NormalizedShard(ranks[r], m, Reciprocal(d))[i] * d == (if ranks[r].mask[i] then ranks[r].values[i] else 0.0) - m
    {
      ShardScale(ranks[r], m, d);
    }
  }

  lemma RanksAre(ranks: seq<Shard>, unbiased: bool, eps: real, sqrt: real -> real)
    requires Shaped(ranks) && NormalizeRanks(ranks, unbiased, eps, sqrt).Ranks?
    ensures var all := Flatten(Kept(ranks));
            |all| >= (if unbiased then 2 else 1) &&
            var d := sqrt(SelectedVariance(all, unbiased)) + eps;
            d != 0.0 &&
            NormalizeRanks(ranks, unbiased, eps, sqrt).values == NormalizedShards(ranks, Mean(all), Reciprocal(d))
  {
    hide SelectedVariance;
    hide NormalizedShards;
    hide Corrected;
    hide AllReduce;
    hide RankStats;
    hide Mean;
    hide Reciprocal;
    RanksReduceToWhole(ranks);
    var all := Flatten(Kept(ranks));
    CorrectedIs(all, unbiased);
    MeanIs(all);
  }

  /**
    The scale. On every rank, each result times (the root of the variance of all selected values, plus eps) is the
    value, or 0 where the mask drops it, less the mean of all selected values; the squares of the selected results
    add up accordingly.
  */
  lemma NormalizedScale(ranks: seq<Shard>, unbiased: bool, eps: real, sqrt: real -> real)
    requires Shaped(ranks) && NormalizeRanks(ranks, unbiased, eps, sqrt).Ranks?
    ensures var all, results := Flatten(Kept(ranks)), NormalizeRanks(ranks, unbiased, eps, sqrt).values;
            |all| >= (if unbiased then 2 else 1) &&
            var d := sqrt(SelectedVariance(all, unbiased)) + eps;
            d != 0.0 && ScaledBy(ranks, results, Mean(all), d) &&
            SquaredDeviations(Flatten(KeptResults(ranks, results)), 0.0) * (d * d)
              == SquaredDeviations(all, Mean(all))
  {
    hide SquaredDeviations;
    hide SelectedVariance;
    hide NormalizeRanks;
    hide NormalizedShards;
    hide Mean;
    hide Reciprocal;
    hide KeptResults;
    RanksAre(ranks, unbiased, eps, sqrt);
    var all := Flatten(Kept(ranks));
    var d := sqrt(SelectedVariance(all, unbiased)) + eps;
    ShardsScale(ranks, Mean(all), d);
    KeptScaled(ranks, Mean(all), Reciprocal(d));
    SpreadScaled(all, Mean(all), d);
  }

  lemma MeanIs(xs: seq<real>)
    requires xs != []
    ensures Mean(xs) == SumOf(xs) / |xs| as real
  {
  }

  // ---------- the all-reduces, in place ----------

  /** `all_reduce` with SUM: every rank's cell becomes the total. */
  method AllReduceSum(cells: array<real>)
    modifies cells
    ensures forall r :: 0 <= r < cells.Length ==> cells[r] == SumOf(old(cells[..]))
  {
    ghost var before := cells[..];
    var total := 0.0;
    for r := 0 to cells.Length
      invariant total == SumOf(before[..r]) && cells[..] == before
    {
      assert before[..r + 1] == before[..r] + [before[r]];
      SumOfAppend(before[..r], [before[r]]);
      SumOfOne(before[r]);
      total := total + cells[r];
    }
    assert before[..cells.Length] == before;
    for r := 0 to cells.Length
      invariant forall i :: 0 <= i < r ==> cells[i] == total
    {
      cells[r] := total;
    }
  }

  ghost function Counts(parts: seq<Stats>): (r: seq<real>)
    ensures |r| == |parts| && forall i :: 0 <= i < |r| ==> r[i] == parts[i].count as real
  {
    seq(|parts|, i requires 0 <= i < |parts| => parts[i].count as real)
  }

  ghost function Sums(parts: seq<Stats>): (r: seq<real>)
    ensures |r| == |parts| && forall i :: 0 <= i < |r| ==> r[i] == parts[i].sum
  {
    seq(|parts|, i requires 0 <= i < |parts| => parts[i].sum)
  }

  ghost function SquareSums(parts: seq<Stats>): (r: seq<real>)
    ensures |r| == |parts| && forall i :: 0 <= i < |r| ==> r[i] == parts[i].squares
  {
    seq(|parts|, i requires 0 <= i < |parts| => parts[i].squares)
  }

  lemma {:induction false} ReducedFields(parts: seq<Stats>)
    ensures AllReduce(parts).count as real == SumOf(Counts(parts))
    ensures AllReduce(parts).sum == SumOf(Sums(parts))
    ensures AllReduce(parts).squares == SumOf(SquareSums(parts))
  {
    if parts == [] {
    } else {
      ReducedFields(parts[1..]);
      assert Counts(parts)[1..] == Counts(parts[1..]);
      assert Sums(parts)[1..] == Sums(parts[1..]);
      assert SquareSums(parts)[1..] == SquareSums(parts[1..]);
    }
  }

  /** A rank's tensor: for every index of the other dimensions, its entries along the normalized ones. */
  datatype Slices = Slices(values: seq<seq<real>>, mask: Option<seq<bool>>)

  /** A mask covers the normalized dimensions and has size one along the others, so all slices share it. */
  ghost predicate Regular(ranks: seq<Slices>, count: nat) {
    forall r :: 0 <= r < |ranks| ==>
      |ranks[r].values| == count &&
      (ranks[r].mask.Some? ==> forall i :: 0 <= i < count ==> |ranks[r].values[i]| == |ranks[r].mask.value|)
  }

  /** One slice of one rank, without a mask with everything selected. */
  function ShardOf(x: Slices, i: nat): (s: Shard)
    requires i < |x.values| && (x.mask.Some? ==> |x.values[i]| == |x.mask.value|)
    ensures |s.mask| == |s.values|
  {
    Shard(x.values[i], if x.mask.Some? then x.mask.value else Repeat(true, |x.values[i]|))
  }

  /** Slice i of every rank. */
  function SliceOf(ranks: seq<Slices>, i: nat): (r: seq<Shard>)
    requires forall j :: 0 <= j < |ranks| ==>
      i < |ranks[j].values| && (ranks[j].mask.Some? ==> |ranks[j].values[i]| == |ranks[j].mask.value|)
    ensures |r| == |ranks| && forall j :: 0 <= j < |r| ==> r[j] == ShardOf(ranks[j], i)
    ensures Shaped(r)
  {
    seq(|ranks|, j requires 0 <= j < |ranks| => ShardOf(ranks[j], i))
  }

  lemma {:induction false} CountAll(n: nat)
    ensures CountTrue(Repeat(true, n)) == n
  {
    if n > 0 {
      CountAll(n - 1);
      assert Repeat(true, n)[1..] == Repeat(true, n - 1);
    }
  }

  /** The factor, sum and square sum of every rank before the all-reduces. */
  method LocalSums(ranks: seq<Slices>, count: nat, i: nat)
      returns (counts: array<real>, sums: array<real>, squares: array<real>)
    requires Regular(ranks, count) && i < count
    ensures fresh(counts) && fresh(sums) && fresh(squares) && counts != sums && counts != squares && sums != squares
    ensures counts[..] == Counts(RankStats(SliceOf(ranks, i)))
    ensures sums[..] == Sums(RankStats(SliceOf(ranks, i)))
    ensures squares[..] == SquareSums(RankStats(SliceOf(ranks, i)))
  {
    hide MaskedStats;
    hide SumOf;
    hide CountTrue;
    var n := |ranks|;
    counts, sums, squares := new real[n], new real[n], new real[n];
    ghost var parts := RankStats(SliceOf(ranks, i));
    for r := 0 to n
      invariant forall j :: 0 <= j < r ==>
        counts[j] == parts[j].count as real && sums[j] == parts[j].sum && squares[j] == parts[j].squares
    {
      var x := ranks[r].values[i];
      ghost var shard := ShardOf(ranks[r], i);
      ZeroedStats(shard.values, shard.mask);
      if ranks[r].mask.None? {
        CountAll(|x|);
        assert Zeroed(x, Repeat(true, |x|)) == x;
        counts[r] := |x| as real;
      } else {
        x := Zeroed(x, ranks[r].mask.value);
        counts[r] := CountTrue(ranks[r].mask.value) as real;
      }
      sums[r] := SumOf(x);
      squares[r] := SumOf(Squares(x));
    }
  }

  /** The variance and its correction, from the reduced count, sum and square sum. */
  method VarianceFrom(n: real, sum: real, squares: real, unbiased: bool, ghost s: Stats) returns (variance: real)
    requires s.count >= 1 && (unbiased ==> s.count >= 2)
    requires n == s.count as real && sum == s.sum && squares == s.squares
    ensures variance == Corrected(s, unbiased)
  {
    var mean := sum / n;
    variance := squares / n - mean * mean;
    if unbiased {
      variance := variance * (n / (n - 1.0));
    }
  }

  /** One slice: local sums, three all-reduces, then every rank normalizes its shard. */
  method NormalizeSlice(ranks: seq<Slices>, count: nat, i: nat, unbiased: bool, eps: real, sqrt: real -> real)
      returns (o: Outcome)
    requires Regular(ranks, count) && i < count && ranks != []
    ensures o == NormalizeRanks(SliceOf(ranks, i), unbiased, eps, sqrt)
  {
    hide RankStats;
    hide Corrected;
    hide NormalizedShards;
    hide AllReduce;
    hide Reciprocal;
    hide Counts;
    hide Sums;
    hide SquareSums;
    hide SumOf;
    hide ShardOf;
    var shards := SliceOf(ranks, i);
    var counts, sums, squares := LocalSums(ranks, count, i);
    ghost var s := AllReduce(RankStats(shards));
    ReducedFields(RankStats(shards));
    AllReduceSum(counts);
    AllReduceSum(sums);
    AllReduceSum(squares);
    var n := counts[0];
    if n == 0.0 || (unbiased && n == 1.0) {
      return NotNumbers;
    }
    var variance := VarianceFrom(n, sums[0], squares[0], unbiased, s);
    var d := sqrt(variance) + eps;
    if d == 0.0 {
      return NotNumbers;
    }
    o := Ranks(NormalizedShards(shards, sums[0] / n, Reciprocal(d)));
  }

  /** `masked_normalization` on all ranks, with or without a mask, over all dimensions (one slice) or some. */
  method MaskedNormalization(ranks: seq<Slices>, count: nat, unbiased: bool, eps: real, sqrt: real -> real)
      returns (os: seq<Outcome>)
    requires Regular(ranks, count) && ranks != []
    ensures |os| == count
    ensures forall i :: 0 <= i < count ==> os[i] == NormalizeRanks(SliceOf(ranks, i), unbiased, eps, sqrt)
  {
    hide NormalizeRanks;
    os := [];
    for i := 0 to count
      invariant |os| == i
      invariant forall j :: 0 <= j < i ==> os[j] == NormalizeRanks(SliceOf(ranks, j), unbiased, eps, sqrt)
    {
      var o := NormalizeSlice(ranks, count, i, unbiased, eps, sqrt);
      os := os + [o];
    }
  }

  // ---------- normalizing from given statistics ----------

  /** `clamp_min`. */
  function AtLeast(x: real, low: real): real {
    if x < low then low else x
  }

  /** The variance `normalize_from_stats` works with, count and variance clamped. */
  function ClampedVariance(s: Stats): real {
    var n := AtLeast(s.count as real, 1.0);
    AtLeast(s.squares / n - (s.sum / n) * (s.sum / n), 0.0)
  }

  /** `normalize_from_stats`, with root the square root of the variance plus 1e-5. */
  function NormalizeFromStats(xs: seq<real>, s: Stats, sqrt: real -> real): (r: Outcome)
  {
    var d := sqrt(ClampedVariance(s) + 0.00001);
    if d == 0.0 then NotNumbers
    else Ranks([Scaled(xs, s.sum / AtLeast(s.count as real, 1.0), Reciprocal(d))])
  }

  /** On statistics that come from values, clamping the variance changes nothing. */
  lemma ClampNeverActs(xs: seq<real>)
    ensures ClampedVariance(StatsOf(xs)) == if xs == [] then 0.0 else SquaredDeviations(xs, Mean(xs)) / |xs| as real
  {
    hide SquaredDeviations;
    hide Mean;
    hide Squares;
    if xs == [] {
      StatsOfNone();
      NoVariance();
    } else {
      OnePassIsTwoPass(xs);
      ClampedIsOnePass(StatsOf(xs));
    }
  }

  lemma NoVariance()
    ensures ClampedVariance(NO_STATS) == 0.0
  {
  }

  lemma ClampedIsOnePass(s: Stats)
    requires s.count >= 1 && OnePassVariance(s) >= 0.0
    ensures ClampedVariance(s) == OnePassVariance(s)
  {
  }

  lemma PositiveRoot(sqrt: real -> real, x: real)
    requires IsRoot(sqrt) && x > 0.0
    ensures sqrt(x) > 0.0
  {
    var r := sqrt(x);
    assert r * r == x;
  }

  lemma ClampedNonNegative(s: Stats)
    ensures ClampedVariance(s) + 0.00001 > 0.0
  {
  }

  /**
    Normalizing by the reduced statistics of all shards is always defined, and what the mask keeps sums to zero
    over the whole batch.
  */
  lemma FromReducedStatsSumsToZero(ranks: seq<Shard>, sqrt: real -> real)
    requires Shaped(ranks) && IsRoot(sqrt)
    ensures var all := Flatten(Kept(ranks));
            var o := NormalizeFromStats(all, AllReduce(RankStats(ranks)), sqrt);
            o.Ranks? && |o.values| == 1 && SumOf(o.values[0]) == 0.0
  {
    hide SquaredDeviations;
    hide ClampedVariance;
    hide Affine;
    hide Mean;
    hide AllReduce;
    hide RankStats;
    hide IsRoot;
    var all := Flatten(Kept(ranks));
    RanksReduceToWhole(ranks);
    var v := ClampedVariance(StatsOf(all)) + 0.00001;
    ClampedNonNegative(StatsOf(all));
    PositiveRoot(sqrt, v);
    if all != [] {
      MeanIs(all);
      CenteredSum(all, Reciprocal(sqrt(v)));
    }
  }

  lemma RootSquare(sqrt: real -> real, x: real)
    requires IsRoot(sqrt) && x >= 0.0
    ensures sqrt(x) * sqrt(x) == x
  {
  }

  /** The mean and the variance plus 1e-5 that the reduced statistics stand for. */
  lemma ReducedMoments(ranks: seq<Shard>, m: real, v: real)
    requires Shaped(ranks)
    requires var all := Flatten(Kept(ranks));
             m == (if all == [] then 0.0 else Mean(all)) &&
             v == (if all == [] then 0.0 else SquaredDeviations(all, m) / |all| as real)
    ensures var s := AllReduce(RankStats(ranks));
            s.sum / AtLeast(s.count as real, 1.0) == m && ClampedVariance(s) == v && v + 0.00001 > 0.0
  {
    hide SquaredDeviations;
    hide ClampedVariance;
    hide Mean;
    hide AllReduce;
    hide RankStats;
    var all := Flatten(Kept(ranks));
    RanksReduceToWhole(ranks);
    ClampNeverActs(all);
    ClampedNonNegative(StatsOf(all));
    if all == [] {
      StatsOfNone();
    } else {
      MeanIs(all);
    }
  }

  /**
    The scale: each result times the root of the mean squared deviation of all selected values plus 1e-5 is the value
    less their mean, for any values; with nothing selected, mean and deviation are 0.
  */
  lemma FromReducedStatsScale(ranks: seq<Shard>, xs: seq<real>, sqrt: real -> real)
    requires Shaped(ranks) && IsRoot(sqrt)
    ensures var all, o := Flatten(Kept(ranks)), NormalizeFromStats(xs, AllReduce(RankStats(ranks)), sqrt);
            var m := if all == [] then 0.0 else Mean(all);
            var v := if all == [] then 0.0 else SquaredDeviations(all, m) / |all| as real;
            o.Ranks? && |o.values| == 1 && |o.values[0]| == |xs| &&
            (forall i :: 0 <= i < |xs| ==> o.values[0][i] * sqrt(v + 0.00001) == xs[i] - m) &&
            SquaredDeviations(o.values[0], 0.0) * (v + 0.00001) == SquaredDeviations(xs, m)
  {
    hide SquaredDeviations;
    hide ClampedVariance;
    hide AtLeast;
    hide Affine;
    hide Mean;
    hide AllReduce;
    hide RankStats;
    hide IsRoot;
    hide Reciprocal;
    var all := Flatten(Kept(ranks));
    var m := if all == [] then 0.0 else Mean(all);
    var v := if all == [] then 0.0 else SquaredDeviations(all, m) / |all| as real;
    ReducedMoments(ranks, m, v);
    PositiveRoot(sqrt, v + 0.00001);
    RootSquare(sqrt, v + 0.00001);
    ScaledBack(xs, m, sqrt(v + 0.00001));
  }
}
