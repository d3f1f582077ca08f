/** The critic's explained variance, from statistics that are added over micro-batches and ranks. */
module ExplainedVariance {
  import opened LossMask
  import opened RealSums
  import opened Statistics

  /** The five sums: of the returns and of the errors, returns minus values. */
  datatype CriticStats = CriticStats(count: real, returnsSum: real, returnsSquares: real,
                                     errorsSum: real, errorsSquares: real)

  /** The returns and values the loss mask selects. */
  datatype Selected = Selected(returns_: seq<real>, values: seq<real>)

  ghost predicate Paired(s: Selected) {
    |s.returns_| == |s.values|
  }

  function Errors(s: Selected): (r: seq<real>)
    requires |s.returns_| == |s.values|
    ensures |r| == |s.returns_| && forall i :: 0 <= i < |r| ==> r[i] == s.returns_[i] - s.values[i]
  {
    seq(|s.returns_|, i requires 0 <= i < |s.returns_| => s.returns_[i] - s.values[i])
  }

  /** `compute_critic_explained_variance_stats`. */
  function StatsFor(s: Selected): CriticStats
    requires |s.returns_| == |s.values|
  {
    var r, e := StatsOf(s.returns_), StatsOf(Errors(s));
    CriticStats(r.count as real, r.sum, r.squares, e.sum, e.squares)
  }

  /** `sum(x^2) - sum(x)^2 / n`. */
  function CenteredSquares(count: real, sum: real, squares: real): real
    requires count != 0.0
  {
    squares - sum * sum / count
  }

  datatype Explained = NotANumber | Explained(x: real)

  /** `compute_critic_explained_variance_from_stats`. */
  function FromCriticStats(s: CriticStats): Explained {
    if s.count < 2.0 then Explained.NotANumber
    else
      var r := CenteredSquares(s.count, s.returnsSum, s.returnsSquares);
      if r == 0.0 then Explained.NotANumber
      else Explained.Explained(1.0 - CenteredSquares(s.count, s.errorsSum, s.errorsSquares) / r)
  }

  // ---------- what the sums mean ----------

  lemma CenteredIsVariance(s: Stats)
    requires s.count >= 1
    ensures CenteredSquares(s.count as real, s.sum, s.squares) == OnePassVariance(s) * s.count as real
  {
    CenteredAlgebra(s.sum, s.squares, s.count as real);
  }

  lemma CenteredAlgebra(s: real, q: real, n: real)
    requires n > 0.0
    ensures q - s * s / n == (q / n - (s / n) * (s / n)) * n
  {
    var m, p := s / n, q / n;
    assert s == m * n && q == p * n;
    assert s * s / n == s * m;
    assert (p - m * m) * n == p * n - m * m * n;
    assert m * m * n == m * (m * n);
  }

  /** The centered square sum is the sum of squared deviations from the mean. */
  lemma CenteredIsDeviations(xs: seq<real>)
    requires xs != []
    ensures var s := StatsOf(xs);
            CenteredSquares(s.count as real, s.sum, s.squares) == SquaredDeviations(xs, Mean(xs))
  {
    hide CenteredSquares;
    hide OnePassVariance;
    hide SquaredDeviations;
    hide Mean;
    hide Squares;
    OnePassIsTwoPass(xs);
    CenteredIsVariance(StatsOf(xs));
    Undivide(OnePassVariance(StatsOf(xs)), SquaredDeviations(xs, Mean(xs)), |xs| as real);
  }

  lemma Undivide(v: real, d: real, n: real)
    requires n > 0.0 && v == d / n
    ensures v * n == d
  {
  }

  ghost predicate Constant(xs: seq<real>) {
    forall i :: 0 <= i < |xs| ==> xs[i] == xs[0]
  }

  lemma {:induction false} DeviationsZeroIff(xs: seq<real>, m: real)
    ensures SquaredDeviations(xs, m) == 0.0 <==> forall i :: 0 <= i < |xs| ==> xs[i] == m
  {
    hide Square;
    if xs == [] {
      DeviationsNone(m);
    } else {
      DeviationsZeroIff(xs[1..], m);
      DeviationsHead(xs, m);
      SquareZeroIff(xs[0] - m);
      assert forall i :: 1 <= i < |xs| ==> xs[i] == xs[1..][i - 1];
    }
  }

  lemma SquareZeroIff(x: real)
    ensures Square(x) >= 0.0 && (Square(x) == 0.0 <==> x == 0.0)
  {
    if x != 0.0 {
      assert x * (x * (1.0 / x)) == x;
    }
  }

  lemma {:induction false} SumOfConstant(xs: seq<real>, c: real)
    requires forall i :: 0 <= i < |xs| ==> xs[i] == c
    ensures SumOf(xs) == |xs| as real * c
  {
    if xs == [] {
    } else {
      SumOfConstant(xs[1..], c);
      assert |xs| as real * c == c + (|xs| - 1) as real * c;
    }
  }

  /** No deviation from the mean at all, exactly when all entries are the same. */
  lemma NoDeviationIff(xs: seq<real>)
    requires xs != []
    ensures SquaredDeviations(xs, Mean(xs)) == 0.0 <==> Constant(xs)
  {
    hide SquaredDeviations;
    DeviationsZeroIff(xs, Mean(xs));
    if Constant(xs) {
      SumOfConstant(xs, xs[0]);
      MeanOfConstant(xs[0], |xs| as real);
    }
  }

  lemma MeanOfConstant(c: real, n: real)
    requires n > 0.0
    ensures n * c / n == c
  {
  }

  ghost function Unexplained(s: Selected): real
    requires Paired(s) && s.returns_ != []
  {
    SquaredDeviations(Errors(s), Mean(Errors(s)))
  }

  ghost function Spread(s: Selected): real
    requires s.returns_ != []
  {
    SquaredDeviations(s.returns_, Mean(s.returns_))
  }

  /** Computed from the sums, it is 1 minus the ratio of the errors' and the returns' squared deviations. */
  lemma ExplainedMeans(s: Selected)
    requires Paired(s)
    ensures FromCriticStats(StatsFor(s)) ==
      if |s.returns_| < 2 || Spread(s) == 0.0 then Explained.NotANumber
      else Explained.Explained(1.0 - Unexplained(s) / Spread(s))
  {
    hide CenteredSquares;
    hide SquaredDeviations;
    hide Mean;
    hide Squares;
    if |s.returns_| >= 2 {
      CenteredIsDeviations(s.returns_);
      CenteredIsDeviations(Errors(s));
    }
  }

  lemma AtMostOne(e: real, r: real)
    requires e >= 0.0 && r >= 0.0 && r != 0.0
    ensures 1.0 - e / r <= 1.0
    ensures 1.0 - e / r == 1.0 <==> e == 0.0
  {
    assert e / r * r == e;
  }

  /**
    Explained variance is defined exactly when there are two returns and they are not all the same. It is then at
    most 1, and 1 exactly when all errors are the same.
  */
  lemma ExplainedBounds(s: Selected)
    requires Paired(s)
    ensures FromCriticStats(StatsFor(s)).Explained? <==> |s.returns_| >= 2 && !Constant(s.returns_)
    ensures FromCriticStats(StatsFor(s)).Explained? ==>
      FromCriticStats(StatsFor(s)).x <= 1.0 && (FromCriticStats(StatsFor(s)).x == 1.0 <==> Constant(Errors(s)))
  {
    hide FromCriticStats;
    hide StatsFor;
    hide SquaredDeviations;
    hide Mean;
    hide Constant;
    ExplainedMeans(s);
    if |s.returns_| >= 2 {
      NoDeviationIff(s.returns_);
      NoDeviationIff(Errors(s));
      if Spread(s) != 0.0 {
        AtMostOne(Unexplained(s), Spread(s));
      }
    }
  }

  // ---------- micro-batches ----------

  function AddCritic(a: CriticStats, b: CriticStats): CriticStats {
    CriticStats(a.count + b.count, a.returnsSum + b.returnsSum, a.returnsSquares + b.returnsSquares,
                a.errorsSum + b.errorsSum, a.errorsSquares + b.errorsSquares)
  }

  function Total(parts: seq<CriticStats>): CriticStats {
    if parts == [] then CriticStats(0.0, 0.0, 0.0, 0.0, 0.0) else AddCritic(parts[0], Total(parts[1..]))
  }

  ghost predicate AllPaired(batches: seq<Selected>) {
    forall i :: 0 <= i < |batches| ==> Paired(batches[i])
  }

  ghost function EachFor(batches: seq<Selected>): (r: seq<CriticStats>)
    requires AllPaired(batches)
    ensures |r| == |batches| && forall i :: 0 <= i < |r| ==> r[i] == StatsFor(batches[i])
  {
    seq(|batches|, i requires 0 <= i < |batches| => StatsFor(batches[i]))
  }

  ghost function Together(batches: seq<Selected>): (s: Selected)
    requires AllPaired(batches)
    ensures Paired(s)
  {
    if batches == [] then Selected([], [])
    else
      var rest := Together(batches[1..]);
      Selected(batches[0].returns_ + rest.returns_, batches[0].values + rest.values)
  }

  lemma StatsForAppend(a: Selected, b: Selected)
    requires Paired(a) && Paired(b)
    ensures StatsFor(Selected(a.returns_ + b.returns_, a.values + b.values)) == AddCritic(StatsFor(a), StatsFor(b))
  {
    hide StatsOf;
    StatsAppend(a.returns_, b.returns_);
    ErrorsAppend(a, b);
    StatsAppend(Errors(a), Errors(b));
  }

  lemma ErrorsAppend(a: Selected, b: Selected)
    requires Paired(a) && Paired(b)
    ensures Errors(Selected(a.returns_ + b.returns_, a.values + b.values)) == Errors(a) + Errors(b)
  {
  }

  /** Adding the sums of the micro-batches gives the sums, and the explained variance, of all of them together. */
  lemma {:induction false} TotalIsTogether(batches: seq<Selected>)
    requires AllPaired(batches)
    ensures Total(EachFor(batches)) == StatsFor(Together(batches))
    ensures FromCriticStats(Total(EachFor(batches))) == FromCriticStats(StatsFor(Together(batches)))
  {
    hide StatsFor;
    hide FromCriticStats;
    if batches == [] {
      NothingFor();
    } else {
      TotalIsTogether(batches[1..]);
      assert EachFor(batches)[1..] == EachFor(batches[1..]);
      StatsForAppend(batches[0], Together(batches[1..]));
    }
  }

  lemma NothingFor()
    ensures StatsFor(Selected([], [])) == CriticStats(0.0, 0.0, 0.0, 0.0, 0.0)
  {
  }

  // ---------- the metrics dictionary ----------

  datatype Key = Count | ReturnsSum | ReturnsSquares | ErrorsSum | ErrorsSquares | Shown | Other(name: string)

  datatype Metric = Listed(items: seq<real>) | Single(x: real)

  const STAT_KEYS: seq<Key> := [Count, ReturnsSum, ReturnsSquares, ErrorsSum, ErrorsSquares]

  function MetricSum(m: Metric): real {
    match m
    case Listed(items) => SumOf(items)
    case Single(x) => x
  }

  class Metrics {
    var entries: map<Key, Metric>

    constructor (entries: map<Key, Metric>)
      ensures this.entries == entries
    {
      this.entries := entries;
    }

    /** `pop_critic_explained_variance_stats`: the sums leave the metrics, and the value shown so far with them. */
    method Pop() returns (stats: map<Key, real>)
      modifies this
      ensures forall k :: k in stats <==> k in STAT_KEYS && k in old(entries)
      ensures forall k :: k in stats ==> stats[k] == MetricSum(old(entries)[k])
      ensures forall k :: k in entries <==> k in old(entries) && k !in stats && (k == Shown ==> stats == map[])
      ensures forall k :: k in entries ==> entries[k] == old(entries)[k]
    {
      stats := map[];
      for i := 0 to |STAT_KEYS|
        invariant forall k :: k in stats <==> k in STAT_KEYS[..i] && k in old(entries)
        invariant forall k :: k in stats ==> stats[k] == MetricSum(old(entries)[k])
        invariant forall k :: k in entries <==> k in old(entries) && k !in stats
        invariant forall k :: k in entries ==> entries[k] == old(entries)[k]
      {
        var key := STAT_KEYS[i];
        assert STAT_KEYS[..i + 1] == STAT_KEYS[..i] + [key];
        if key in entries {
          stats := stats[key := MetricSum(entries[key])];
          entries := entries - {key};
        }
      }
      assert STAT_KEYS[..|STAT_KEYS|] == STAT_KEYS;
      if stats != map[] {
        entries := entries - {Shown};
      }
    }
  }

  ghost predicate Complete(stats: map<Key, real>) {
    forall k :: k in STAT_KEYS ==> k in stats
  }

  ghost function Packed(stats: map<Key, real>): CriticStats
    requires Complete(stats)
  {
    CriticStats(stats[Count], stats[ReturnsSum], stats[ReturnsSquares], stats[ErrorsSum], stats[ErrorsSquares])
  }

  function Field(s: CriticStats, k: Key): real {
    match k
    case Count => s.count
    case ReturnsSum => s.returnsSum
    case ReturnsSquares => s.returnsSquares
    case ErrorsSum => s.errorsSum
    case ErrorsSquares => s.errorsSquares
    case _ => 0.0
  }

  ghost function Fields(parts: seq<CriticStats>, k: Key): (r: seq<real>)
    ensures |r| == |parts| && forall i :: 0 <= i < |r| ==> r[i] == Field(parts[i], k)
  {
    seq(|parts|, i requires 0 <= i < |parts| => Field(parts[i], k))
  }

  lemma {:induction false} TotalOfFields(parts: seq<CriticStats>, k: Key)
    ensures SumOf(Fields(parts, k)) == Field(Total(parts), k)
  {
    if parts == [] {
    } else {
      TotalOfFields(parts[1..], k);
      assert Fields(parts, k)[1..] == Fields(parts[1..], k);
    }
  }

  /** Metrics in which every micro-batch was appended to the list of each key. */
  ghost predicate Recorded(entries: map<Key, Metric>, batches: seq<Selected>)
    requires AllPaired(batches)
  {
    forall k :: k in STAT_KEYS ==> k in entries && entries[k] == Listed(Fields(EachFor(batches), k))
  }

  /** What is popped from metrics recorded per micro-batch gives the explained variance of all of them together. */
  lemma PoppedIsTogether(entries: map<Key, Metric>, batches: seq<Selected>, stats: map<Key, real>)
    requires AllPaired(batches) && Recorded(entries, batches)
    requires forall k :: k in stats <==> k in STAT_KEYS && k in entries
    requires forall k :: k in stats ==> stats[k] == MetricSum(entries[k])
    ensures Complete(stats)
    ensures FromCriticStats(Packed(stats)) == FromCriticStats(StatsFor(Together(batches)))
  {
    hide FromCriticStats;
    hide StatsFor;
    hide SumOf;
    hide Total;
    TotalIsTogether(batches);
    var parts := EachFor(batches);
    forall k | k in STAT_KEYS ensures k in stats && stats[k] == Field(Total(parts), k) {
      TotalOfFields(parts, k);
    }
    assert STAT_KEYS[0] == Count && STAT_KEYS[1] == ReturnsSum && STAT_KEYS[2] == ReturnsSquares;
    assert STAT_KEYS[3] == ErrorsSum && STAT_KEYS[4] == ErrorsSquares;
  }
}
