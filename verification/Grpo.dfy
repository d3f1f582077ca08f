/** Group-relative advantages: the plain form, and the multi-turn form in trajectory mode and in turn mode. */
module Grpo {
  import opened Arithmetic
  import opened Grouping
  import opened LossMask
  import opened RealSums
  import opened Sequences

  datatype Entry = Undefined | Number(x: real)

  datatype Mode = TrajectoryMode | TurnMode | UnknownMode

  datatype Failure = SizeMismatch | NoTurns | ZeroGroup | NotDivisible | InvalidMode

  datatype Result<+T> = Ok(value: T) | Failed(why: Failure)

  // ---------- normalizing within a group ----------

  /** `x - mean`, over `std + 1e-6`; a group with fewer than two entries has no deviation. */
  function Standardized(x: real, group: seq<real>, sqrt: real -> real): Entry {
    if |group| < 2 then Undefined
    else
      var d := sqrt(Variance(group)) + 0.000001;
      if d == 0.0 then Undefined else Number(Affine(x, Mean(group), Reciprocal(d)))
  }

  function StandardizedAll(xs: seq<real>, group: seq<real>, sqrt: real -> real): (r: seq<Entry>)
    ensures |r| == |xs| && forall i :: 0 <= i < |xs| ==> r[i] == Standardized(xs[i], group, sqrt)
  {
    seq(|xs|, i requires 0 <= i < |xs| => Standardized(xs[i], group, sqrt))
  }

  function Amount(e: Entry): real {
    if e.Number? then e.x else 0.0
  }

  function Amounts(es: seq<Entry>): (r: seq<real>)
    ensures |r| == |es| && forall i :: 0 <= i < |es| ==> r[i] == Amount(es[i])
  {
    seq(|es|, i requires 0 <= i < |es| => Amount(es[i]))
  }

  /** Every entry is a number and they sum to zero. */
  ghost predicate Centered(es: seq<Entry>) {
    (forall i :: 0 <= i < |es| ==> es[i].Number?) && SumOf(Amounts(es)) == 0.0
  }

  /** A group of at least two normalized against itself is centered. */
  lemma StandardizedCentered(xs: seq<real>, sqrt: real -> real)
    requires |xs| >= 2 && IsRoot(sqrt)
    ensures Centered(StandardizedAll(xs, xs, sqrt))
  {
    hide Variance;
    hide Mean;
    hide Affine;
    hide IsRoot;
    RootOfVariance(xs, sqrt);
    var c := Reciprocal(sqrt(Variance(xs)) + 0.000001);
    assert Amounts(StandardizedAll(xs, xs, sqrt)) == Scaled(xs, Mean(xs), c);
    CenteredSum(xs, c);
  }

  lemma StandardizedAre(xs: seq<real>, group: seq<real>, sqrt: real -> real, d: real)
    requires |group| >= 2 && d == sqrt(Variance(group)) + 0.000001 && d != 0.0
    ensures forall i :: 0 <= i < |xs| ==>
              StandardizedAll(xs, group, sqrt)[i] == Number(Scaled(xs, Mean(group), Reciprocal(d))[i])
    ensures Amounts(StandardizedAll(xs, group, sqrt)) == Scaled(xs, Mean(group), Reciprocal(d))
  {
    hide Variance;
    hide Mean;
    hide Affine;
    hide Reciprocal;
  }

  /**
    The scale: each result times the standard deviation of the group plus 1e-6 is the entry less the mean of the
    group, and the squares of the group's own results add up accordingly.
  */
  lemma StandardizedScale(xs: seq<real>, group: seq<real>, sqrt: real -> real)
    requires |group| >= 2 && IsRoot(sqrt)
    ensures var d, es := sqrt(Variance(group)) + 0.000001, StandardizedAll(xs, group, sqrt);
            (forall i :: 0 <= i < |xs| ==> es[i].Number? && es[i].x * d == xs[i] - Mean(group)) &&
            (xs == group ==> SquaredDeviations(Amounts(es), 0.0) * (d * d) == SquaredDeviations(xs, Mean(group)))
  {
    hide Variance;
    hide Mean;
    hide Standardized;
    hide Affine;
    hide Reciprocal;
    hide IsRoot;
    hide SquaredDeviations;
    RootOfVariance(group, sqrt);
    var d := sqrt(Variance(group)) + 0.000001;
    StandardizedAre(xs, group, sqrt, d);
    ScaledBack(xs, Mean(group), d);
  }

  function SquaredFrom(m: real): real -> real {
    x => (x - m) * (x - m)
  }

  lemma {:induction false} SquaredDeviationsSum(xs: seq<real>, m: real)
    ensures SquaredDeviations(xs, m) == SumOf(Map(SquaredFrom(m), xs))
  {
    if xs == [] {
    } else {
      SquaredDeviationsSum(xs[1..], m);
      assert Map(SquaredFrom(m), xs)[1..] == Map(SquaredFrom(m), xs[1..]);
    }
  }

  /** Only the multiset of a group matters. */
  lemma StandardizedPermutation(x: real, a: seq<real>, b: seq<real>, sqrt: real -> real)
    requires multiset(a) == multiset(b)
    ensures Standardized(x, a, sqrt) == Standardized(x, b, sqrt)
  {
    hide SquaredFrom;
    assert |a| == |multiset(a)| == |multiset(b)| == |b|;
    if |a| >= 2 {
      SumOfPermutation(a, b);
      var m := Mean(a);
      MapPermutation(SquaredFrom(m), a, b);
      SumOfPermutation(Map(SquaredFrom(m), a), Map(SquaredFrom(m), b));
      SquaredDeviationsSum(a, m);
      SquaredDeviationsSum(b, m);
    }
  }

  // ---------- the plain form ----------

  /** `compute_grpo_advantages` before masking: consecutive blocks of groupSize rewards are normalized alone. */
  function Plain(rewards: seq<real>, groupSize: nat, sqrt: real -> real): Result<seq<Entry>> {
    if groupSize == 0 then Failed(ZeroGroup)
    else if |rewards| % groupSize != 0 then Failed(NotDivisible)
    else Ok(seq(|rewards|, i requires 0 <= i < |rewards| =>
                  Standardized(rewards[i], Block(rewards, i / groupSize, groupSize), sqrt)))
  }

  /** Row q of `view(-1, size)`; nothing outside the array. */
  function Block(xs: seq<real>, q: nat, size: nat): seq<real> {
    seq(size, (j: nat) => if Member(q, j, size) < |xs| then xs[Member(q, j, size)] else 0.0)
  }

  /** The j-th of the size positions of block q. */
  function Member(q: nat, j: nat, size: nat): nat {
    q * size + j
  }

  // ---------- the multi-turn form ----------

  function TurnsOf(idxToTraj: seq<nat>, traj: nat): (r: seq<nat>)
    ensures Indices(r, |idxToTraj|)
  {
    PickAre(Range(|idxToTraj|), idxToTraj, traj);
    Pick(Range(|idxToTraj|), idxToTraj, traj)
  }

  /** The question of each turn. */
  function Questions(idxToTraj: seq<nat>, groupSize: nat): (r: seq<nat>)
    requires groupSize >= 1
    ensures |r| == |idxToTraj|
    ensures forall i :: 0 <= i < |r| ==> r[i] == idxToTraj[i] / groupSize
  {
    seq(|idxToTraj|, i requires 0 <= i < |idxToTraj| => idxToTraj[i] / groupSize)
  }

  function QuestionTurns(idxToTraj: seq<nat>, groupSize: nat, q: nat): (r: seq<nat>)
    requires groupSize >= 1
    ensures Indices(r, |idxToTraj|)
  {
    PickAre(Range(|idxToTraj|), Questions(idxToTraj, groupSize), q);
    Pick(Range(|idxToTraj|), Questions(idxToTraj, groupSize), q)
  }

  function Average(sum: real, count: nat): real {
    sum / (if count < 1 then 1 else count) as real
  }

  /** The average reward of a trajectory's turns, 0 for a trajectory without turns. */
  function TrajectoryReward(rewards: seq<real>, idxToTraj: seq<nat>, traj: nat): real
    requires |rewards| == |idxToTraj|
  {
    var turns := TurnsOf(idxToTraj, traj);
    Average(SumOf(Gather(rewards, turns)), |turns|)
  }

  lemma TurnsAre(idxToTraj: seq<nat>, traj: nat)
    ensures Increasing(TurnsOf(idxToTraj, traj))
    ensures forall i: nat :: i in TurnsOf(idxToTraj, traj) <==> i < |idxToTraj| && idxToTraj[i] == traj
  {
    hide Pick;
    PickIncreasing(Range(|idxToTraj|), idxToTraj, traj);
    forall i: nat | i < |idxToTraj| ensures i in TurnsOf(idxToTraj, traj) <==> idxToTraj[i] == traj {
      PickIff(Range(|idxToTraj|), idxToTraj, traj, i);
      assert Range(|idxToTraj|)[i] == i;
    }
  }

  lemma {:induction false} SumOfBounds(s: seq<real>, low: real, high: real)
    requires forall i :: 0 <= i < |s| ==> low <= s[i] <= high
    ensures |s| as real * low <= SumOf(s) <= |s| as real * high
  {
    if s == [] {
    } else {
      SumOfBounds(s[1..], low, high);
      assert |s| as real * low == low + |s[1..]| as real * low;
      assert |s| as real * high == high + |s[1..]| as real * high;
    }
  }

  lemma QuotientBounds(x: real, n: real, low: real, high: real)
    requires n > 0.0 && n * low <= n * x <= n * high
    ensures low <= x <= high
  {
    assert n * (x - low) >= 0.0 && n * (high - x) >= 0.0;
  }

  lemma AverageBetween(s: seq<real>, x: real, low: real, high: real)
    requires s != [] && |s| as real * x == SumOf(s) && forall i :: 0 <= i < |s| ==> low <= s[i] <= high
    ensures low <= x <= high
  {
    hide SumOf;
    SumOfBounds(s, low, high);
    QuotientBounds(x, |s| as real, low, high);
  }

  /**
    The reward of a trajectory, as many times as it has turns, is the sum of their rewards; without turns it is 0.
  */
  lemma RewardTimesTurns(rewards: seq<real>, idxToTraj: seq<nat>, traj: nat)
    requires |rewards| == |idxToTraj|
    ensures var turns := TurnsOf(idxToTraj, traj);
            |turns| as real * TrajectoryReward(rewards, idxToTraj, traj) == SumOf(Gather(rewards, turns))
    ensures traj !in idxToTraj ==> TrajectoryReward(rewards, idxToTraj, traj) == 0.0
  {
    hide TurnsOf;
    hide Average;
    TurnsAre(idxToTraj, traj);
    var turns := TurnsOf(idxToTraj, traj);
    if turns == [] {
      NoTurnsNoReward();
    } else {
      assert turns[0] in turns;
    }
    AverageTimesCount(SumOf(Gather(rewards, turns)), |turns|);
  }

  /** It lies between any bounds on the rewards of its turns, so equal rewards are its reward. */
  lemma RewardBetween(rewards: seq<real>, idxToTraj: seq<nat>, traj: nat, low: real, high: real)
    requires |rewards| == |idxToTraj| && traj in idxToTraj
    requires forall i :: 0 <= i < |rewards| && idxToTraj[i] == traj ==> low <= rewards[i] <= high
    ensures low <= TrajectoryReward(rewards, idxToTraj, traj) <= high
  {
    hide TurnsOf;
    hide TrajectoryReward;
    hide SumOf;
    TurnsAre(idxToTraj, traj);
    RewardTimesTurns(rewards, idxToTraj, traj);
    var turns := TurnsOf(idxToTraj, traj);
    var i :| 0 <= i < |idxToTraj| && idxToTraj[i] == traj;
    assert i in turns;
    forall j | 0 <= j < |turns| ensures low <= Gather(rewards, turns)[j] <= high {
      assert turns[j] in turns;
    }
    AverageBetween(Gather(rewards, turns), TrajectoryReward(rewards, idxToTraj, traj), low, high);
  }

  lemma AverageTimesCount(sum: real, count: nat)
    requires count == 0 ==> sum == 0.0
    ensures count as real * Average(sum, count) == sum
  {
  }

  lemma NoTurnsNoReward()
    ensures Average(0.0, 0) == 0.0 && SumOf([]) == 0.0
  {
  }

  function QuestionRewards(rewards: seq<real>, idxToTraj: seq<nat>, groupSize: nat, q: nat): (r: seq<real>)
    requires |rewards| == |idxToTraj|
    ensures |r| == groupSize
    ensures forall j :: 0 <= j < groupSize ==> r[j] == TrajectoryReward(rewards, idxToTraj, Member(q, j, groupSize))
  {
    seq(groupSize, (j: nat) => TrajectoryReward(rewards, idxToTraj, Member(q, j, groupSize)))
  }

  /** The advantage of a turn in trajectory mode: its trajectory against the trajectories of its question. */
  function ByTrajectory(rewards: seq<real>, idxToTraj: seq<nat>, groupSize: nat, sqrt: real -> real, i: nat): Entry
    requires |rewards| == |idxToTraj| && groupSize >= 1 && i < |rewards|
  {
    Standardized(TrajectoryReward(rewards, idxToTraj, idxToTraj[i]),
                 QuestionRewards(rewards, idxToTraj, groupSize, idxToTraj[i] / groupSize), sqrt)
  }

  /** The advantage of a turn in turn mode: the turn against all the turns of its question. */
  function ByTurn(rewards: seq<real>, idxToTraj: seq<nat>, groupSize: nat, sqrt: real -> real, i: nat): Entry
    requires |rewards| == |idxToTraj| && groupSize >= 1 && i < |rewards|
  {
    Standardized(rewards[i], Gather(rewards, QuestionTurns(idxToTraj, groupSize, idxToTraj[i] / groupSize)), sqrt)
  }

  /** The largest trajectory. */
  function LastOf(idxToTraj: seq<nat>): (m: nat)
    requires idxToTraj != []
    ensures m in idxToTraj && forall i :: 0 <= i < |idxToTraj| ==> idxToTraj[i] <= m
  {
    MaxOf(idxToTraj)
  }

  /** `compute_grpo_dynamic_advantages` before masking. */
  function Dynamic(rewards: seq<real>, idxToTraj: seq<nat>, groupSize: nat, mode: Mode, sqrt: real -> real)
      : Result<seq<Entry>>
  {
    if |rewards| != |idxToTraj| then Failed(SizeMismatch)
    else if idxToTraj == [] then Failed(NoTurns)
    else if groupSize == 0 then Failed(ZeroGroup)
    else if (LastOf(idxToTraj) + 1) % groupSize != 0 then Failed(NotDivisible)
    else match mode
      case TrajectoryMode => Ok(seq(|rewards|, i requires 0 <= i < |rewards| =>
                                      ByTrajectory(rewards, idxToTraj, groupSize, sqrt, i)))
      case TurnMode => Ok(seq(|rewards|, i requires 0 <= i < |rewards| =>
                                ByTurn(rewards, idxToTraj, groupSize, sqrt, i)))
      case UnknownMode => Failed(InvalidMode)
  }

  // ---------- each question sums to zero ----------

  function Select(es: seq<Entry>, p: seq<nat>): (r: seq<Entry>)
    requires forall i :: 0 <= i < |p| ==> p[i] < |es|
  {
    Gather(es, p)
  }

  lemma QuestionTurnsIff(idxToTraj: seq<nat>, groupSize: nat, q: nat, i: nat)
    requires groupSize >= 1 && i < |idxToTraj|
    ensures i in QuestionTurns(idxToTraj, groupSize, q) <==> idxToTraj[i] / groupSize == q
  {
    PickIff(Range(|idxToTraj|), Questions(idxToTraj, groupSize), q, i);
    assert Range(|idxToTraj|)[i] == i;
  }

  lemma QuestionTurnsAre(idxToTraj: seq<nat>, groupSize: nat, q: nat)
    requires groupSize >= 1
    ensures var turns := QuestionTurns(idxToTraj, groupSize, q);
            forall j :: 0 <= j < |turns| ==> idxToTraj[turns[j]] / groupSize == q
  {
    PickAre(Range(|idxToTraj|), Questions(idxToTraj, groupSize), q);
  }

  /** Turn mode: the advantages of a question's turns are numbers that sum to zero, if it has at least two turns. */
  lemma TurnsCentered(rewards: seq<real>, idxToTraj: seq<nat>, groupSize: nat, sqrt: real -> real, q: nat)
    requires IsRoot(sqrt) && groupSize >= 1
    requires Dynamic(rewards, idxToTraj, groupSize, TurnMode, sqrt).Ok?
    requires |QuestionTurns(idxToTraj, groupSize, q)| >= 2
    ensures Centered(Select(Dynamic(rewards, idxToTraj, groupSize, TurnMode, sqrt).value,
                            QuestionTurns(idxToTraj, groupSize, q)))
  {
    hide Standardized;
    hide QuestionTurns;
    hide IsRoot;
    hide Centered;
    var turns := QuestionTurns(idxToTraj, groupSize, q);
    QuestionTurnsAre(idxToTraj, groupSize, q);
    var group := Gather(rewards, turns);
    assert Select(Dynamic(rewards, idxToTraj, groupSize, TurnMode, sqrt).value, turns)
        == StandardizedAll(group, group, sqrt);
    StandardizedCentered(group, sqrt);
  }

  /**
    Trajectory mode: every turn has the advantage of its trajectory, and those of a question's trajectories are
    numbers that sum to zero, if groups have at least two trajectories.
  */
  lemma TrajectoriesCentered(rewards: seq<real>, idxToTraj: seq<nat>, groupSize: nat, sqrt: real -> real, q: nat)
    requires IsRoot(sqrt) && groupSize >= 2
    requires Dynamic(rewards, idxToTraj, groupSize, TrajectoryMode, sqrt).Ok?
    ensures |rewards| == |idxToTraj|
    ensures var group := QuestionRewards(rewards, idxToTraj, groupSize, q);
            var es := StandardizedAll(group, group, sqrt);
            Centered(es) && forall i :: 0 <= i < |rewards| && idxToTraj[i] / groupSize == q ==>
              Dynamic(rewards, idxToTraj, groupSize, TrajectoryMode, sqrt).value[i] == es[idxToTraj[i] % groupSize]
  {
    hide Standardized;
    hide TrajectoryReward;
    hide IsRoot;
    hide Centered;
    var group := QuestionRewards(rewards, idxToTraj, groupSize, q);
    StandardizedCentered(group, sqrt);
    forall i | 0 <= i < |rewards| && idxToTraj[i] / groupSize == q
      ensures ByTrajectory(rewards, idxToTraj, groupSize, sqrt, i)
           == StandardizedAll(group, group, sqrt)[idxToTraj[i] % groupSize]
    {
      Split(idxToTraj[i], groupSize);
    }
  }

  lemma MeanBetween(s: seq<real>, low: real, high: real)
    requires s != [] && forall i :: 0 <= i < |s| ==> low <= s[i] <= high
    ensures low <= Mean(s) <= high
  {
    hide Mean;
    MeanTimesCount(s);
    AverageBetween(s, Mean(s), low, high);
  }

  lemma ShortSum(n: real, r: real, sum: real)
    requires r > 0.0 ==> sum <= (n - 1.0) * r
    requires r < 0.0 ==> sum >= (n - 1.0) * r
    ensures r != 0.0 ==> sum != n * r
  {
  }

  /** The mean is not r if all entries are r or 0 and one of them is 0. */
  lemma MeanOff(s: seq<real>, r: real, i: nat)
    requires i < |s| && s[i] == 0.0 && r != 0.0 && forall j :: 0 <= j < |s| ==> s[j] == r || s[j] == 0.0
    ensures Mean(s) != r
  {
    hide Mean;
    hide SumOf;
    var rest := RemoveAt(s, i);
    MeanTimesCount(s);
    SumOfRemoveAt(s, i);
    SumOfBounds(rest, if r < 0.0 then r else 0.0, if r < 0.0 then 0.0 else r);
    ShortSum(|s| as real, r, SumOf(rest));
  }

  /** A trajectory without turns gets 0, one whose turns all have reward r gets r. */
  lemma EqualTurns(rewards: seq<real>, idxToTraj: seq<nat>, traj: nat, r: real)
    requires |rewards| == |idxToTraj|
    requires forall i :: 0 <= i < |rewards| && idxToTraj[i] == traj ==> rewards[i] == r
    ensures TrajectoryReward(rewards, idxToTraj, traj) == if traj in idxToTraj then r else 0.0
  {
    hide TrajectoryReward;
    RewardTimesTurns(rewards, idxToTraj, traj);
    if traj in idxToTraj {
      RewardBetween(rewards, idxToTraj, traj, r, r);
    }
  }

  /** Every trajectory of the question has a turn. */
  ghost predicate AllTaken(idxToTraj: seq<nat>, groupSize: nat, q: nat) {
    forall j: nat :: j < groupSize ==> Member(q, j, groupSize) in idxToTraj
  }

  lemma MemberQuestion(q: nat, j: nat, size: nat)
    requires size >= 1 && j < size
    ensures Member(q, j, size) / size == q
  {
    DivModUnique(Member(q, j, size), size, q, j);
  }

  lemma EqualQuestion(rewards: seq<real>, idxToTraj: seq<nat>, groupSize: nat, q: nat, r: real)
    requires |rewards| == |idxToTraj| && groupSize >= 1
    requires forall i :: 0 <= i < |rewards| && idxToTraj[i] / groupSize == q ==> rewards[i] == r
    ensures var group := QuestionRewards(rewards, idxToTraj, groupSize, q);
            forall j :: 0 <= j < groupSize ==> group[j] == if Member(q, j, groupSize) in idxToTraj then r else 0.0
  {
    hide TrajectoryReward;
    hide Member;
    forall j: nat | j < groupSize
      ensures TrajectoryReward(rewards, idxToTraj, Member(q, j, groupSize))
           == if Member(q, j, groupSize) in idxToTraj then r else 0.0
    {
      MemberQuestion(q, j, groupSize);
      EqualTurns(rewards, idxToTraj, Member(q, j, groupSize), r);
    }
  }

  /**
    Trajectory mode when all turns of a question have reward r: their advantages are 0 exactly when every trajectory
    of the question has a turn, or r is 0.
  */
  lemma EqualRewardsCancel(rewards: seq<real>, idxToTraj: seq<nat>, groupSize: nat, sqrt: real -> real,
                           q: nat, r: real, i: nat)
    requires IsRoot(sqrt) && groupSize >= 2
    requires Dynamic(rewards, idxToTraj, groupSize, TrajectoryMode, sqrt).Ok?
    requires |rewards| == |idxToTraj| && i < |rewards| && idxToTraj[i] / groupSize == q
    requires forall m :: 0 <= m < |rewards| && idxToTraj[m] / groupSize == q ==> rewards[m] == r
    ensures Dynamic(rewards, idxToTraj, groupSize, TrajectoryMode, sqrt).value[i] == Number(0.0)
            <==> r == 0.0 || AllTaken(idxToTraj, groupSize, q)
  {
    hide Standardized;
    hide TrajectoryReward;
    hide IsRoot;
    hide Mean;
    hide Variance;
    hide Member;
    var group := QuestionRewards(rewards, idxToTraj, groupSize, q);
    EqualQuestion(rewards, idxToTraj, groupSize, q, r);
    EqualTurns(rewards, idxToTraj, idxToTraj[i], r);
    if r == 0.0 || AllTaken(idxToTraj, groupSize, q) {
      MeanBetween(group, r, r);
    } else {
      var j: nat :| j < groupSize && Member(q, j, groupSize) !in idxToTraj;
      MeanOff(group, r, j);
    }
    StandardizedZero(r, group, sqrt);
  }

  lemma StandardizedZero(x: real, group: seq<real>, sqrt: real -> real)
    requires |group| >= 2 && IsRoot(sqrt)
    ensures Standardized(x, group, sqrt) == Number(0.0) <==> x == Mean(group)
  {
    hide Standardized;
    hide Mean;
    hide Variance;
    hide IsRoot;
    StandardizedScale([x], group, sqrt);
    RootOfVariance(group, sqrt);
    var d, e := sqrt(Variance(group)) + 0.000001, StandardizedAll([x], group, sqrt)[0];
    assert e == Standardized(x, group, sqrt) && e.x * d == [x][0] - Mean(group);
    if e.x != 0.0 {
      assert e.x * d != 0.0;
    }
  }

  /**
    The scale in both modes. Times the deviation of its group plus 1e-6, the advantage of a turn is its trajectory's
    reward less the mean of the question's trajectories, or its own reward less the mean of the question's turns.
  */
  lemma DynamicScale(rewards: seq<real>, idxToTraj: seq<nat>, groupSize: nat, mode: Mode, sqrt: real -> real, i: nat)
    requires IsRoot(sqrt) && Dynamic(rewards, idxToTraj, groupSize, mode, sqrt).Ok? && i < |rewards|
    ensures |rewards| == |idxToTraj| == |Dynamic(rewards, idxToTraj, groupSize, mode, sqrt).value| && groupSize >= 1
    ensures var q, e := idxToTraj[i] / groupSize, Dynamic(rewards, idxToTraj, groupSize, mode, sqrt).value[i];
            var group := if mode.TrajectoryMode? then QuestionRewards(rewards, idxToTraj, groupSize, q)
                         else Gather(rewards, QuestionTurns(idxToTraj, groupSize, q));
            var own := if mode.TrajectoryMode? then TrajectoryReward(rewards, idxToTraj, idxToTraj[i]) else rewards[i];
            (|group| >= 2 ==> e.Number? && e.x * (sqrt(Variance(group)) + 0.000001) == own - Mean(group)) &&
            (|group| < 2 ==> e == Undefined)
  {
    hide Standardized;
    hide TrajectoryReward;
    hide QuestionTurns;
    hide Mean;
    hide Variance;
    hide IsRoot;
    var q := idxToTraj[i] / groupSize;
    var group := if mode.TrajectoryMode? then QuestionRewards(rewards, idxToTraj, groupSize, q)
                 else Gather(rewards, QuestionTurns(idxToTraj, groupSize, q));
    var own := if mode.TrajectoryMode? then TrajectoryReward(rewards, idxToTraj, idxToTraj[i]) else rewards[i];
    if |group| >= 2 {
      StandardizedScale([own], group, sqrt);
      assert StandardizedAll([own], group, sqrt)[0] == Standardized(own, group, sqrt);
    } else {
      SmallGroup(own, group, sqrt);
    }
  }

  lemma SmallGroup(x: real, group: seq<real>, sqrt: real -> real)
    requires |group| < 2
    ensures Standardized(x, group, sqrt) == Undefined
  {
  }

  lemma Split(t: nat, size: nat)
    requires size >= 1
    ensures t == t / size * size + t % size && 0 <= t % size < size
  {
  }

  // ---------- questions do not influence each other ----------

  /** The rewards of the turns of question q are the same. */
  ghost predicate SameQuestion(a: seq<real>, b: seq<real>, idxToTraj: seq<nat>, groupSize: nat, q: nat)
    requires |a| == |b| == |idxToTraj| && groupSize >= 1
  {
    forall i :: 0 <= i < |a| && idxToTraj[i] / groupSize == q ==> a[i] == b[i]
  }

  lemma TurnsOfAre(idxToTraj: seq<nat>, traj: nat)
    ensures var turns := TurnsOf(idxToTraj, traj);
            forall j :: 0 <= j < |turns| ==> idxToTraj[turns[j]] == traj
  {
    PickAre(Range(|idxToTraj|), idxToTraj, traj);
  }

  lemma SameTrajectoryReward(a: seq<real>, b: seq<real>, idxToTraj: seq<nat>, groupSize: nat, traj: nat)
    requires |a| == |b| == |idxToTraj| && groupSize >= 1
    requires SameQuestion(a, b, idxToTraj, groupSize, traj / groupSize)
    ensures TrajectoryReward(a, idxToTraj, traj) == TrajectoryReward(b, idxToTraj, traj)
  {
    hide TurnsOf;
    TurnsOfAre(idxToTraj, traj);
    assert Gather(a, TurnsOf(idxToTraj, traj)) == Gather(b, TurnsOf(idxToTraj, traj));
  }

  lemma BlockMember(q: nat, j: nat, size: nat)
    requires j < size
    ensures Member(q, j, size) / size == q && Member(q, j, size) % size == j
  {
    DivModUnique(q * size + j, size, q, j);
  }

  /** In both modes, the advantages of a question's turns depend on the rewards of that question only. */
  lemma QuestionsIndependent(a: seq<real>, b: seq<real>, idxToTraj: seq<nat>, groupSize: nat, sqrt: real -> real,
                             i: nat)
    requires |a| == |b| == |idxToTraj| && groupSize >= 1 && i < |a|
    requires SameQuestion(a, b, idxToTraj, groupSize, idxToTraj[i] / groupSize)
    ensures ByTrajectory(a, idxToTraj, groupSize, sqrt, i) == ByTrajectory(b, idxToTraj, groupSize, sqrt, i)
    ensures ByTurn(a, idxToTraj, groupSize, sqrt, i) == ByTurn(b, idxToTraj, groupSize, sqrt, i)
  {
    hide Standardized;
    hide TrajectoryReward;
    hide QuestionTurns;
    var q := idxToTraj[i] / groupSize;
    SameTrajectoryReward(a, b, idxToTraj, groupSize, idxToTraj[i]);
    forall j: nat | j < groupSize
      ensures TrajectoryReward(a, idxToTraj, Member(q, j, groupSize))
           == TrajectoryReward(b, idxToTraj, Member(q, j, groupSize))
    {
      BlockMember(q, j, groupSize);
      SameTrajectoryReward(a, b, idxToTraj, groupSize, Member(q, j, groupSize));
    }
    assert QuestionRewards(a, idxToTraj, groupSize, q) == QuestionRewards(b, idxToTraj, groupSize, q);
    QuestionTurnsAre(idxToTraj, groupSize, q);
    assert Gather(a, QuestionTurns(idxToTraj, groupSize, q)) == Gather(b, QuestionTurns(idxToTraj, groupSize, q));
  }

  // ---------- the modes agree on single turns ----------

  /** Every trajectory up to the largest has exactly one turn. */
  ghost predicate OneTurnEach(idxToTraj: seq<nat>)
    requires idxToTraj != []
  {
    forall t :: 0 <= t <= LastOf(idxToTraj) ==> |TurnsOf(idxToTraj, t)| == 1
  }

  lemma TurnsOfIff(idxToTraj: seq<nat>, traj: nat, i: nat)
    requires i < |idxToTraj|
    ensures i in TurnsOf(idxToTraj, traj) <==> idxToTraj[i] == traj
  {
    PickIff(Range(|idxToTraj|), idxToTraj, traj, i);
    assert Range(|idxToTraj|)[i] == i;
  }

  lemma SingleReward(rewards: seq<real>, idxToTraj: seq<nat>, i: nat)
    requires |rewards| == |idxToTraj| && i < |rewards| && |TurnsOf(idxToTraj, idxToTraj[i])| == 1
    ensures TurnsOf(idxToTraj, idxToTraj[i]) == [i]
    ensures TrajectoryReward(rewards, idxToTraj, idxToTraj[i]) == rewards[i]
  {
    hide TurnsOf;
    TurnsOfIff(idxToTraj, idxToTraj[i], i);
    assert Gather(rewards, [i]) == [rewards[i]];
    SumOfOne(rewards[i]);
  }

  lemma SameMembers(a: seq<nat>, b: seq<nat>)
    requires forall i, j :: 0 <= i < j < |a| ==> a[i] != a[j]
    requires forall i, j :: 0 <= i < j < |b| ==> b[i] != b[j]
    requires forall x :: x in a <==> x in b
    ensures multiset(a) == multiset(b)
  {
    forall x ensures multiset(a)[x] == multiset(b)[x] {
      if x in a {
        var i :| 0 <= i < |a| && a[i] == x;
        CountOnce(a, i);
        assert x in b;
        var j :| 0 <= j < |b| && b[j] == x;
        CountOnce(b, j);
      } else {
        assert x !in b;
      }
    }
  }

  ghost predicate SingleTurns(idxToTraj: seq<nat>, groupSize: nat, q: nat) {
    forall j: nat :: j < groupSize ==> |TurnsOf(idxToTraj, Member(q, j, groupSize))| == 1
  }

  /** The turn of each trajectory of a question, in trajectory order. */
  ghost function TurnPerTrajectory(idxToTraj: seq<nat>, groupSize: nat, q: nat): (r: seq<nat>)
    requires SingleTurns(idxToTraj, groupSize, q)
    ensures |r| == groupSize && Indices(r, |idxToTraj|)
    ensures forall j :: 0 <= j < groupSize ==> r[j] == TurnsOf(idxToTraj, Member(q, j, groupSize))[0]
  {
    seq(groupSize, j requires 0 <= j < groupSize => TurnsOf(idxToTraj, Member(q, j, groupSize))[0])
  }

  lemma TurnPerTrajectoryAre(idxToTraj: seq<nat>, groupSize: nat, q: nat)
    requires SingleTurns(idxToTraj, groupSize, q)
    ensures var turns := TurnPerTrajectory(idxToTraj, groupSize, q);
            forall j :: 0 <= j < groupSize ==> idxToTraj[turns[j]] == Member(q, j, groupSize)
  {
    hide TurnsOf;
    var turns := TurnPerTrajectory(idxToTraj, groupSize, q);
    forall j | 0 <= j < groupSize ensures idxToTraj[turns[j]] == Member(q, j, groupSize) {
      TurnsOfAre(idxToTraj, Member(q, j, groupSize));
    }
  }

  lemma TurnsIncrease(idxToTraj: seq<nat>, groupSize: nat, q: nat)
    requires groupSize >= 1
    ensures Increasing(QuestionTurns(idxToTraj, groupSize, q))
  {
    PickIncreasing(Range(|idxToTraj|), Questions(idxToTraj, groupSize), q);
  }

  lemma SameTurns(idxToTraj: seq<nat>, groupSize: nat, q: nat)
    requires groupSize >= 1
    requires SingleTurns(idxToTraj, groupSize, q)
    ensures multiset(TurnPerTrajectory(idxToTraj, groupSize, q)) == multiset(QuestionTurns(idxToTraj, groupSize, q))
  {
    hide TurnsOf;
    hide QuestionTurns;
    var a, b := TurnPerTrajectory(idxToTraj, groupSize, q), QuestionTurns(idxToTraj, groupSize, q);
    TurnPerTrajectoryAre(idxToTraj, groupSize, q);
    TurnsIncrease(idxToTraj, groupSize, q);
    forall x | x in a ensures x in b {
      var j :| 0 <= j < |a| && a[j] == x;
      BlockMember(q, j, groupSize);
      QuestionTurnsIff(idxToTraj, groupSize, q, x);
    }
    forall x | x in b ensures x in a {
      QuestionTurnsIff(idxToTraj, groupSize, q, x);
      Split(idxToTraj[x], groupSize);
      var j := idxToTraj[x] % groupSize;
      TurnsOfIff(idxToTraj, Member(q, j, groupSize), x);
      assert a[j] == x;
    }
    SameMembers(a, b);
  }

  /** The largest trajectory completes its question, so a question of some turn has all its trajectories. */
  lemma QuestionWithin(t: nat, q: nat, j: nat, size: nat, last: nat)
    requires size >= 1 && (last + 1) % size == 0 && t <= last && q == t / size && j < size
    ensures Member(q, j, size) <= last
  {
    var n := (last + 1) / size;
    Split(last + 1, size);
    Split(t, size);
    if q >= n {
      MulMonotone(q, n, size);
    }
    MulMonotone(n, q + 1, size);
    MulStep(q, size);
  }

  lemma ModesAgreeAt(rewards: seq<real>, idxToTraj: seq<nat>, groupSize: nat, sqrt: real -> real, i: nat)
    requires |rewards| == |idxToTraj| && idxToTraj != [] && groupSize >= 1 && i < |rewards|
    requires (LastOf(idxToTraj) + 1) % groupSize == 0 && OneTurnEach(idxToTraj)
    ensures ByTrajectory(rewards, idxToTraj, groupSize, sqrt, i) == ByTurn(rewards, idxToTraj, groupSize, sqrt, i)
  {
    hide Standardized;
    hide TurnsOf;
    hide QuestionTurns;
    hide TrajectoryReward;
    hide Member;
    var q := idxToTraj[i] / groupSize;
    assert idxToTraj[i] in idxToTraj;
    forall j: nat | j < groupSize ensures |TurnsOf(idxToTraj, Member(q, j, groupSize))| == 1 {
      QuestionWithin(idxToTraj[i], q, j, groupSize, LastOf(idxToTraj));
    }
    assert |TurnsOf(idxToTraj, idxToTraj[i])| == 1;
    SingleReward(rewards, idxToTraj, i);
    assert SingleTurns(idxToTraj, groupSize, q);
    var turns := TurnPerTrajectory(idxToTraj, groupSize, q);
    SameTurns(idxToTraj, groupSize, q);
    RewardsPerTrajectory(rewards, idxToTraj, groupSize, q);
    GatherSameTurns(rewards, turns, QuestionTurns(idxToTraj, groupSize, q));
    StandardizedPermutation(rewards[i], QuestionRewards(rewards, idxToTraj, groupSize, q),
                            Gather(rewards, QuestionTurns(idxToTraj, groupSize, q)), sqrt);
  }

  lemma RewardsPerTrajectory(rewards: seq<real>, idxToTraj: seq<nat>, groupSize: nat, q: nat)
    requires |rewards| == |idxToTraj|
    requires SingleTurns(idxToTraj, groupSize, q)
    ensures QuestionRewards(rewards, idxToTraj, groupSize, q)
         == Gather(rewards, TurnPerTrajectory(idxToTraj, groupSize, q))
  {
    hide TurnsOf;
    hide TrajectoryReward;
    var turns := TurnPerTrajectory(idxToTraj, groupSize, q);
    TurnPerTrajectoryAre(idxToTraj, groupSize, q);
    forall j | 0 <= j < groupSize
      ensures TrajectoryReward(rewards, idxToTraj, Member(q, j, groupSize)) == rewards[turns[j]]
    {
      SingleReward(rewards, idxToTraj, turns[j]);
    }
  }

  lemma GatherSameTurns(xs: seq<real>, p: seq<nat>, p': seq<nat>)
    requires Indices(p, |xs|) && Indices(p', |xs|) && multiset(p) == multiset(p')
    ensures multiset(Gather(xs, p)) == multiset(Gather(xs, p'))
  {
    var f := (i: nat) => if i < |xs| then xs[i] else 0.0;
    MapPermutation(f, p, p');
    assert Map(f, p) == Gather(xs, p) && Map(f, p') == Gather(xs, p');
  }

  /** With exactly one turn in every trajectory, trajectory mode and turn mode give the same result. */
  lemma ModesAgree(rewards: seq<real>, idxToTraj: seq<nat>, groupSize: nat, sqrt: real -> real)
    requires idxToTraj != [] ==> OneTurnEach(idxToTraj)
    ensures Dynamic(rewards, idxToTraj, groupSize, TrajectoryMode, sqrt)
         == Dynamic(rewards, idxToTraj, groupSize, TurnMode, sqrt)
  {
    hide ByTrajectory;
    hide ByTurn;
    hide OneTurnEach;
    if |rewards| == |idxToTraj| && idxToTraj != [] && groupSize >= 1 && (LastOf(idxToTraj) + 1) % groupSize == 0 {
      forall i: nat | i < |rewards|
        ensures ByTrajectory(rewards, idxToTraj, groupSize, sqrt, i) == ByTurn(rewards, idxToTraj, groupSize, sqrt, i)
      {
        ModesAgreeAt(rewards, idxToTraj, groupSize, sqrt, i);
      }
      assert Dynamic(rewards, idxToTraj, groupSize, TrajectoryMode, sqrt).value
          == Dynamic(rewards, idxToTraj, groupSize, TurnMode, sqrt).value;
    }
  }

  // ---------- single-turn batches give the plain form ----------

  lemma {:induction false} LastOfRange(n: nat)
    requires n >= 1
    ensures LastOf(Range(n)) == n - 1
  {
    assert Range(n)[n - 1] == n - 1;
    assert n - 1 in Range(n);
  }

  lemma RangeOneTurnEach(n: nat)
    requires n >= 1
    ensures OneTurnEach(Range(n))
  {
    hide TurnsOf;
    LastOfRange(n);
    forall t: nat | t <= n - 1 ensures |TurnsOf(Range(n), t)| == 1 {
      RangeTurn(n, t);
    }
  }

  lemma RangeTurn(n: nat, t: nat)
    requires t < n
    ensures TurnsOf(Range(n), t) == [t]
  {
    hide Range;
    hide Pick;
    var turns := TurnsOf(Range(n), t);
    TurnsOfIff(Range(n), t, t);
    PickIncreasing(Range(|Range(n)|), Range(n), t);
    assert |turns| >= 2 ==> turns[0] < turns[1];
    TurnsOfAre(Range(n), t);
  }

  /** One trajectory per turn, in order: both modes are the plain form. */
  lemma IdentityIsPlain(rewards: seq<real>, groupSize: nat, sqrt: real -> real)
    requires rewards != []
    ensures Dynamic(rewards, Range(|rewards|), groupSize, TrajectoryMode, sqrt) == Plain(rewards, groupSize, sqrt)
    ensures Dynamic(rewards, Range(|rewards|), groupSize, TurnMode, sqrt) == Plain(rewards, groupSize, sqrt)
  {
    hide Standardized;
    hide TrajectoryReward;
    hide Range;
    hide TurnsOf;
    hide ByTurn;
    var n, idx := |rewards|, Range(|rewards|);
    LastOfRange(n);
    RangeOneTurnEach(n);
    ModesAgree(rewards, idx, groupSize, sqrt);
    if groupSize >= 1 && n % groupSize == 0 {
      forall i: nat | i < n
        ensures ByTrajectory(rewards, idx, groupSize, sqrt, i)
             == Standardized(rewards[i], Block(rewards, i / groupSize, groupSize), sqrt)
      {
        IdentityGroup(rewards, groupSize, i);
      }
      assert Dynamic(rewards, idx, groupSize, TrajectoryMode, sqrt).value == Plain(rewards, groupSize, sqrt).value;
    }
  }

  lemma IdentityGroup(rewards: seq<real>, groupSize: nat, i: nat)
    requires groupSize >= 1 && i < |rewards| && |rewards| % groupSize == 0
    ensures TrajectoryReward(rewards, Range(|rewards|), i) == rewards[i]
    ensures QuestionRewards(rewards, Range(|rewards|), groupSize, i / groupSize)
         == Block(rewards, i / groupSize, groupSize)
  {
    hide TrajectoryReward;
    hide TurnsOf;
    hide Range;
    var n, idx, q := |rewards|, Range(|rewards|), i / groupSize;
    RangeTurn(n, i);
    SingleReward(rewards, idx, i);
    forall j: nat | j < groupSize
      ensures Member(q, j, groupSize) < n
      ensures TrajectoryReward(rewards, idx, Member(q, j, groupSize)) == rewards[Member(q, j, groupSize)]
    {
      QuestionWithin(i, q, j, groupSize, n - 1);
      RangeTurn(n, Member(q, j, groupSize));
      SingleReward(rewards, idx, Member(q, j, groupSize));
    }
  }

  // ---------- the loops ----------

  /** The turns of a trajectory among the first m. */
  function TurnsBelow(idxToTraj: seq<nat>, traj: nat, m: nat): (r: seq<nat>)
    requires m <= |idxToTraj|
    ensures Indices(r, |idxToTraj|)
  {
    PickAre(Range(|idxToTraj|)[..m], idxToTraj, traj);
    Pick(Range(|idxToTraj|)[..m], idxToTraj, traj)
  }

  lemma TurnsBelowStep(idxToTraj: seq<nat>, traj: nat, m: nat)
    requires m < |idxToTraj|
    ensures TurnsBelow(idxToTraj, traj, m + 1)
         == TurnsBelow(idxToTraj, traj, m) + if idxToTraj[m] == traj then [m] else []
  {
    hide Pick;
    var all := Range(|idxToTraj|);
    assert all[..m + 1] == all[..m] + [m];
    PickAppend(all[..m], m, idxToTraj, traj);
    PickOne(m, idxToTraj, traj);
  }

  lemma TurnsBelowAll(idxToTraj: seq<nat>, traj: nat)
    ensures TurnsBelow(idxToTraj, traj, |idxToTraj|) == TurnsOf(idxToTraj, traj)
    ensures TurnsBelow(idxToTraj, traj, 0) == []
  {
    assert Range(|idxToTraj|)[..|idxToTraj|] == Range(|idxToTraj|);
  }

  lemma GatherStep(rewards: seq<real>, idxToTraj: seq<nat>, traj: nat, m: nat)
    requires |rewards| == |idxToTraj| && m < |idxToTraj|
    ensures SumOf(Gather(rewards, TurnsBelow(idxToTraj, traj, m + 1)))
         == SumOf(Gather(rewards, TurnsBelow(idxToTraj, traj, m))) + if idxToTraj[m] == traj then rewards[m] else 0.0
  {
    hide TurnsBelow;
    TurnsBelowStep(idxToTraj, traj, m);
    var below := TurnsBelow(idxToTraj, traj, m);
    if idxToTraj[m] == traj {
      assert Gather(rewards, below + [m]) == Gather(rewards, below) + [rewards[m]];
      SumOfAppend(Gather(rewards, below), [rewards[m]]);
      SumOfOne(rewards[m]);
    } else {
      assert below + [] == below;
    }
  }

  ghost predicate Tallied(rewards: seq<real>, idxToTraj: seq<nat>, sum: real, count: nat, traj: nat, m: nat)
    requires |rewards| == |idxToTraj| && m <= |idxToTraj|
  {
    var turns := TurnsBelow(idxToTraj, traj, m);
    sum == SumOf(Gather(rewards, turns)) && count == |turns|
  }

  lemma TalliedStep(rewards: seq<real>, idxToTraj: seq<nat>, sum: real, count: nat, traj: nat, m: nat)
    requires |rewards| == |idxToTraj| && m < |idxToTraj| && Tallied(rewards, idxToTraj, sum, count, traj, m)
    ensures idxToTraj[m] != traj ==> Tallied(rewards, idxToTraj, sum, count, traj, m + 1)
    ensures idxToTraj[m] == traj ==> Tallied(rewards, idxToTraj, sum + rewards[m], count + 1, traj, m + 1)
  {
    hide TurnsBelow;
    hide SumOf;
    TurnsBelowStep(idxToTraj, traj, m);
    GatherStep(rewards, idxToTraj, traj, m);
  }

  /** Sums and counts by trajectory, then averages. */
  method TrajectoryRewards(rewards: seq<real>, idxToTraj: seq<nat>, count: nat) returns (averages: seq<real>)
    requires |rewards| == |idxToTraj| && Indices(idxToTraj, count)
    ensures |averages| == count
    ensures forall t :: 0 <= t < count ==> averages[t] == TrajectoryReward(rewards, idxToTraj, t)
  {
    hide Tallied;
    hide TurnsBelow;
    hide TrajectoryReward;
    var sums, counts := new real[count](t => 0.0), new nat[count](t => 0);
    forall t: nat | t < count ensures Tallied(rewards, idxToTraj, 0.0, 0, t, 0) {
      TalliedNone(rewards, idxToTraj, t);
    }
    for m := 0 to |idxToTraj|
      invariant forall t: nat :: t < count ==> Tallied(rewards, idxToTraj, sums[t], counts[t], t, m)
    {
      forall t: nat | t < count
        ensures idxToTraj[m] != t ==> Tallied(rewards, idxToTraj, sums[t], counts[t], t, m + 1)
        ensures idxToTraj[m] == t ==> Tallied(rewards, idxToTraj, sums[t] + rewards[m], counts[t] + 1, t, m + 1)
      {
        TalliedStep(rewards, idxToTraj, sums[t], counts[t], t, m);
      }
      var traj := idxToTraj[m];
      sums[traj] := sums[traj] + rewards[m];
      counts[traj] := counts[traj] + 1;
    }
    forall t: nat | t < count ensures Average(sums[t], counts[t]) == TrajectoryReward(rewards, idxToTraj, t) {
      TalliedAll(rewards, idxToTraj, sums[t], counts[t], t);
    }
    averages := seq(count, t requires 0 <= t < count && sums.Length == counts.Length == count reads sums, counts =>
      Average(sums[t], counts[t]));
  }

  lemma TalliedNone(rewards: seq<real>, idxToTraj: seq<nat>, traj: nat)
    requires |rewards| == |idxToTraj|
    ensures Tallied(rewards, idxToTraj, 0.0, 0, traj, 0)
  {
    TurnsBelowAll(idxToTraj, traj);
  }

  lemma TalliedAll(rewards: seq<real>, idxToTraj: seq<nat>, sum: real, count: nat, traj: nat)
    requires |rewards| == |idxToTraj| && Tallied(rewards, idxToTraj, sum, count, traj, |idxToTraj|)
    ensures Average(sum, count) == TrajectoryReward(rewards, idxToTraj, traj)
  {
    hide TurnsBelow;
    hide TurnsOf;
    TurnsBelowAll(idxToTraj, traj);
  }

  lemma BlockIsQuestion(rewards: seq<real>, idxToTraj: seq<nat>, averages: seq<real>, groupSize: nat, t: nat)
    requires |rewards| == |idxToTraj| && groupSize >= 1 && t < |averages| && |averages| % groupSize == 0
    requires forall j :: 0 <= j < |averages| ==> averages[j] == TrajectoryReward(rewards, idxToTraj, j)
    ensures Block(averages, t / groupSize, groupSize) == QuestionRewards(rewards, idxToTraj, groupSize, t / groupSize)
  {
    hide TrajectoryReward;
    hide Member;
    forall j: nat | j < groupSize ensures Member(t / groupSize, j, groupSize) < |averages| {
      QuestionWithin(t, t / groupSize, j, groupSize, |averages| - 1);
    }
  }

  method TrajectoryAdvantages(rewards: seq<real>, idxToTraj: seq<nat>, groupSize: nat, sqrt: real -> real)
      returns (entries: seq<Entry>)
    requires |rewards| == |idxToTraj| && idxToTraj != [] && groupSize >= 1
    requires (LastOf(idxToTraj) + 1) % groupSize == 0
    ensures |entries| == |rewards|
    ensures forall i :: 0 <= i < |rewards| ==> entries[i] == ByTrajectory(rewards, idxToTraj, groupSize, sqrt, i)
  {
    hide Standardized;
    hide TrajectoryReward;
    hide QuestionRewards;
    hide Block;
    var count := LastOf(idxToTraj) + 1;
    assert forall i :: 0 <= i < |idxToTraj| ==> idxToTraj[i] in idxToTraj;
    var averages := TrajectoryRewards(rewards, idxToTraj, count);
    var normalized := seq(count, t requires 0 <= t < count && |averages| == count =>
      Standardized(averages[t], Block(averages, t / groupSize, groupSize), sqrt));
    entries := [];
    for i := 0 to |idxToTraj|
      invariant |entries| == i
      invariant forall k :: 0 <= k < i ==> entries[k] == ByTrajectory(rewards, idxToTraj, groupSize, sqrt, k)
    {
      BlockIsQuestion(rewards, idxToTraj, averages, groupSize, idxToTraj[i]);
      entries := entries + [normalized[idxToTraj[i]]];
    }
  }

  lemma QuestionInRange(t: nat, groupSize: nat, last: nat)
    requires groupSize >= 1 && t <= last && (last + 1) % groupSize == 0
    ensures t / groupSize < (last + 1) / groupSize
  {
    QuestionWithin(t, t / groupSize, groupSize - 1, groupSize, last);
    var q, n := t / groupSize, (last + 1) / groupSize;
    Split(last + 1, groupSize);
    MulStep(q, groupSize);
    if q >= n {
      MulMonotone(q, n, groupSize);
    }
  }

  lemma EveryQuestionInRange(idxToTraj: seq<nat>, groupSize: nat)
    requires idxToTraj != [] && groupSize >= 1 && (LastOf(idxToTraj) + 1) % groupSize == 0
    ensures forall i :: 0 <= i < |idxToTraj| ==>
              0 <= Questions(idxToTraj, groupSize)[i] < (LastOf(idxToTraj) + 1) / groupSize
  {
    forall i | 0 <= i < |idxToTraj|
      ensures 0 <= Questions(idxToTraj, groupSize)[i] < (LastOf(idxToTraj) + 1) / groupSize
    {
      assert idxToTraj[i] in idxToTraj;
      QuestionInRange(idxToTraj[i], groupSize, LastOf(idxToTraj));
    }
  }

  /** Writes the values at the listed places, one after the other. */
  method Scatter(out: array<Entry>, places: seq<nat>, values: seq<Entry>)
    requires |places| == |values| && Indices(places, out.Length) && Increasing(places)
    modifies out
    ensures forall k :: 0 <= k < |places| ==> out[places[k]] == values[k]
    ensures forall i :: 0 <= i < out.Length && i !in places ==> out[i] == old(out[i])
  {
    for k := 0 to |places|
      invariant forall j :: 0 <= j < k ==> out[places[j]] == values[j]
      invariant forall i :: 0 <= i < out.Length && i !in places ==> out[i] == old(out[i])
    {
      out[places[k]] := values[k];
    }
  }

  lemma ByTurnOf(rewards: seq<real>, idxToTraj: seq<nat>, groupSize: nat, sqrt: real -> real, q: nat, k: nat)
    requires |rewards| == |idxToTraj| && groupSize >= 1 && k < |QuestionTurns(idxToTraj, groupSize, q)|
    ensures var turns := QuestionTurns(idxToTraj, groupSize, q);
            var group := Gather(rewards, turns);
            Standardized(group[k], group, sqrt) == ByTurn(rewards, idxToTraj, groupSize, sqrt, turns[k])
  {
    hide Standardized;
    hide QuestionTurns;
    QuestionTurnsAre(idxToTraj, groupSize, q);
  }

  method WriteQuestion(out: array<Entry>, rewards: seq<real>, idxToTraj: seq<nat>, groupSize: nat,
                       sqrt: real -> real, q: nat)
    requires |rewards| == |idxToTraj| == out.Length && groupSize >= 1
    modifies out
    ensures forall i :: 0 <= i < out.Length ==>
      out[i] == if Questions(idxToTraj, groupSize)[i] == q
                then ByTurn(rewards, idxToTraj, groupSize, sqrt, i) else old(out[i])
  {
    hide Standardized;
    hide QuestionTurns;
    hide ByTurn;
    var turns := QuestionTurns(idxToTraj, groupSize, q);
    var group := Gather(rewards, turns);
    TurnsIncrease(idxToTraj, groupSize, q);
    Scatter(out, turns, StandardizedAll(group, group, sqrt));
    forall i: nat | i < out.Length
      ensures i in turns <==> idxToTraj[i] / groupSize == q
      ensures i in turns ==> out[i] == ByTurn(rewards, idxToTraj, groupSize, sqrt, i)
    {
      QuestionTurnsIff(idxToTraj, groupSize, q, i);
      if i in turns {
        var k :| 0 <= k < |turns| && turns[k] == i;
        ByTurnOf(rewards, idxToTraj, groupSize, sqrt, q, k);
      }
    }
  }

  /** Normalizes question after question and writes the results back at the question's turns. */
  method TurnAdvantages(rewards: seq<real>, idxToTraj: seq<nat>, groupSize: nat, sqrt: real -> real)
      returns (entries: seq<Entry>)
    requires |rewards| == |idxToTraj| && idxToTraj != [] && groupSize >= 1
    requires (LastOf(idxToTraj) + 1) % groupSize == 0
    ensures |entries| == |rewards|
    ensures forall i :: 0 <= i < |rewards| ==> entries[i] == ByTurn(rewards, idxToTraj, groupSize, sqrt, i)
  {
    hide ByTurn;
    var out := new Entry[|rewards|](i => Number(0.0));
    var questions := (LastOf(idxToTraj) + 1) / groupSize;
    ghost var of := Questions(idxToTraj, groupSize);
    assert forall i :: 0 <= i < |rewards| ==> 0 <= of[i] < questions by { EveryQuestionInRange(idxToTraj, groupSize); }
    hide Questions;
    for q := 0 to questions
      invariant forall i :: 0 <= i < |rewards| && of[i] < q ==>
                  out[i] == ByTurn(rewards, idxToTraj, groupSize, sqrt, i)
    {
      WriteQuestion(out, rewards, idxToTraj, groupSize, sqrt, q);
    }
    entries := out[..];
  }

  /** `compute_grpo_dynamic_advantages` before masking. */
  method ComputeDynamic(rewards: seq<real>, idxToTraj: seq<nat>, groupSize: nat, mode: Mode, sqrt: real -> real)
      returns (r: Result<seq<Entry>>)
    ensures r == Dynamic(rewards, idxToTraj, groupSize, mode, sqrt)
  {
    hide ByTrajectory;
    hide ByTurn;
    if |rewards| != |idxToTraj| {
      return Failed(SizeMismatch);
    }
    if idxToTraj == [] {
      return Failed(NoTurns);
    }
    if groupSize == 0 {
      return Failed(ZeroGroup);
    }
    if (LastOf(idxToTraj) + 1) % groupSize != 0 {
      return Failed(NotDivisible);
    }
    match mode
    case TrajectoryMode =>
      var entries := TrajectoryAdvantages(rewards, idxToTraj, groupSize, sqrt);
      assert entries == Dynamic(rewards, idxToTraj, groupSize, mode, sqrt).value;
      r := Ok(entries);
    case TurnMode =>
      var entries := TurnAdvantages(rewards, idxToTraj, groupSize, sqrt);
      assert entries == Dynamic(rewards, idxToTraj, groupSize, mode, sqrt).value;
      r := Ok(entries);
    case UnknownMode =>
      r := Failed(InvalidMode);
  }

  // ---------- the loss mask ----------

  /** Times a mask entry: a number outside the mask becomes zero, what is not a number stays so. */
  function TimesMask(e: Entry, keep: bool): Entry {
    if e.Undefined? || keep then e else Number(0.0)
  }

  function MaskedRow(entries: seq<Entry>, keep: seq<bool>): (r: seq<Entry>)
    requires |keep| == |entries|
    ensures |r| == |entries| && forall i :: 0 <= i < |r| ==> r[i] == TimesMask(entries[i], keep[i])
  {
    seq(|entries|, i requires 0 <= i < |entries| => TimesMask(entries[i], keep[i]))
  }

  /** The advantages of the turns spread over the positions of the loss mask, `[seq_len, turns]`. */
  function Masked(r: Result<seq<Entry>>, mask: seq<seq<bool>>): (o: Result<seq<seq<Entry>>>)
    requires r.Ok? ==> forall l :: 0 <= l < |mask| ==> |mask[l]| == |r.value|
  {
    if r.Ok? then Ok(seq(|mask|, l requires 0 <= l < |mask| => MaskedRow(r.value, mask[l]))) else Failed(r.why)
  }

  /** Every row of the mask has an entry for each turn. */
  ghost predicate Covers(mask: seq<seq<bool>>, turns: nat) {
    forall l :: 0 <= l < |mask| ==> |mask[l]| == turns
  }

  lemma TurnsOnSuccess(rewards: seq<real>, idxToTraj: seq<nat>, groupSize: nat, mode: Mode, sqrt: real -> real)
    ensures Dynamic(rewards, idxToTraj, groupSize, mode, sqrt).Ok? ==>
              |Dynamic(rewards, idxToTraj, groupSize, mode, sqrt).value| == |rewards|
  {
    hide ByTrajectory;
    hide ByTurn;
  }

  /** `compute_grpo_dynamic_advantages`: turn advantages, then the mask. */
  method ComputeMasked(rewards: seq<real>, mask: seq<seq<bool>>, idxToTraj: seq<nat>, groupSize: nat, mode: Mode,
                       sqrt: real -> real) returns (r: Result<seq<seq<Entry>>>)
    requires Covers(mask, |rewards|)
    ensures r.Ok? <==> Dynamic(rewards, idxToTraj, groupSize, mode, sqrt).Ok?
    ensures r.Failed? ==> r.why == Dynamic(rewards, idxToTraj, groupSize, mode, sqrt).why
    ensures r.Ok? ==> |r.value| == |mask| && forall l :: 0 <= l < |mask| ==> |r.value[l]| == |rewards|
    ensures r.Ok? ==>
      |Dynamic(rewards, idxToTraj, groupSize, mode, sqrt).value| == |rewards| &&
      forall l, i :: 0 <= l < |mask| && 0 <= i < |rewards| ==>
        var e := Dynamic(rewards, idxToTraj, groupSize, mode, sqrt).value[i];
        r.value[l][i] == if e.Number? && !mask[l][i] then Number(0.0) else e
  {
    hide Dynamic;
    var turns := ComputeDynamic(rewards, idxToTraj, groupSize, mode, sqrt);
    TurnsOnSuccess(rewards, idxToTraj, groupSize, mode, sqrt);
    r := Masked(turns, mask);
  }

  /** Position by position, what the mask keeps of a question whose turns are all kept sums to zero in turn mode. */
  lemma KeptTurnsCentered(rewards: seq<real>, idxToTraj: seq<nat>, groupSize: nat, sqrt: real -> real, q: nat,
                          keep: seq<bool>)
    requires IsRoot(sqrt) && groupSize >= 1 && |keep| == |rewards|
    requires Dynamic(rewards, idxToTraj, groupSize, TurnMode, sqrt).Ok?
    requires |QuestionTurns(idxToTraj, groupSize, q)| >= 2
    requires forall i :: 0 <= i < |keep| && idxToTraj[i] / groupSize == q ==> keep[i]
    ensures |Dynamic(rewards, idxToTraj, groupSize, TurnMode, sqrt).value| == |rewards|
    ensures Centered(Select(MaskedRow(Dynamic(rewards, idxToTraj, groupSize, TurnMode, sqrt).value, keep),
                            QuestionTurns(idxToTraj, groupSize, q)))
  {
    hide Standardized;
    hide QuestionTurns;
    hide IsRoot;
    hide Centered;
    var turns := QuestionTurns(idxToTraj, groupSize, q);
    var entries := Dynamic(rewards, idxToTraj, groupSize, TurnMode, sqrt).value;
    QuestionTurnsAre(idxToTraj, groupSize, q);
    assert Select(MaskedRow(entries, keep), turns) == Select(entries, turns);
    TurnsCentered(rewards, idxToTraj, groupSize, sqrt, q);
  }
}
