/**
  Generalized advantage estimation for one environment: the backward loop, its closed form,
  its telescoped form, and what it cannot see across the end of an episode.
*/
module Gae {
  import opened Sequences
  import opened RealSums
  import opened LossMask
  import opened Options

  /** One environment: T rewards, T + 1 values, T + 1 done flags. */
  datatype Episode = Episode(rewards: seq<real>, values: seq<real>, dones: seq<bool>)

  ghost predicate Fits(e: Episode) {
    |e.values| == |e.dones| == |e.rewards| + 1
  }

  /** `~dones` as a factor. */
  function Live(done: bool): real {
    if done then 0.0 else 1.0
  }

  function Delta(e: Episode, gamma: real, t: nat): real
    requires Fits(e) && t < |e.rewards|
  {
    e.rewards[t] + gamma * e.values[t + 1] * Live(e.dones[t + 1]) - e.values[t]
  }

  function Deltas(e: Episode, gamma: real): (r: seq<real>)
    requires Fits(e)
    ensures |r| == |e.rewards|
  {
    seq(|e.rewards|, t requires 0 <= t < |e.rewards| => Delta(e, gamma, t))
  }

  /** The accumulator of the backward loop after it has processed step t. */
  function Advantage(e: Episode, gamma: real, gaeLambda: real, t: nat): real
    requires Fits(e) && t <= |e.rewards|
    decreases |e.rewards| - t
  {
    if t == |e.rewards| then 0.0
    else Delta(e, gamma, t) + gamma * gaeLambda * Live(e.dones[t + 1]) * Advantage(e, gamma, gaeLambda, t + 1)
  }

  lemma AdvantageStep(e: Episode, gamma: real, gaeLambda: real, t: nat, delta: real)
    requires Fits(e) && t < |e.rewards| && delta == Delta(e, gamma, t)
    ensures Advantage(e, gamma, gaeLambda, t)
         == delta + gamma * gaeLambda * Live(e.dones[t + 1]) * Advantage(e, gamma, gaeLambda, t + 1)
  {
  }

  lemma AdvantageEnd(e: Episode, gamma: real, gaeLambda: real)
    requires Fits(e)
    ensures Advantage(e, gamma, gaeLambda, |e.rewards|) == 0.0
  {
  }

  /** The first time after t whose flag is set, or the end of the rollout. */
  function Cut(dones: seq<bool>, t: nat): (s: nat)
    requires t + 1 < |dones|
    ensures t < s < |dones|
    ensures dones[s] || s == |dones| - 1
    ensures forall u :: t < u < s ==> !dones[u]
    decreases |dones| - t
  {
    if dones[t + 1] || t + 2 == |dones| then t + 1 else Cut(dones, t + 1)
  }

  // ---------- closed forms ----------

  /** The loop computes the sum of (gamma * lambda)^l * delta, cut at the next done. */
  lemma {:induction false} ClosedForm(e: Episode, gamma: real, gaeLambda: real, t: nat)
    requires Fits(e) && t < |e.rewards|
    ensures Advantage(e, gamma, gaeLambda, t) == PowSum(Deltas(e, gamma), gamma * gaeLambda, t, Cut(e.dones, t) - t)
    decreases |e.rewards| - t
  {
    hide Advantage;
    hide PowSum;
    hide Delta;
    var f, x, n := Deltas(e, gamma), gamma * gaeLambda, Cut(e.dones, t) - t;
    PowSumFront(f, x, t, n);
    AdvantageStep(e, gamma, gaeLambda, t, Delta(e, gamma, t));
    DiscountedRest(gamma, gaeLambda, Live(e.dones[t + 1]), Advantage(e, gamma, gaeLambda, t + 1));
    if n == 1 {
      NoSteps(f, x, t + 1);
      if !e.dones[t + 1] {
        AdvantageEnd(e, gamma, gaeLambda);
      }
    } else {
      ClosedForm(e, gamma, gaeLambda, t + 1);
    }
  }

  lemma DiscountedRest(gamma: real, gaeLambda: real, live: real, rest: real)
    ensures live == 0.0 || rest == 0.0 ==> gamma * gaeLambda * live * rest == 0.0
    ensures live == 1.0 ==> gamma * gaeLambda * live * rest == (gamma * gaeLambda) * rest
  {
  }

  /** The bootstrap value at the cut, if no done was met. */
  function Bootstrap(e: Episode, gamma: real, t: nat): real
    requires Fits(e) && t < |e.rewards|
  {
    var s := Cut(e.dones, t);
    if e.dones[s] then 0.0 else Pow(gamma, s - t) * e.values[s]
  }

  /** At lambda = 1 the values in between cancel: discounted reward-to-go, plus the bootstrap, minus the value. */
  lemma {:induction false} Telescopes(e: Episode, gamma: real, t: nat)
    requires Fits(e) && t < |e.rewards|
    ensures Advantage(e, gamma, 1.0, t)
         == PowSum(e.rewards, gamma, t, Cut(e.dones, t) - t) + Bootstrap(e, gamma, t) - e.values[t]
    decreases |e.rewards| - t
  {
    hide Advantage;
    hide Bootstrap;
    hide PowSum;
    var n := Cut(e.dones, t) - t;
    var r, next, v := e.rewards[t], e.values[t + 1], e.values[t];
    PowSumFront(e.rewards, gamma, t, n);
    AdvantageStep(e, gamma, 1.0, t, Delta(e, gamma, t));
    if n == 1 {
      NoSteps(e.rewards, gamma, t + 1);
      BootstrapHere(e, gamma, t);
      if e.dones[t + 1] {
        CutHere(r, gamma, next, v, Advantage(e, gamma, 1.0, t + 1));
      } else {
        AdvantageEnd(e, gamma, 1.0);
      }
    } else {
      Telescopes(e, gamma, t + 1);
      BootstrapStep(e, gamma, t);
      TelescopeStep(r, gamma, next, v, PowSum(e.rewards, gamma, t + 1, n - 1), Bootstrap(e, gamma, t + 1));
    }
  }

  lemma NoSteps(f: seq<real>, x: real, a: nat)
    requires a <= |f|
    ensures PowSum(f, x, a, 0) == 0.0
  {
  }

  lemma BootstrapHere(e: Episode, gamma: real, t: nat)
    requires Fits(e) && t < |e.rewards| && Cut(e.dones, t) == t + 1
    ensures Bootstrap(e, gamma, t) == if e.dones[t + 1] then 0.0 else gamma * e.values[t + 1]
  {
    assert Pow(gamma, 1) == gamma * Pow(gamma, 0);
  }

  lemma CutHere(r: real, g: real, next: real, v: real, a: real)
    ensures r + g * next * 0.0 - v + g * 1.0 * 0.0 * a == r - v
  {
  }

  lemma TelescopeStep(r: real, g: real, next: real, v: real, p: real, b: real)
    ensures r + g * next * 1.0 - v + g * 1.0 * 1.0 * (p + b - next) == (r + g * p) + g * b - v
  {
  }

  lemma BootstrapStep(e: Episode, gamma: real, t: nat)
    requires Fits(e) && t + 1 < |e.rewards| && !e.dones[t + 1]
    ensures Bootstrap(e, gamma, t) == gamma * Bootstrap(e, gamma, t + 1)
  {
    var s := Cut(e.dones, t);
    var p, v := Pow(gamma, s - t - 1), e.values[s];
    assert Pow(gamma, s - t) == gamma * p;
    assert (gamma * p) * v == gamma * (p * v);
  }

  /** At lambda = 1 the advantage depends on no value except the one at t and, without a done, the last one. */
  lemma IgnoresIntermediateValues(e: Episode, f: Episode, gamma: real, t: nat)
    requires Fits(e) && Fits(f) && t < |e.rewards|
    requires e.rewards == f.rewards && e.dones == f.dones && e.values[t] == f.values[t]
    requires e.dones[Cut(e.dones, t)] || e.values[Cut(e.dones, t)] == f.values[Cut(e.dones, t)]
    ensures Advantage(e, gamma, 1.0, t) == Advantage(f, gamma, 1.0, t)
  {
    Telescopes(e, gamma, t);
    Telescopes(f, gamma, t);
  }

  /** Without a critic every value is absent and gamma = lambda = 1. */
  function CriticFree(rewards: seq<real>, dones: seq<bool>): Episode {
    Episode(rewards, seq(|rewards| + 1, _ => 0.0), dones)
  }

  /** The critic-free advantage is the undiscounted reward-to-go up to the next done. */
  lemma CriticFreeRewardToGo(rewards: seq<real>, dones: seq<bool>, t: nat)
    requires |dones| == |rewards| + 1 && t < |rewards|
    ensures Advantage(CriticFree(rewards, dones), 1.0, 1.0, t) == SumOf(rewards[t..Cut(dones, t)])
  {
    var e := CriticFree(rewards, dones);
    Telescopes(e, 1.0, t);
    PowSumOne(rewards, t, Cut(dones, t) - t);
  }

  // ---------- episode isolation ----------

  /** The two rollouts look the same before time d, where both are done for the first time. */
  ghost predicate SameUntil(e: Episode, f: Episode, d: nat) {
    && Fits(e) && Fits(f) && |e.rewards| == |f.rewards|
    && d < |e.dones| && e.dones[d] && f.dones[d]
    && (forall s :: 0 <= s < d ==> !e.dones[s] && !f.dones[s])
    && (forall s :: 0 <= s < d ==> e.rewards[s] == f.rewards[s] && e.values[s] == f.values[s])
  }

  /** Nothing at or after the first done reaches the advantages before it. */
  lemma {:induction false} Isolation(e: Episode, f: Episode, d: nat, gamma: real, gaeLambda: real, t: nat)
    requires SameUntil(e, f, d) && t < d
    ensures Advantage(e, gamma, gaeLambda, t) == Advantage(f, gamma, gaeLambda, t)
    decreases d - t
  {
    if t + 1 < d {
      Isolation(e, f, d, gamma, gaeLambda, t + 1);
    }
  }

  /** The mask keeps exactly the steps that isolation protects, and it is the same for both rollouts. */
  lemma KeptStepsIsolated(e: Episode, f: Episode, d: nat, gamma: real, gaeLambda: real, t: nat)
    requires SameUntil(e, f, d) && t < |e.rewards|
    ensures Mask(e.dones)[t] == Mask(f.dones)[t]
    ensures Mask(e.dones)[t] ==> Advantage(e, gamma, gaeLambda, t) == Advantage(f, gamma, gaeLambda, t)
  {
    MaskIsPrefix(e.dones);
    MaskIsPrefix(f.dones);
    assert FirstDone(e.dones) == d && FirstDone(f.dones) == d;
    if t < d {
      Isolation(e, f, d, gamma, gaeLambda, t);
    }
  }

  ghost predicate SameSteps(batch: seq<Episode>, steps: nat) {
    forall b :: 0 <= b < |batch| ==>
      Fits(batch[b]) && |batch[b].rewards| == steps && |batch[b].dones| == steps + 1
  }

  /** Advantages and masks of a batch, time after time, environment after environment. */
  ghost function BatchAdvantages(batch: seq<Episode>, steps: nat, gamma: real, gaeLambda: real): (r: seq<seq<real>>)
    requires SameSteps(batch, steps)
    ensures |r| == steps
    ensures forall t :: 0 <= t < steps ==> |r[t]| == |batch|
  {
    seq(steps, t requires 0 <= t < steps =>
      seq(|batch|, b requires 0 <= b < |batch| => Advantage(batch[b], gamma, gaeLambda, t)))
  }

  ghost function BatchMask(batch: seq<Episode>, steps: nat): (r: seq<seq<bool>>)
    requires SameSteps(batch, steps)
    ensures |r| == steps
    ensures forall t :: 0 <= t < steps ==> |r[t]| == |batch|
  {
    seq(steps, t requires 0 <= t < steps =>
      seq(|batch|, b requires 0 <= b < |batch| => Mask(batch[b].dones)[t]))
  }

  ghost predicate GridAgree(a: seq<seq<real>>, b: seq<seq<real>>, mask: seq<seq<bool>>) {
    && |a| == |b| == |mask|
    && (forall t :: 0 <= t < |mask| ==> |a[t]| == |b[t]| == |mask[t]|)
    && (forall t, j :: 0 <= t < |mask| && 0 <= j < |mask[t]| && mask[t][j] ==> a[t][j] == b[t][j])
  }

  lemma {:induction false} GridFlatten(a: seq<seq<real>>, b: seq<seq<real>>, mask: seq<seq<bool>>)
    requires GridAgree(a, b, mask)
    ensures |Flatten(a)| == |Flatten(b)| == |Flatten(mask)|
    ensures AgreeWhere(Flatten(a), Flatten(b), Flatten(mask))
  {
    if a == [] {
    } else {
      GridFlatten(a[1..], b[1..], mask[1..]);
      var m, rest := mask[0], Flatten(mask[1..]);
      forall i | 0 <= i < |m + rest| && (m + rest)[i]
        ensures Flatten(a)[i] == Flatten(b)[i]
      {
        if i >= |m| { assert rest[i - |m|]; }
      }
    }
  }

  /**
    Main result on isolation. In any environments, change rewards, values or later flags at or after the first
    done; leave the others alone, whether they ever finish or not. The masks do not change, and neither do the
    normalized advantages the mask keeps.
  */
  lemma NormalizedIsolation(p: seq<Episode>, q: seq<Episode>, ds: seq<nat>, steps: nat,
                            gamma: real, gaeLambda: real, sqrt: real -> real)
    requires |p| == |q| == |ds|
    requires SameSteps(p, steps) && SameSteps(q, steps)
    requires forall b :: 0 <= b < |p| ==> p[b] == q[b] || SameUntil(p[b], q[b], ds[b])
    ensures BatchMask(p, steps) == BatchMask(q, steps)
    ensures var mask := Flatten(BatchMask(p, steps));
            var a := Flatten(BatchAdvantages(p, steps, gamma, gaeLambda));
            var b := Flatten(BatchAdvantages(q, steps, gamma, gaeLambda));
            |a| == |b| == |mask| &&
            (SafeNormalize(a, mask, sqrt).NotANumber? <==> SafeNormalize(b, mask, sqrt).NotANumber?) &&
            (SafeNormalize(a, mask, sqrt).Values? ==>
              AgreeWhere(SafeNormalize(a, mask, sqrt).xs, SafeNormalize(b, mask, sqrt).xs, mask))
  {
    hide SafeNormalize;
    var mask := BatchMask(p, steps);
    var a, b := BatchAdvantages(p, steps, gamma, gaeLambda), BatchAdvantages(q, steps, gamma, gaeLambda);
    forall t, j | 0 <= t < steps && 0 <= j < |p|
      ensures mask[t][j] == BatchMask(q, steps)[t][j] && (mask[t][j] ==> a[t][j] == b[t][j])
    {
      if p[j] != q[j] {
        KeptStepsIsolated(p[j], q[j], ds[j], gamma, gaeLambda, t);
      }
    }
    assert forall t :: 0 <= t < steps ==> mask[t] == BatchMask(q, steps)[t];
    assert mask == BatchMask(q, steps);
    GridFlatten(a, b, mask);
    NormalizeIgnoresMasked(Flatten(a), Flatten(b), Flatten(mask), sqrt);
  }

  // ---------- scores ----------

  /** The rewards the mask keeps. */
  function KeptSum(rewards: seq<real>, dones: seq<bool>): real
    requires |dones| == |rewards| + 1
  {
    SumOf(Chosen(rewards, Mask(dones)))
  }

  lemma {:induction false} ChosenPrefix(xs: seq<real>, mask: seq<bool>, d: nat)
    requires |mask| == |xs| && d <= |xs| && forall t :: 0 <= t < |xs| ==> (mask[t] <==> t < d)
    ensures Chosen(xs, mask) == xs[..d]
  {
    if xs == [] {
    } else {
      ChosenPrefix(xs[1..], mask[1..], if d == 0 then 0 else d - 1);
    }
  }

  function Score(rewards: seq<real>, dones: seq<bool>): real
    requires |dones| == |rewards| + 1
  {
    Advantage(CriticFree(rewards, dones), 1.0, 1.0, 0)
  }

  /** The score of a rollout that does not start done is the sum of the rewards the mask keeps. */
  lemma ScoreIsKept(rewards: seq<real>, dones: seq<bool>)
    requires |dones| == |rewards| + 1 && !dones[0]
    ensures Score(rewards, dones) == KeptSum(rewards, dones)
  {
    MaskIsPrefix(dones);
    var d := FirstDone(dones);
    var kept := if d <= |rewards| then d else |rewards|;
    ChosenPrefix(rewards, Mask(dones), kept);
    if rewards != [] {
      CriticFreeRewardToGo(rewards, dones, 0);
      assert Cut(dones, 0) == kept;
      assert rewards[0..kept] == rewards[..kept];
    }
  }

  /** A reward for the first step only. */
  function FirstOnly(n: nat): (r: seq<real>)
    ensures |r| == n
  {
    seq(n, i => if i == 0 then 1.0 else 0.0)
  }

  lemma {:induction false} SumOfZeros(s: seq<real>)
    requires forall i :: 0 <= i < |s| ==> s[i] == 0.0
    ensures SumOf(s) == 0.0
  {
    if s == [] {
    } else {
      SumOfZeros(s[1..]);
    }
  }

  /** A rollout that starts done is scored for its first step, of which the mask keeps nothing. */
  lemma StartedDoneScored(dones: seq<bool>)
    requires |dones| >= 2 && dones[0]
    ensures Score(FirstOnly(|dones| - 1), dones) == 1.0 && KeptSum(FirstOnly(|dones| - 1), dones) == 0.0
  {
    var rewards := FirstOnly(|dones| - 1);
    MaskIsPrefix(dones);
    ChosenPrefix(rewards, Mask(dones), 0);
    CriticFreeRewardToGo(rewards, dones, 0);
    var kept := rewards[0..Cut(dones, 0)];
    SumOfZeros(kept[1..]);
  }

  /**
    Score and kept rewards agree for every rollout with these flags exactly when it does not start done, or has no
    step.
  */
  lemma ScoreIsKeptSum(dones: seq<bool>)
    requires dones != []
    ensures (forall rewards: seq<real> :: |dones| == |rewards| + 1 ==> Score(rewards, dones) == KeptSum(rewards, dones))
            <==> (!dones[0] || |dones| == 1)
  {
    hide Score;
    hide KeptSum;
    if dones[0] && |dones| >= 2 {
      StartedDoneScored(dones);
    } else {
      forall rewards: seq<real> | |dones| == |rewards| + 1 ensures Score(rewards, dones) == KeptSum(rewards, dones) {
        if dones[0] {
          NoStepsNoScore(dones);
          assert rewards == [];
        } else {
          ScoreIsKept(rewards, dones);
        }
      }
    }
  }

  lemma NoStepsNoScore(dones: seq<bool>)
    requires |dones| == 1
    ensures Score([], dones) == KeptSum([], dones) == 0.0
  {
  }

  /** A rollout that starts done is scored although the mask keeps none of it. */
  lemma ScoreOfStartedDone()
    ensures Score([1.0], [true, false]) == 1.0 && KeptSum([1.0], [true, false]) == 0.0
  {
    var e := CriticFree([1.0], [true, false]);
    assert Advantage(e, 1.0, 1.0, 1) == 0.0;
    assert Mask([true, false]) == [false];
    assert Chosen([1.0], [false]) == [] by { assert [1.0][1..] == []; }
  }

  // ---------- the loops of the program ----------

  /**
    Advantages and returns in terms of the inputs. With a critic: the deltas of the rewards, values and flags, summed
    with powers of gamma * lambda up to the next done. Without one: the rewards up to the next done.
  */
  ghost predicate GaeOf(rewards: seq<real>, values: Option<seq<real>>, dones: seq<bool>, gamma: real, gaeLambda: real,
                        advantages: seq<real>, returns_: seq<real>)
    requires |dones| == |rewards| + 1 && (values.Some? ==> |values.value| == |rewards| + 1)
  {
    && |advantages| == |returns_| == |rewards|
    && (values.Some? ==>
          forall t :: 0 <= t < |rewards| ==>
            var deltas := Deltas(Episode(rewards, values.value, dones), gamma);
            advantages[t] == PowSum(deltas, gamma * gaeLambda, t, Cut(dones, t) - t) &&
            returns_[t] == advantages[t] + values.value[t])
    && (values.None? ==>
          forall t :: 0 <= t < |rewards| ==>
            advantages[t] == SumOf(rewards[t..Cut(dones, t)]) && returns_[t] == advantages[t])
  }

  lemma FreeDelta(rewards: seq<real>, dones: seq<bool>, t: nat)
    requires |dones| == |rewards| + 1 && t < |rewards|
    ensures Delta(CriticFree(rewards, dones), 1.0, t) == rewards[t]
  {
  }

  /** `compute_gae_advantages_and_returns` before normalization. */
  method ComputeGae(rewards: seq<real>, values: Option<seq<real>>, dones: seq<bool>, gamma: real, gaeLambda: real)
      returns (advantages: seq<real>, returns_: seq<real>)
    requires |dones| == |rewards| + 1 && (values.Some? ==> |values.value| == |rewards| + 1)
    ensures GaeOf(rewards, values, dones, gamma, gaeLambda, advantages, returns_)
  {
    hide Advantage;
    hide Live;
    hide PowSum;
    hide Deltas;
    ghost var e := if values.None? then CriticFree(rewards, dones) else Episode(rewards, values.value, dones);
    var criticFree := values.None?;
    var g, l := gamma, gaeLambda;
    if criticFree {
      g, l := 1.0, 1.0;
    }
    var T := |rewards|;
    var collected := new real[T];
    var gae := 0.0;
    var step := T;
    AdvantageEnd(e, g, l);
    while step > 0
      invariant 0 <= step <= T
      invariant gae == Advantage(e, g, l, step)
      invariant T == |rewards| == collected.Length
      invariant forall t :: step <= t < T ==> collected[t] == Advantage(e, g, l, t) + e.values[t]
    {
      step := step - 1;
      var delta := if criticFree then rewards[step]
                   else rewards[step] + g * values.value[step + 1] * Live(dones[step + 1]) - values.value[step];
      if criticFree {
        FreeDelta(rewards, dones, step);
      }
      AdvantageStep(e, g, l, step, delta);
      gae := delta + g * l * Live(dones[step + 1]) * gae;
      collected[step] := if criticFree then gae else gae + values.value[step];
    }
    returns_ := collected[..];
    advantages := seq(T, t requires 0 <= t < T && |returns_| == T =>
      if criticFree then returns_[t] else returns_[t] - values.value[t]);
    forall t | 0 <= t < T
      ensures values.Some? ==>
        Advantage(e, g, l, t) == PowSum(Deltas(e, gamma), gamma * gaeLambda, t, Cut(dones, t) - t)
      ensures values.None? ==> Advantage(e, g, l, t) == SumOf(rewards[t..Cut(dones, t)])
    {
      if values.Some? {
        assert e.dones == dones && g * l == gamma * gaeLambda;
        ClosedForm(e, g, l, t);
      } else {
        CriticFreeRewardToGo(rewards, dones, t);
      }
    }
  }

  lemma CutAtFirst(dones: seq<bool>, d: nat, t: nat)
    requires t < d < |dones| && dones[d] && forall s :: 0 <= s < d ==> !dones[s]
    ensures Cut(dones, t) == d
  {
  }

  /**
    Isolation of what is computed: two rollouts that agree before time d, where both are done for the first time,
    get the same advantages and returns before d.
  */
  lemma OutputsIsolated(rewards: seq<real>, values: Option<seq<real>>, dones: seq<bool>,
                        rewards': seq<real>, values': Option<seq<real>>, dones': seq<bool>,
                        gamma: real, gaeLambda: real, advantages: seq<real>, returns_: seq<real>,
                        advantages': seq<real>, returns_': seq<real>, d: nat, t: nat)
    requires |dones| == |rewards| + 1 && (values.Some? ==> |values.value| == |rewards| + 1)
    requires |dones'| == |rewards'| + 1 && (values'.Some? ==> |values'.value| == |rewards'| + 1)
    requires GaeOf(rewards, values, dones, gamma, gaeLambda, advantages, returns_)
    requires GaeOf(rewards', values', dones', gamma, gaeLambda, advantages', returns_')
    requires |rewards| == |rewards'| && values.Some? == values'.Some?
    requires t < d < |dones| && dones[d] && dones'[d] && forall s :: 0 <= s < d ==> !dones[s] && !dones'[s]
    requires forall s :: 0 <= s < d ==> rewards[s] == rewards'[s]
    requires forall s :: 0 <= s < d && values.Some? ==> values.value[s] == values'.value[s]
    ensures advantages[t] == advantages'[t] && returns_[t] == returns_'[t]
  {
    hide PowSum;
    hide Deltas;
    CutAtFirst(dones, d, t);
    CutAtFirst(dones', d, t);
    if values.Some? {
      var e, f := Episode(rewards, values.value, dones), Episode(rewards', values'.value, dones');
      ClosedForm(e, gamma, gaeLambda, t);
      ClosedForm(f, gamma, gaeLambda, t);
      Isolation(e, f, d, gamma, gaeLambda, t);
    } else {
      assert rewards[t..d] == rewards'[t..d];
    }
  }

  /** `calculate_scores` for one environment: all rewards up to the first done after the start. */
  method CalculateScore(rewards: seq<real>, dones: seq<bool>) returns (score: real)
    requires |dones| == |rewards| + 1
    ensures score == Score(rewards, dones)
    ensures score == if rewards == [] then 0.0 else SumOf(rewards[..Cut(dones, 0)])
  {
    score := 0.0;
    ghost var e := CriticFree(rewards, dones);
    var step := |rewards|;
    while step > 0
      invariant 0 <= step <= |rewards|
      invariant score == Advantage(e, 1.0, 1.0, step)
    {
      step := step - 1;
      score := score * Live(dones[step + 1]);
      score := score + rewards[step];
    }
    if rewards != [] {
      CriticFreeRewardToGo(rewards, dones, 0);
      assert rewards[0..Cut(dones, 0)] == rewards[..Cut(dones, 0)];
    }
  }
}
