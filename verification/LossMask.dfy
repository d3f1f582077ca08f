/** Masks: which entries count, selecting them, and normalizing by their mean and deviation. */
module LossMask {
  import opened RealSums

  /** `cumsum`: how many flags are set up to and including time t. */
  function CumulativeDones(dones: seq<bool>, t: nat): nat
    requires t < |dones|
  {
    (if dones[t] then 1 else 0) + (if t == 0 then 0 else CumulativeDones(dones, t - 1))
  }

  /** The flag is still clear at every time up to t. */
  ghost predicate NoDoneUpTo(dones: seq<bool>, t: nat)
    requires t < |dones|
  {
    forall s :: 0 <= s <= t ==> !dones[s]
  }

  lemma {:induction false} CumulativeZero(dones: seq<bool>, t: nat)
    requires t < |dones|
    ensures CumulativeDones(dones, t) == 0 <==> NoDoneUpTo(dones, t)
  {
    if t == 0 {
    } else {
      CumulativeZero(dones, t - 1);
    }
  }

  /** `(cumsum == 0)[:-1]`: one entry per step, for flags with one entry more. */
  function Mask(dones: seq<bool>): (m: seq<bool>)
    requires dones != []
    ensures |m| == |dones| - 1
  {
    seq(|dones| - 1, t requires 0 <= t < |dones| - 1 => CumulativeDones(dones, t) == 0)
  }

  /** The number of steps before the first flag, or all of them. */
  function FirstDone(dones: seq<bool>): (d: nat)
    ensures d <= |dones|
    ensures d < |dones| ==> dones[d]
    ensures forall s :: 0 <= s < d ==> !dones[s]
  {
    if dones == [] || dones[0] then 0
    else
      var d := FirstDone(dones[1..]);
      assert forall s :: 1 <= s < 1 + d ==> dones[s] == dones[1..][s - 1];
      1 + d
  }

  function CountTrue(m: seq<bool>): nat {
    if m == [] then 0 else (if m[0] then 1 else 0) + CountTrue(m[1..])
  }

  lemma {:induction false} CountPrefix(m: seq<bool>, d: nat)
    requires d <= |m| && forall t :: 0 <= t < |m| ==> (m[t] <==> t < d)
    ensures CountTrue(m) == d
  {
    if m == [] {
    } else {
      CountPrefix(m[1..], if d == 0 then 0 else d - 1);
    }
  }

  /**
    The mask is true exactly before the first flag, and its sum is the position of that flag, at most the number
    of steps.
  */
  lemma MaskIsPrefix(dones: seq<bool>)
    requires dones != []
    ensures forall t :: 0 <= t < |dones| - 1 ==> (Mask(dones)[t] <==> t < FirstDone(dones))
    ensures CountTrue(Mask(dones)) == if FirstDone(dones) < |dones| then FirstDone(dones) else |dones| - 1
  {
    forall t | 0 <= t < |dones| - 1 ensures Mask(dones)[t] <==> t < FirstDone(dones) {
      CumulativeZero(dones, t);
    }
    CountPrefix(Mask(dones), if FirstDone(dones) < |dones| then FirstDone(dones) else |dones| - 1);
  }

  // ---------- masked selection and normalization ----------

  /** `array[mask]`. */
  function Chosen(xs: seq<real>, mask: seq<bool>): seq<real>
    requires |mask| == |xs|
  {
    if xs == [] then []
    else (if mask[0] then [xs[0]] else []) + Chosen(xs[1..], mask[1..])
  }

  ghost predicate AgreeWhere(a: seq<real>, b: seq<real>, mask: seq<bool>)
    requires |a| == |b| == |mask|
  {
    forall i :: 0 <= i < |mask| && mask[i] ==> a[i] == b[i]
  }

  lemma {:induction false} ChosenAgree(a: seq<real>, b: seq<real>, mask: seq<bool>)
    requires |a| == |b| == |mask| && AgreeWhere(a, b, mask)
    ensures Chosen(a, mask) == Chosen(b, mask)
  {
    if a == [] {
    } else {
      ChosenAgree(a[1..], b[1..], mask[1..]);
    }
  }

  function Mean(xs: seq<real>): real
    requires xs != []
  {
    SumOf(xs) / |xs| as real
  }

  /** The sum of squared deviations from m. */
  function SquaredDeviations(xs: seq<real>, m: real): (r: real)
    ensures r >= 0.0
  {
    if xs == [] then 0.0
    else
      var dev := xs[0] - m;
      assert dev * dev >= 0.0;
      dev * dev + SquaredDeviations(xs[1..], m)
  }

  /** `var()`, with the n - 1 denominator. */
  function Variance(xs: seq<real>): (r: real)
    requires |xs| >= 2
    ensures r >= 0.0
  {
    SquaredDeviations(xs, Mean(xs)) / (|xs| - 1) as real
  }

  datatype Normalized = NotANumber | Values(xs: seq<real>)

  /** `safe_normalize`; one chosen entry has no standard deviation, and the whole array becomes NaN. */
  function SafeNormalize(xs: seq<real>, mask: seq<bool>, sqrt: real -> real): Normalized
    requires |mask| == |xs|
  {
    var valid := Chosen(xs, mask);
    if valid == [] then Values(xs)
    else if |valid| == 1 then NotANumber
    else
      var std := sqrt(Variance(valid));
      if std + 0.00001 == 0.0 then NotANumber
      else Values(Scaled(xs, Mean(valid), Reciprocal(std + 0.00001)))
  }

  /** Entries outside the mask have no influence on the entries inside it. */
  lemma NormalizeIgnoresMasked(a: seq<real>, b: seq<real>, mask: seq<bool>, sqrt: real -> real)
    requires |a| == |b| == |mask| && AgreeWhere(a, b, mask)
    ensures SafeNormalize(a, mask, sqrt).NotANumber? <==> SafeNormalize(b, mask, sqrt).NotANumber?
    ensures SafeNormalize(a, mask, sqrt).Values? ==>
              AgreeWhere(SafeNormalize(a, mask, sqrt).xs, SafeNormalize(b, mask, sqrt).xs, mask)
  {
    hide Variance;
    hide Mean;
    hide Affine;
    hide Reciprocal;
    ChosenAgree(a, b, mask);
  }

  lemma {:induction false} ChosenScaled(xs: seq<real>, mask: seq<bool>, m: real, c: real)
    requires |mask| == |xs|
    ensures Chosen(Scaled(xs, m, c), mask) == Scaled(Chosen(xs, mask), m, c)
  {
    hide Affine;
    if xs == [] {
    } else {
      ChosenScaled(xs[1..], mask[1..], m, c);
      ScaledTail(xs, m, c);
      if mask[0] {
        var rest := Chosen(xs[1..], mask[1..]);
        ScaledTail([xs[0]] + rest, m, c);
        assert ([xs[0]] + rest)[1..] == rest;
      }
    }
  }

  lemma SquareUndone(x: real, m: real, d: real)
    requires d != 0.0
    ensures (Affine(x, m, Reciprocal(d)) - 0.0) * (Affine(x, m, Reciprocal(d)) - 0.0) * (d * d) == (x - m) * (x - m)
  {
    hide Affine;
    hide Reciprocal;
    AffineUndone(x, m, d);
    var y := Affine(x, m, Reciprocal(d));
    assert y * y * (d * d) == (y * d) * (y * d);
  }

  /** Dividing the deviations by d divides the sum of their squares by the square of d. */
  lemma {:induction false} SpreadScaled(xs: seq<real>, m: real, d: real)
    requires d != 0.0
    ensures SquaredDeviations(Scaled(xs, m, Reciprocal(d)), 0.0) * (d * d) == SquaredDeviations(xs, m)
  {
    hide Affine;
    hide Reciprocal;
    if xs == [] {
    } else {
      SpreadScaled(xs[1..], m, d);
      ScaledTail(xs, m, Reciprocal(d));
      var y := Affine(xs[0], m, Reciprocal(d));
      SquareUndone(xs[0], m, d);
      var rest := SquaredDeviations(Scaled(xs[1..], m, Reciprocal(d)), 0.0);
      assert ((y - 0.0) * (y - 0.0) + rest) * (d * d) == (y - 0.0) * (y - 0.0) * (d * d) + rest * (d * d);
    }
  }

  /** Scaled deviations, multiplied back: entry by entry, and their squares. */
  lemma ScaledBack(xs: seq<real>, m: real, d: real)
    requires d != 0.0
    ensures forall i :: 0 <= i < |xs| ==> Scaled(xs, m, Reciprocal(d))[i] * d == xs[i] - m
    ensures SquaredDeviations(Scaled(xs, m, Reciprocal(d)), 0.0) * (d * d) == SquaredDeviations(xs, m)
  {
    hide Affine;
    hide Reciprocal;
    hide SquaredDeviations;
    forall i | 0 <= i < |xs| ensures Scaled(xs, m, Reciprocal(d))[i] * d == xs[i] - m {
      AffineUndone(xs[i], m, d);
    }
    SpreadScaled(xs, m, d);
  }

  lemma NormalizedIs(xs: seq<real>, mask: seq<bool>, sqrt: real -> real, d: real)
    requires |mask| == |xs| && |Chosen(xs, mask)| >= 2
    requires d == sqrt(Variance(Chosen(xs, mask))) + 0.00001 && d != 0.0
    ensures SafeNormalize(xs, mask, sqrt) == Values(Scaled(xs, Mean(Chosen(xs, mask)), Reciprocal(d)))
  {
    hide Variance;
    hide Mean;
    hide Scaled;
    hide Reciprocal;
  }

  lemma FewChosen(xs: seq<real>, mask: seq<bool>, sqrt: real -> real)
    requires |mask| == |xs|
    ensures Chosen(xs, mask) == [] ==> SafeNormalize(xs, mask, sqrt) == Values(xs)
    ensures |Chosen(xs, mask)| == 1 ==> SafeNormalize(xs, mask, sqrt).NotANumber?
  {
    hide Variance;
    hide Mean;
    hide Scaled;
  }

  /**
    The scale. Nothing chosen leaves the array as it is, one entry has no deviation. Otherwise each result times the
    standard deviation of the chosen entries plus 1e-5 is the entry less their mean, and the squares of the chosen
    results add up accordingly.
  */
  lemma NormalizeScale(xs: seq<real>, mask: seq<bool>, sqrt: real -> real)
    requires |mask| == |xs| && IsRoot(sqrt)
    ensures var valid, r := Chosen(xs, mask), SafeNormalize(xs, mask, sqrt);
            (valid == [] ==> r == Values(xs)) && (|valid| == 1 ==> r.NotANumber?) &&
            (|valid| >= 2 ==>
              r.Values? && |r.xs| == |xs| &&
              var d := sqrt(Variance(valid)) + 0.00001;
              (forall i :: 0 <= i < |xs| ==> r.xs[i] * d == xs[i] - Mean(valid)) &&
              SquaredDeviations(Chosen(r.xs, mask), 0.0) * (d * d) == SquaredDeviations(valid, Mean(valid)))
  {
    hide Variance;
    hide Mean;
    hide SafeNormalize;
    hide Chosen;
    hide Affine;
    hide Reciprocal;
    hide IsRoot;
    hide SquaredDeviations;
    var valid := Chosen(xs, mask);
    FewChosen(xs, mask, sqrt);
    if |valid| >= 2 {
      RootOfVariance(valid, sqrt);
      var m, d := Mean(valid), sqrt(Variance(valid)) + 0.00001;
      NormalizedIs(xs, mask, sqrt, d);
      ScaledBack(xs, m, d);
      ChosenScaled(xs, mask, m, Reciprocal(d));
      ScaledBack(valid, m, d);
    }
  }

  /** With at least two chosen entries the result is defined, and the chosen entries sum to zero. */
  lemma NormalizeCenters(xs: seq<real>, mask: seq<bool>, sqrt: real -> real)
    requires |mask| == |xs| && |Chosen(xs, mask)| >= 2 && IsRoot(sqrt)
    ensures SafeNormalize(xs, mask, sqrt).Values?
    ensures SumOf(Chosen(SafeNormalize(xs, mask, sqrt).xs, mask)) == 0.0
  {
    hide Variance;
    hide Mean;
    hide Affine;
    hide Reciprocal;
    hide IsRoot;
    var valid := Chosen(xs, mask);
    var std := sqrt(Variance(valid));
    RootOfVariance(valid, sqrt);
    var c := Reciprocal(std + 0.00001);
    ChosenScaled(xs, mask, Mean(valid), c);
    CenteredSum(valid, c);
  }

  lemma RootOfVariance(xs: seq<real>, sqrt: real -> real)
    requires |xs| >= 2 && IsRoot(sqrt)
    ensures sqrt(Variance(xs)) >= 0.0
  {
    hide Variance;
  }

  lemma CenteredSum(xs: seq<real>, c: real)
    requires xs != []
    ensures SumOf(Scaled(xs, Mean(xs), c)) == 0.0
  {
    hide Mean;
    SumOfScaled(xs, Mean(xs), c);
    MeanTimesCount(xs);
  }

  lemma MeanTimesCount(xs: seq<real>)
    requires xs != []
    ensures |xs| as real * Mean(xs) == SumOf(xs)
  {
  }
}
