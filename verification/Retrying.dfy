/** A loop that tries attempt 0, 1, 2, ... until one fits, and fails as soon as one cannot run. */
module Retrying {
  import opened Options

  /** The attempt the loop stops at, from attempt t on; attempt `limit` is known not to run. */
  ghost function FirstFit(runs: nat -> bool, fits: nat -> bool, t: nat, limit: nat): Option<nat>
    requires t <= limit && !runs(limit)
    decreases limit - t
  {
    if !runs(t) then None
    else if fits(t) then Some(t)
    else FirstFit(runs, fits, t + 1, limit)
  }

  /** Where the loop stops everything ran, the last attempt fits, and no earlier one did. */
  ghost predicate StopsAt(runs: nat -> bool, fits: nat -> bool, t: nat, stop: nat) {
    && t <= stop && fits(stop)
    && (forall s :: t <= s <= stop ==> runs(s))
    && (forall s :: t <= s < stop ==> !fits(s))
  }

  lemma {:induction false} FirstFitStops(runs: nat -> bool, fits: nat -> bool, t: nat, limit: nat)
    requires t <= limit && !runs(limit)
    ensures FirstFit(runs, fits, t, limit).Some? ==>
              StopsAt(runs, fits, t, FirstFit(runs, fits, t, limit).value)
    decreases limit - t
  {
    if runs(t) && !fits(t) {
      FirstFitStops(runs, fits, t + 1, limit);
    }
  }

  /** The loop succeeds as soon as some attempt fits and every attempt up to it runs, and stops no later. */
  lemma {:induction false} FirstFitFinds(runs: nat -> bool, fits: nat -> bool, t: nat, limit: nat, enough: nat)
    requires t <= limit && !runs(limit) && t <= enough && fits(enough)
    requires forall s :: t <= s <= enough ==> runs(s)
    ensures FirstFit(runs, fits, t, limit).Some? && FirstFit(runs, fits, t, limit).value <= enough
    decreases limit - t
  {
    if !fits(t) {
      FirstFitFinds(runs, fits, t + 1, limit, enough);
    }
  }
}
