/**
  Dynamic micro-batching over data-parallel ranks: start from the best-fit-decreasing count and
  retry with one more micro-batch per rank until every micro-batch on every rank fits the cap.
  The ranks run in lock step and are modelled together; a collective is a function of all of them.
*/
module DynamicBatching {
  import opened Arithmetic
  import opened Sequences
  import opened BalancedPartitions
  import opened KarmarkarKarpHeap
  import opened BestFitDecreasing
  import opened Retrying
  import opened Options
  import opened Reordering

  /** An entry of the batch: a tensor or list with one row per sample, or anything else. */
  datatype Column = PerSample(rows: seq<int>) | Whole(value: int)

  /**
    The batch of one rank: attention-mask sums, the width of the mask, the two length columns, and the other entries
    by key.
  */
  datatype Batch = Batch(masks: seq<nat>, width: nat, prompts: seq<int>, responses: seq<int>,
                         others: map<string, Column>)

  /** Columns of one length; a row of a 0/1 mask sums to at most its width. */
  ghost predicate WellFormed(b: Batch) {
    && |b.prompts| == |b.responses| == |b.masks|
    && (forall i :: 0 <= i < |b.masks| ==> b.masks[i] <= b.width)
    && (forall k :: k in b.others && b.others[k].PerSample? ==> |b.others[k].rows| == |b.masks|)
  }

  datatype Config = Config(cap: int, sameCount: bool, minCount: Option<int>, dividedBy: Option<nat>)

  // ---------- the starting counts ----------

  function RoundUp(a: int, b: nat): int
    requires b >= 1
  {
    ((a + b - 1) / b) * b
  }

  function OwnCount(b: Batch, c: Config): int {
    var packed := |Bins(b.masks, c.cap)|;
    if c.minCount.Some? then Max(c.minCount.value, packed) else packed
  }

  function OwnCounts(ranks: seq<Batch>, c: Config): (r: seq<int>)
    ensures |r| == |ranks|
    ensures forall i :: 0 <= i < |ranks| ==> r[i] == OwnCount(ranks[i], c)
  {
    seq(|ranks|, i requires 0 <= i < |ranks| => OwnCount(ranks[i], c))
  }

  function Synced(ranks: seq<Batch>, c: Config): (r: seq<int>)
    requires ranks != []
    ensures |r| == |ranks|
  {
    var own := OwnCounts(ranks, c);
    if c.sameCount then seq(|ranks|, _ => MaxOf(own)) else own
  }

  function StartCounts(ranks: seq<Batch>, c: Config): (r: seq<int>)
    requires ranks != [] && (c.dividedBy.Some? ==> c.dividedBy.value >= 1)
    ensures |r| == |ranks|
  {
    var synced := Synced(ranks, c);
    if c.dividedBy.Some?
    then seq(|ranks|, i requires 0 <= i < |ranks| => RoundUp(synced[i], c.dividedBy.value))
    else synced
  }

  /** A count the ranks may start with: no rank packs into more, no minimum is above it, and the divisor divides it. */
  ghost predicate Startable(ranks: seq<Batch>, c: Config, k: int)
    requires c.dividedBy.Some? ==> c.dividedBy.value >= 1
  {
    && (forall r :: 0 <= r < |ranks| ==> |Bins(ranks[r].masks, c.cap)| <= k)
    && (c.minCount.Some? ==> c.minCount.value <= k)
    && (c.dividedBy.Some? ==> k % c.dividedBy.value == 0)
  }

  lemma RoundUpIsLeast(a: int, b: nat, k: int)
    requires b >= 1
    ensures RoundUp(a, b) >= a && RoundUp(a, b) % b == 0
    ensures k >= a && k % b == 0 ==> RoundUp(a, b) <= k
  {
    var q := (a + b - 1) / b;
    assert a + b - 1 == b * q + (a + b - 1) % b;
    DivModUnique(q * b, b, q, 0);
    if k >= a && k % b == 0 {
      var m := k / b;
      assert k == b * m;
      if q > m {
        MulMonotone(q, m + 1, b);
      } else {
        MulMonotone(m, q, b);
      }
    }
  }

  /** The largest own count, which is the common one, before rounding. */
  lemma LargestIsLeast(ranks: seq<Batch>, c: Config, k: int)
    requires ranks != [] && c.dividedBy.None?
    ensures Startable(ranks, c, MaxOf(OwnCounts(ranks, c)))
    ensures Startable(ranks, c, k) ==> MaxOf(OwnCounts(ranks, c)) <= k
  {
    hide Bins;
    var own := OwnCounts(ranks, c);
    var m := MaxOf(own);
    var i :| 0 <= i < |own| && own[i] == m;
    assert m == OwnCount(ranks[i], c);
    forall j | 0 <= j < |ranks| ensures |Bins(ranks[j].masks, c.cap)| <= m {
      assert own[j] == OwnCount(ranks[j], c);
    }
    if Startable(ranks, c, k) {
      assert |Bins(ranks[i].masks, c.cap)| <= k;
    }
  }

  lemma SyncedIsLeast(ranks: seq<Batch>, c: Config, r: nat, k: int)
    requires r < |ranks| && c.dividedBy.None?
    ensures var among := if c.sameCount then ranks else [ranks[r]];
            Startable(among, c, Synced(ranks, c)[r]) && (Startable(among, c, k) ==> Synced(ranks, c)[r] <= k)
  {
    hide Bins;
    if c.sameCount {
      LargestIsLeast(ranks, c, k);
    } else {
      assert OwnCounts(ranks, c)[r] == OwnCount(ranks[r], c);
      var one := [ranks[r]];
      assert one[0] == ranks[r];
      if Startable(one, c, k) {
        assert |Bins(one[0].masks, c.cap)| <= k;
      }
    }
  }

  lemma SyncedUndivided(ranks: seq<Batch>, c: Config)
    requires ranks != []
    ensures Synced(ranks, c) == Synced(ranks, c.(dividedBy := None))
  {
    hide OwnCount;
    assert OwnCounts(ranks, c) == OwnCounts(ranks, c.(dividedBy := None)) by {
      forall i | 0 <= i < |ranks| ensures OwnCount(ranks[i], c) == OwnCount(ranks[i], c.(dividedBy := None)) {
        OwnUndivided(ranks[i], c);
      }
    }
  }

  lemma OwnUndivided(b: Batch, c: Config)
    ensures OwnCount(b, c) == OwnCount(b, c.(dividedBy := None))
  {
    hide Bins;
  }

  /**
    The starting count is the least there is: with synchronised counts among all ranks, otherwise for each rank by
    itself.
  */
  lemma StartIsLeast(ranks: seq<Batch>, c: Config, r: nat, k: int)
    requires r < |ranks| && (c.dividedBy.Some? ==> c.dividedBy.value >= 1)
    ensures var among := if c.sameCount then ranks else [ranks[r]];
            var start := StartCounts(ranks, c)[r];
            Startable(among, c, start) && (Startable(among, c, k) ==> start <= k)
  {
    hide Bins;
    hide Synced;
    hide RoundUp;
    SyncedUndivided(ranks, c);
    SyncedIsLeast(ranks, c.(dividedBy := None), r, k);
    SyncedIsLeast(ranks, c.(dividedBy := None), r, StartCounts(ranks, c)[r]);
    if c.dividedBy.Some? {
      RoundUpIsLeast(Synced(ranks, c)[r], c.dividedBy.value, k);
    }
  }

  // ---------- one attempt ----------

  function PartTokens(b: Batch, p: seq<nat>): int
    requires Indices(p, |b.prompts|) && Indices(p, |b.responses|)
  {
    Sum(Gather(b.prompts, p)) + Sum(Gather(b.responses, p))
  }

  ghost predicate Fits(b: Batch, cap: int, parts: seq<seq<nat>>) {
    forall i :: 0 <= i < |parts| ==>
      Indices(parts[i], |b.prompts|) && Indices(parts[i], |b.responses|) && PartTokens(b, parts[i]) <= cap
  }

  /** k micro-batches on one rank can be formed, and each is within the cap. */
  ghost predicate FitsAt(b: Batch, cap: int, k: int) {
    Balanced(b.masks, k, false).Success? && Fits(b, cap, Balanced(b.masks, k, false).value)
  }

  /** No rank's assertion fires after t retries. */
  ghost predicate AllRun(ranks: seq<Batch>, ks: seq<int>, t: nat)
    requires |ks| == |ranks|
  {
    forall r :: 0 <= r < |ranks| ==> Usable(ranks[r].masks, ks[r] + t, false)
  }

  /** `all_reduce` with MIN over the ranks' validity flags after t retries. */
  ghost predicate AllFit(ranks: seq<Batch>, cap: int, ks: seq<int>, t: nat)
    requires |ks| == |ranks|
  {
    forall r :: 0 <= r < |ranks| ==> FitsAt(ranks[r], cap, ks[r] + t)
  }

  // ---------- the retry loop ----------

  /** The first rank has no partition into this many more micro-batches. */
  function Limit(ranks: seq<Batch>, ks: seq<int>): nat
    requires |ks| == |ranks| && ranks != []
  {
    if ks[0] <= |ranks[0].masks| then |ranks[0].masks| + 1 - ks[0] else 0
  }

  /** How many retries the loop makes; None when an assertion ends it. It always ends. */
  ghost function Search(ranks: seq<Batch>, cap: int, ks: seq<int>): Option<nat>
    requires |ks| == |ranks| && ranks != []
  {
    FirstFit((t: nat) => AllRun(ranks, ks, t), (t: nat) => AllFit(ranks, cap, ks, t), 0, Limit(ranks, ks))
  }

  ghost function Plan(lens: seq<nat>, k: int): (parts: seq<seq<nat>>)
    requires Usable(lens, k, false)
    ensures Balanced(lens, k, false) == Success(parts)
  {
    BalancedSucceeds(lens, k, false);
    Balanced(lens, k, false).value
  }

  /** The partitions every rank holds after t retries. */
  ghost function Taken(ranks: seq<Batch>, ks: seq<int>, t: nat): (v: seq<seq<seq<nat>>>)
    requires |ks| == |ranks| && AllRun(ranks, ks, t)
    ensures |v| == |ranks|
    ensures forall r :: 0 <= r < |ranks| ==> Balanced(ranks[r].masks, ks[r] + t, false) == Success(v[r])
  {
    seq(|ranks|, r requires 0 <= r < |ranks| => Plan(ranks[r].masks, ks[r] + t))
  }

  /** `get_iterator_dynamic` on dictionaries: the partitions every rank ends up with. */
  ghost function Iterate(ranks: seq<Batch>, c: Config): Result<seq<seq<seq<nat>>>>
    requires ranks != [] && (c.dividedBy.Some? ==> c.dividedBy.value >= 1)
  {
    if exists r :: 0 <= r < |ranks| && c.cap < ranks[r].width then Failure
    else
      var ks := StartCounts(ranks, c);
      var found := Search(ranks, c.cap, ks);
      if found.Some? && AllRun(ranks, ks, found.value) then Success(Taken(ranks, ks, found.value)) else Failure
  }

  // ---------- what the loop returns ----------

  /** The loop stops after `retries` retries: every attempt ran, the last one fits, no earlier one did. */
  ghost predicate StopsAfter(ranks: seq<Batch>, cap: int, ks: seq<int>, retries: nat)
    requires |ks| == |ranks|
  {
    && AllFit(ranks, cap, ks, retries)
    && (forall t: nat :: t <= retries ==> AllRun(ranks, ks, t))
    && (forall t: nat :: t < retries ==> !AllFit(ranks, cap, ks, t))
  }

  lemma LimitStops(ranks: seq<Batch>, ks: seq<int>)
    requires |ks| == |ranks| && ranks != []
    ensures !AllRun(ranks, ks, Limit(ranks, ks))
  {
    assert !Usable(ranks[0].masks, ks[0] + Limit(ranks, ks), false);
  }

  lemma SearchSuccess(ranks: seq<Batch>, cap: int, ks: seq<int>)
    requires |ks| == |ranks| && ranks != [] && Search(ranks, cap, ks).Some?
    ensures StopsAfter(ranks, cap, ks, Search(ranks, cap, ks).value)
  {
    hide AllRun;
    hide AllFit;
    hide Limit;
    var runs, fits := (t: nat) => AllRun(ranks, ks, t), (t: nat) => AllFit(ranks, cap, ks, t);
    LimitStops(ranks, ks);
    FirstFitStops(runs, fits, 0, Limit(ranks, ks));
    var stop := FirstFit(runs, fits, 0, Limit(ranks, ks)).value;
    forall t: nat | t <= stop ensures AllRun(ranks, ks, t) {
      assert runs(t);
    }
    forall t: nat | t < stop ensures !AllFit(ranks, cap, ks, t) {
      assert !fits(t);
    }
  }

  lemma SearchFinds(ranks: seq<Batch>, cap: int, ks: seq<int>, enough: nat)
    requires |ks| == |ranks| && ranks != []
    requires AllRun(ranks, ks, 0) && AllFit(ranks, cap, ks, enough)
    ensures Search(ranks, cap, ks).Some? && Search(ranks, cap, ks).value <= enough
  {
    hide Balanced;
    var runs, fits := (t: nat) => AllRun(ranks, ks, t), (t: nat) => AllFit(ranks, cap, ks, t);
    forall t: nat | t <= enough ensures runs(t) {
      forall r | 0 <= r < |ranks| ensures Usable(ranks[r].masks, ks[r] + t, false) {
        BalancedSucceeds(ranks[r].masks, ks[r] + enough, false);
        assert FitsAt(ranks[r], cap, ks[r] + enough);
        assert Usable(ranks[r].masks, ks[r], false);
      }
    }
    FirstFitFinds(runs, fits, 0, Limit(ranks, ks), enough);
  }

  /** The loop succeeds exactly when it can start and some number of retries fits on every rank. */
  lemma SearchOutcome(ranks: seq<Batch>, cap: int, ks: seq<int>)
    requires |ks| == |ranks| && ranks != []
    ensures Search(ranks, cap, ks).Some? <==>
            AllRun(ranks, ks, 0) && exists t: nat :: AllFit(ranks, cap, ks, t)
  {
    hide AllRun;
    hide AllFit;
    hide Search;
    if Search(ranks, cap, ks).Some? {
      SearchSuccess(ranks, cap, ks);
    }
    if AllRun(ranks, ks, 0) && exists t: nat :: AllFit(ranks, cap, ks, t) {
      var t: nat :| AllFit(ranks, cap, ks, t);
      SearchFinds(ranks, cap, ks, t);
    }
  }

  lemma IterateSuccess(ranks: seq<Batch>, c: Config) returns (retries: nat)
    requires ranks != [] && (c.dividedBy.Some? ==> c.dividedBy.value >= 1)
    requires Iterate(ranks, c).Success?
    ensures StopsAfter(ranks, c.cap, StartCounts(ranks, c), retries)
    ensures Iterate(ranks, c).value == Taken(ranks, StartCounts(ranks, c), retries)
  {
    hide StartCounts;
    hide StopsAfter;
    hide AllRun;
    var ks := StartCounts(ranks, c);
    SearchSuccess(ranks, c.cap, ks);
    retries := Search(ranks, c.cap, ks).value;
  }

  /** On success every micro-batch on every rank fits the cap, and each rank's samples appear exactly once. */
  lemma ResultFitsAndCovers(ranks: seq<Batch>, c: Config, r: nat)
    requires ranks != [] && (c.dividedBy.Some? ==> c.dividedBy.value >= 1) && r < |ranks|
    requires Iterate(ranks, c).Success?
    ensures |Iterate(ranks, c).value| == |ranks|
    ensures var parts := Iterate(ranks, c).value[r];
            Fits(ranks[r], c.cap, parts) && IsPermutation(Flatten(parts), |ranks[r].masks|) &&
            forall i :: 0 <= i < |parts| ==> parts[i] != []
  {
    hide StartCounts;
    hide Balanced;
    hide Iterate;
    var ks := StartCounts(ranks, c);
    var t := IterateSuccess(ranks, c);
    assert AllRun(ranks, ks, t) && FitsAt(ranks[r], c.cap, ks[r] + t);
    BalancedCovers(ranks[r].masks, ks[r] + t, false);
  }

  // ---------- when the loop is sure to succeed, and how soon ----------

  /** The token columns never promise more than the mask counted. */
  ghost predicate Consistent(b: Batch) {
    WellFormed(b) && forall i :: 0 <= i < |b.masks| ==> b.prompts[i] + b.responses[i] <= b.masks[i]
  }

  lemma {:induction false} TokensWithinLoad(b: Batch, p: seq<nat>)
    requires Consistent(b) && Indices(p, |b.masks|)
    ensures PartTokens(b, p) <= PartLoad(b.masks, p)
  {
    if p == [] {
    } else {
      TokensWithinLoad(b, p[1..]);
      assert Gather(b.prompts, p)[1..] == Gather(b.prompts, p[1..]);
      assert Gather(b.responses, p)[1..] == Gather(b.responses, p[1..]);
      assert Gather(b.masks, p)[1..] == Gather(b.masks, p[1..]);
    }
  }

  /**
    Enough micro-batches for the spread bound: total + (k - 1) * longest < k * (cap + 1), in particular if it is at
    most k * cap.
  */
  ghost predicate Enough(b: Batch, cap: int, k: int) {
    Sum(b.masks) + (k - 1) * MaxLen(b.masks) < k * (cap + 1)
  }

  lemma EnoughFits(b: Batch, cap: int, k: int)
    requires Consistent(b) && Usable(b.masks, k, false) && Enough(b, cap, k)
    ensures FitsAt(b, cap, k)
  {
    hide Balanced;
    BalancedCovers(b.masks, k, false);
    MaxLenCovers(b.masks, k);
    var parts := Balanced(b.masks, k, false).value;
    forall i | 0 <= i < |parts|
      ensures Indices(parts[i], |b.masks|) && PartTokens(b, parts[i]) <= cap
    {
      BalancedLoads(b.masks, k, false, MaxLen(b.masks), i, i);
      TokensWithinLoad(b, parts[i]);
      ScaledBound(k, PartLoad(b.masks, parts[i]), cap);
    }
  }

  lemma ScaledBound(k: int, load: int, cap: int)
    requires 1 <= k && k * load < k * (cap + 1)
    ensures load <= cap
  {
    if load > cap {
      MulMonotone(load, cap + 1, k);
    }
  }

  lemma EnoughMonotone(b: Batch, cap: int, k: int, k': int)
    requires k <= k' && MaxLen(b.masks) <= cap && Enough(b, cap, k)
    ensures Enough(b, cap, k')
  {
    var m := MaxLen(b.masks);
    MulMonotone(k' - k, 0, cap + 1 - m);
    assert (k' - k) * (cap + 1 - m) == k' * (cap + 1) - k * (cap + 1) - ((k' - 1) * m - (k - 1) * m);
  }

  lemma {:induction false} SinglesWhenFull<T>(parts: seq<seq<T>>)
    requires forall i :: 0 <= i < |parts| ==> parts[i] != []
    ensures |Flatten(parts)| >= |parts|
    ensures |Flatten(parts)| == |parts| ==> forall i :: 0 <= i < |parts| ==> |parts[i]| == 1
  {
    if parts == [] {
    } else {
      SinglesWhenFull(parts[1..]);
      assert forall i :: 1 <= i < |parts| ==> parts[i] == parts[1..][i - 1];
    }
  }

  lemma SingleFits(b: Batch, cap: int, p: seq<nat>)
    requires Consistent(b) && b.width <= cap && |p| == 1 && Indices(p, |b.masks|)
    ensures PartTokens(b, p) <= cap
  {
    TokensWithinLoad(b, p);
    var g := Gather(b.masks, p);
    assert g == [b.masks[p[0]]] && g[1..] == [];
    assert Sum(g) == g[0] + Sum(g[1..]);
  }

  /** With as many micro-batches as samples, each holds one sample. */
  lemma FullCountFits(b: Batch, cap: int)
    requires Consistent(b) && b.masks != [] && b.width <= cap
    ensures FitsAt(b, cap, |b.masks|)
  {
    hide Balanced;
    var n := |b.masks|;
    BalancedCovers(b.masks, n, false);
    var parts := Balanced(b.masks, n, false).value;
    PermutationIndices(Flatten(parts), n);
    SinglesWhenFull(parts);
    forall i | 0 <= i < n ensures Indices(parts[i], n) && PartTokens(b, parts[i]) <= cap {
      FlattenMember(parts, i, 0);
      assert parts[i][0] in Flatten(parts);
      SingleFits(b, cap, parts[i]);
    }
  }

  ghost predicate SameStart(ks: seq<int>, k: int) {
    forall r :: 0 <= r < |ks| ==> ks[r] == k
  }

  /** Ranks of n samples each, whose columns are consistent and whose masks are no wider than the cap. */
  ghost predicate Aligned(ranks: seq<Batch>, cap: int, n: nat) {
    forall r :: 0 <= r < |ranks| ==> Consistent(ranks[r]) && |ranks[r].masks| == n && ranks[r].width <= cap
  }

  /** Starting from a common count between 1 and n, the loop succeeds with at most n micro-batches. */
  lemma SearchReachesN(ranks: seq<Batch>, cap: int, ks: seq<int>, n: nat, k: int)
    requires |ks| == |ranks| && ranks != [] && Aligned(ranks, cap, n) && SameStart(ks, k) && 1 <= k <= n
    ensures Search(ranks, cap, ks).Some? && k + Search(ranks, cap, ks).value <= n
  {
    hide FitsAt;
    hide Search;
    forall r | 0 <= r < |ranks| ensures FitsAt(ranks[r], cap, ks[r] + (n - k)) {
      FullCountFits(ranks[r], cap);
    }
    SearchFinds(ranks, cap, ks, n - k);
  }

  lemma {:induction false} MaxLenIn(lens: seq<nat>)
    ensures lens == [] ==> MaxLen(lens) == 0
    ensures lens != [] ==> MaxLen(lens) in lens
  {
    if lens == [] {
    } else {
      MaxLenIn(lens[1..]);
    }
  }

  /** ... and no later than the first count, from the start on, that the spread bound proves enough on every rank. */
  lemma SearchStopsByBound(ranks: seq<Batch>, cap: int, ks: seq<int>, n: nat, k: int, bound: int)
    requires |ks| == |ranks| && ranks != [] && Aligned(ranks, cap, n) && SameStart(ks, k) && 1 <= k <= n
    requires 1 <= bound <= n && forall r :: 0 <= r < |ranks| ==> Enough(ranks[r], cap, bound)
    ensures Search(ranks, cap, ks).Some? && k + Search(ranks, cap, ks).value <= Max(k, bound)
  {
    hide FitsAt;
    hide Search;
    hide Enough;
    var stop := Max(k, bound);
    forall r | 0 <= r < |ranks| ensures FitsAt(ranks[r], cap, ks[r] + (stop - k)) {
      MaxLenIn(ranks[r].masks);
      EnoughMonotone(ranks[r], cap, bound, stop);
      EnoughFits(ranks[r], cap, stop);
    }
    SearchFinds(ranks, cap, ks, stop - k);
  }

  lemma PackCount(b: Batch, cap: int)
    requires WellFormed(b) && b.masks != [] && b.width <= cap
    ensures 1 <= |Bins(b.masks, cap)| <= |b.masks|
  {
    hide Bins;
    var bins := Bins(b.masks, cap);
    PackedPartitions(b.masks, cap);
    BinsGood(b.masks, cap);
    ItemsCount(b.masks, bins);
  }

  lemma OwnCountPositive(b: Batch, c: Config)
    requires WellFormed(b) && b.masks != [] && b.width <= c.cap
    ensures OwnCount(b, c) >= 1
  {
    hide Bins;
    PackCount(b, c.cap);
  }

  /** The synchronised starting count is the same on every rank, and positive if there are samples. */
  lemma StartIsCommon(ranks: seq<Batch>, c: Config, n: nat)
    requires ranks != [] && Aligned(ranks, c.cap, n) && c.sameCount
    requires c.dividedBy.Some? ==> c.dividedBy.value >= 1
    ensures SameStart(StartCounts(ranks, c), StartCounts(ranks, c)[0])
    ensures n >= 1 ==> StartCounts(ranks, c)[0] >= 1
  {
    hide OwnCount;
    hide RoundUp;
    var own := OwnCounts(ranks, c);
    if n >= 1 {
      OwnCountPositive(ranks[0], c);
      assert MaxOf(own) >= own[0];
    }
    if c.dividedBy.Some? {
      RoundUpIsLeast(Synced(ranks, c)[0], c.dividedBy.value, 0);
    }
  }

  /** Every rank gets m micro-batches. */
  ghost predicate EveryRankGets(v: seq<seq<seq<nat>>>, m: int) {
    forall r :: 0 <= r < |v| ==> |v[r]| == m
  }

  /** On success every rank gets its start plus the retries. */
  lemma CountsOnSuccess(ranks: seq<Batch>, c: Config, m: int, t: nat, k: int)
    requires ranks != [] && (c.dividedBy.Some? ==> c.dividedBy.value >= 1)
    requires AllRun(ranks, StartCounts(ranks, c), t) && SameStart(StartCounts(ranks, c), k) && m == k + t
    ensures EveryRankGets(Taken(ranks, StartCounts(ranks, c), t), m)
  {
    hide Balanced;
    hide StartCounts;
    hide AllRun;
    var ks := StartCounts(ranks, c);
    forall r | 0 <= r < |ranks| ensures |Taken(ranks, ks, t)[r]| == m {
      UsableAfter(ranks, ks, t, r);
      BalancedCovers(ranks[r].masks, ks[r] + t, false);
    }
  }

  lemma UsableAfter(ranks: seq<Batch>, ks: seq<int>, t: nat, r: nat)
    requires |ks| == |ranks| && AllRun(ranks, ks, t) && r < |ranks|
    ensures Usable(ranks[r].masks, ks[r] + t, false)
  {
  }

  /** Aligned, synchronised ranks: the run succeeds if and only if the common start lies between 1 and n. */
  lemma SucceedsIffStartFits(ranks: seq<Batch>, c: Config, n: nat)
    requires ranks != [] && Aligned(ranks, c.cap, n) && c.sameCount
    requires c.dividedBy.Some? ==> c.dividedBy.value >= 1
    ensures Iterate(ranks, c).Success? <==> 1 <= StartCounts(ranks, c)[0] <= n
  {
    hide StartCounts;
    hide StopsAfter;
    hide Search;
    hide Taken;
    hide AllRun;
    var ks := StartCounts(ranks, c);
    StartIsCommon(ranks, c, n);
    if 1 <= ks[0] <= n {
      SearchReachesN(ranks, c.cap, ks, n, ks[0]);
      SearchSuccess(ranks, c.cap, ks);
      RanAtStop(ranks, c.cap, ks, Search(ranks, c.cap, ks).value);
    }
    if Iterate(ranks, c).Success? {
      var t := IterateSuccess(ranks, c);
      RanAtStop(ranks, c.cap, ks, t);
      UsableAfter(ranks, ks, 0, 0);
    }
  }

  lemma RanAtStop(ranks: seq<Batch>, cap: int, ks: seq<int>, t: nat)
    requires |ks| == |ranks| && StopsAfter(ranks, cap, ks, t)
    ensures AllRun(ranks, ks, t) && AllRun(ranks, ks, 0)
  {
    hide AllRun;
    hide AllFit;
  }

  /**
    Main result. On ranks of n samples each, with synchronised counts and any forced count or divisor, the iterator
    succeeds exactly when the common start is at most n (and positive, that is n > 0). Every rank then gets the same
    number of micro-batches, at most n, and at most the first count from the start on that the spread bound proves
    enough.
  */
  lemma IteratorSucceeds(ranks: seq<Batch>, c: Config, n: nat) returns (m: int)
    requires ranks != [] && Aligned(ranks, c.cap, n) && c.sameCount
    requires c.dividedBy.Some? ==> c.dividedBy.value >= 1
    ensures Iterate(ranks, c).Success? <==> 1 <= StartCounts(ranks, c)[0] <= n
    ensures Iterate(ranks, c).Success? ==>
      |Iterate(ranks, c).value| == |ranks| && EveryRankGets(Iterate(ranks, c).value, m) &&
      StartCounts(ranks, c)[0] <= m <= n &&
      forall bound :: 1 <= bound <= n && (forall r :: 0 <= r < |ranks| ==> Enough(ranks[r], c.cap, bound)) ==>
        m <= Max(StartCounts(ranks, c)[0], bound)
  {
    hide StartCounts;
    hide StopsAfter;
    hide Search;
    hide Enough;
    hide AllRun;
    hide Iterate;
    var ks := StartCounts(ranks, c);
    m := 0;
    SucceedsIffStartFits(ranks, c, n);
    if Iterate(ranks, c).Success? {
      StartIsCommon(ranks, c, n);
      var t := SuccessIsSearch(ranks, c);
      m := ks[0] + t;
      RanAtStop(ranks, c.cap, ks, t);
      CountsOnSuccess(ranks, c, m, t, ks[0]);
      SearchReachesN(ranks, c.cap, ks, n, ks[0]);
      forall bound | 1 <= bound <= n && (forall r :: 0 <= r < |ranks| ==> Enough(ranks[r], c.cap, bound))
        ensures m <= Max(ks[0], bound)
      {
        SearchStopsByBound(ranks, c.cap, ks, n, ks[0], bound);
      }
    }
  }

  /** The bound on the count, for a given number of micro-batches that is proved enough. */
  lemma CountBounded(ranks: seq<Batch>, c: Config, n: nat, m: int, bound: int)
    requires ranks != [] && Aligned(ranks, c.cap, n) && c.sameCount
    requires c.dividedBy.Some? ==> c.dividedBy.value >= 1
    requires Iterate(ranks, c).Success? && EveryRankGets(Iterate(ranks, c).value, m)
    requires 1 <= bound <= n && forall r :: 0 <= r < |ranks| ==> Enough(ranks[r], c.cap, bound)
    ensures m <= Max(StartCounts(ranks, c)[0], bound)
  {
    hide StartCounts;
    hide Iterate;
    hide Enough;
    var k := StartCounts(ranks, c)[0];
    var m' := IteratorSucceeds(ranks, c, n);
    assert m' <= Max(k, bound);
    assert |Iterate(ranks, c).value[0]| == m == m';
  }

  lemma SuccessIsSearch(ranks: seq<Batch>, c: Config) returns (t: nat)
    requires ranks != [] && (c.dividedBy.Some? ==> c.dividedBy.value >= 1) && Iterate(ranks, c).Success?
    ensures Search(ranks, c.cap, StartCounts(ranks, c)) == Some(t)
    ensures StopsAfter(ranks, c.cap, StartCounts(ranks, c), t)
    ensures AllRun(ranks, StartCounts(ranks, c), t)
    ensures Iterate(ranks, c).value == Taken(ranks, StartCounts(ranks, c), t)
  {
    hide StartCounts;
    hide StopsAfter;
    hide AllRun;
    hide Search;
    SearchSuccess(ranks, c.cap, StartCounts(ranks, c));
    t := Search(ranks, c.cap, StartCounts(ranks, c)).value;
  }

  // ---------- ranks of any sizes and starts ----------

  /** On this rank k micro-batches are proved to fit: by the spread bound, or one sample each. */
  ghost predicate SurelyFits(b: Batch, cap: int, k: int) {
    Consistent(b) && b.width <= cap && 1 <= k <= |b.masks| && (Enough(b, cap, k) || k == |b.masks|)
  }

  lemma SurelyFitsFits(b: Batch, cap: int, k: int)
    requires SurelyFits(b, cap, k)
    ensures FitsAt(b, cap, k)
  {
    hide FitsAt;
    hide Enough;
    if k == |b.masks| {
      FullCountFits(b, cap);
    } else {
      EnoughFits(b, cap, k);
    }
  }

  /**
    Whatever the batch sizes and whether or not the counts are synchronised: if t retries keep every rank's count
    between 1 and its number of samples, and are proved to fit on every rank, the run succeeds within t retries.
  */
  lemma SucceedsWithin(ranks: seq<Batch>, c: Config, t: nat)
    requires ranks != [] && (c.dividedBy.Some? ==> c.dividedBy.value >= 1)
    requires forall r :: 0 <= r < |ranks| ==>
      StartCounts(ranks, c)[r] >= 1 && SurelyFits(ranks[r], c.cap, StartCounts(ranks, c)[r] + t)
    ensures Iterate(ranks, c).Success?
    ensures Search(ranks, c.cap, StartCounts(ranks, c)).Some? && Search(ranks, c.cap, StartCounts(ranks, c)).value <= t
  {
    hide StartCounts;
    hide FitsAt;
    hide Search;
    hide Enough;
    hide Taken;
    hide StopsAfter;
    var ks := StartCounts(ranks, c);
    forall r | 0 <= r < |ranks| ensures FitsAt(ranks[r], c.cap, ks[r] + t) {
      SurelyFitsFits(ranks[r], c.cap, ks[r] + t);
    }
    SearchFinds(ranks, c.cap, ks, t);
    SearchSuccess(ranks, c.cap, ks);
    RanAtStop(ranks, c.cap, ks, Search(ranks, c.cap, ks).value);
  }

  // ---------- where the program's expectations fail ----------

  /** A rank that would have to start with more micro-batches than it has samples ends the run. */
  lemma StartTooLarge(ranks: seq<Batch>, c: Config, r: nat)
    requires ranks != [] && (c.dividedBy.Some? ==> c.dividedBy.value >= 1) && r < |ranks|
    requires StartCounts(ranks, c)[r] > |ranks[r].masks|
    ensures Iterate(ranks, c).Failure?
  {
    hide StartCounts;
    hide Search;
    var ks := StartCounts(ranks, c);
    if Iterate(ranks, c).Success? {
      var t := IterateSuccess(ranks, c);
    }
  }

  /**
    Retries raise the count on every rank at once: a rank that starts with as many micro-batches as samples, as can
    happen when the counts are not synchronised, lets no other rank retry.
  */
  lemma FullRankBlocksRetry(ranks: seq<Batch>, c: Config, full: nat, other: nat)
    requires ranks != [] && (c.dividedBy.Some? ==> c.dividedBy.value >= 1) && full < |ranks| && other < |ranks|
    requires StartCounts(ranks, c)[full] == |ranks[full].masks|
    requires !FitsAt(ranks[other], c.cap, StartCounts(ranks, c)[other])
    ensures Iterate(ranks, c).Failure?
  {
    hide StartCounts;
    hide StopsAfter;
    hide Iterate;
    hide FitsAt;
    if Iterate(ranks, c).Success? {
      var t := IterateSuccess(ranks, c);
      FullRankNeverRetries(ranks, c.cap, StartCounts(ranks, c), t, full, other);
    }
  }

  lemma FullRankNeverRetries(ranks: seq<Batch>, cap: int, ks: seq<int>, t: nat, full: nat, other: nat)
    requires |ks| == |ranks| && StopsAfter(ranks, cap, ks, t) && full < |ranks| && other < |ranks|
    requires ks[full] == |ranks[full].masks|
    ensures t == 0 && FitsAt(ranks[other], cap, ks[other])
  {
    hide FitsAt;
    hide AllFit;
    assert t >= 1 ==> AllRun(ranks, ks, 1);
    FitsAfter(ranks, cap, ks, t, other);
  }

  lemma FitsAfter(ranks: seq<Batch>, cap: int, ks: seq<int>, t: nat, r: nat)
    requires |ks| == |ranks| && AllFit(ranks, cap, ks, t) && r < |ranks|
    ensures FitsAt(ranks[r], cap, ks[r] + t)
  {
    hide FitsAt;
  }

  // ---------- the divisor ----------

  lemma StartMultiple(ranks: seq<Batch>, c: Config, d: nat, r: nat) returns (q: int)
    requires ranks != [] && c.dividedBy == Some(d) && d >= 1 && r < |ranks|
    ensures StartCounts(ranks, c)[r] == q * d
  {
    hide Synced;
    q := (Synced(ranks, c)[r] + d - 1) / d;
  }

  lemma AddMultiple(q: int, d: nat, t: nat)
    requires d >= 1
    ensures (q * d + t) % d == t % d
  {
    assert t == d * (t / d) + t % d;
    assert q * d + t == d * (q + t / d) + t % d;
    DivModUnique(q * d + t, d, q + t / d, t % d);
  }

  lemma SmallRemainder(t: nat, d: nat)
    requires t < d
    ensures t % d == 0 <==> t == 0
  {
    DivModUnique(t, d, 0, t);
  }

  /** If the spread bound already holds at the start, there is no retry and the divisor divides every count. */
  lemma DivisibleWhenEnough(ranks: seq<Batch>, c: Config, n: nat, d: nat)
    requires ranks != [] && Aligned(ranks, c.cap, n) && c.sameCount && c.dividedBy == Some(d) && d >= 1
    requires StartCounts(ranks, c)[0] <= n
    requires forall r :: 0 <= r < |ranks| ==> Enough(ranks[r], c.cap, StartCounts(ranks, c)[0])
    requires 1 <= n
    ensures Iterate(ranks, c).Success?
    ensures EveryRankGets(Iterate(ranks, c).value, StartCounts(ranks, c)[0])
    ensures StartCounts(ranks, c)[0] % d == 0
  {
    hide StartCounts;
    hide Iterate;
    hide Enough;
    StartIsCommon(ranks, c, n);
    var m := IteratorSucceeds(ranks, c, n);
    var k := StartCounts(ranks, c)[0];
    assert m <= Max(k, k);
    var q := StartMultiple(ranks, c, d, 0);
    MultipleModZero(q, d);
  }

  /** Fewer than d retries are sure to be enough: by the spread bound, or because the samples run out. */
  ghost predicate FewRetries(ranks: seq<Batch>, cap: int, n: nat, k: int, d: nat) {
    k + d - 1 >= n || forall r :: 0 <= r < |ranks| ==> Enough(ranks[r], cap, k + d - 1)
  }

  lemma RetriesBelow(ranks: seq<Batch>, cap: int, ks: seq<int>, n: nat, k: int, d: nat)
    requires |ks| == |ranks| && ranks != [] && Aligned(ranks, cap, n) && SameStart(ks, k) && 1 <= k <= n
    requires 1 <= d && FewRetries(ranks, cap, n, k, d)
    ensures Search(ranks, cap, ks).Some? && Search(ranks, cap, ks).value < d
  {
    hide Search;
    hide Enough;
    hide Aligned;
    SearchReachesN(ranks, cap, ks, n, k);
    if k + d - 1 < n {
      SearchStopsByBound(ranks, cap, ks, n, k, k + d - 1);
    }
  }

  /**
    If fewer than d retries are sure to be enough, the divisor divides the final count exactly when the first attempt
    fits on every rank, that is when no rank asks for a retry at the start.
  */
  lemma DivisibleIffStartFits(ranks: seq<Batch>, c: Config, n: nat, d: nat) returns (m: int)
    requires ranks != [] && Aligned(ranks, c.cap, n) && c.sameCount && c.dividedBy == Some(d) && d >= 1
    requires 1 <= StartCounts(ranks, c)[0] <= n && FewRetries(ranks, c.cap, n, StartCounts(ranks, c)[0], d)
    ensures Iterate(ranks, c).Success? && EveryRankGets(Iterate(ranks, c).value, m)
    ensures m % d == 0 <==> AllFit(ranks, c.cap, StartCounts(ranks, c), 0)
  {
    hide StartCounts;
    hide Iterate;
    hide FewRetries;
    hide AllFit;
    hide AllRun;
    hide StopsAfter;
    hide Search;
    hide Aligned;
    hide SameStart;
    hide EveryRankGets;
    hide Taken;
    hide Balanced;
    var ks := StartCounts(ranks, c);
    StartIsCommon(ranks, c, n);
    SucceedsIffStartFits(ranks, c, n);
    var t := SuccessIsSearch(ranks, c);
    m := ks[0] + t;
    CountsOnSuccess(ranks, c, m, t, ks[0]);
    RetriesBelow(ranks, c.cap, ks, n, ks[0], d);
    var q := StartMultiple(ranks, c, d, 0);
    AddMultiple(q, d, t);
    SmallRemainder(t, d);
    NoRetryIff(ranks, c.cap, ks, t);
  }

  lemma NoRetryIff(ranks: seq<Batch>, cap: int, ks: seq<int>, t: nat)
    requires |ks| == |ranks| && StopsAfter(ranks, cap, ks, t)
    ensures t == 0 <==> AllFit(ranks, cap, ks, 0)
  {
    hide AllFit;
    hide AllRun;
  }

  // ---------- the program ----------

  /** The gathered columns of one micro-batch; entries that are not per sample are left out. */
  datatype MicroBatch = MicroBatch(prompts: seq<int>, responses: seq<int>, others: map<string, seq<int>>)

  /** The column has one entry for each index of p, and entry j is row p[j]. */
  ghost predicate RowsAt(rows: seq<int>, p: seq<nat>, column: seq<int>) {
    |column| == |p| && forall j :: 0 <= j < |p| ==> p[j] < |rows| && column[j] == rows[p[j]]
  }

  ghost predicate PerSampleKey(b: Batch, k: string) {
    k in b.others && b.others[k].PerSample?
  }

  /** The micro-batch has the rows of p in every column, under exactly the keys of the per-sample entries. */
  ghost predicate Stacks(b: Batch, p: seq<nat>, one: MicroBatch) {
    && RowsAt(b.prompts, p, one.prompts) && RowsAt(b.responses, p, one.responses)
    && (forall k :: k in one.others <==> PerSampleKey(b, k))
    && (forall k :: k in one.others && PerSampleKey(b, k) ==> RowsAt(b.others[k].rows, p, one.others[k]))
  }

  /** Every per-sample column reaches all the rows of p. */
  ghost predicate Selects(b: Batch, p: seq<nat>) {
    && Indices(p, |b.prompts|) && Indices(p, |b.responses|)
    && forall k :: PerSampleKey(b, k) ==> Indices(p, |b.others[k].rows|)
  }

  /** The loop over the entries of the batch. */
  method GatherOthers(b: Batch, p: seq<nat>) returns (r: map<string, seq<int>>)
    requires Selects(b, p)
    ensures forall k :: k in r <==> PerSampleKey(b, k)
    ensures forall k :: k in r && PerSampleKey(b, k) ==> RowsAt(b.others[k].rows, p, r[k])
  {
    hide RowsAt;
    r := map[];
    var todo := b.others.Keys;
    while todo != {}
      invariant todo <= b.others.Keys
      invariant forall k :: k in r <==> PerSampleKey(b, k) && k !in todo
      invariant forall k :: k in r && PerSampleKey(b, k) ==> RowsAt(b.others[k].rows, p, r[k])
      decreases |todo|
    {
      var k :| k in todo;
      if b.others[k].PerSample? {
        assert PerSampleKey(b, k);
        GatherRows(b.others[k].rows, p);
        r := r[k := Gather(b.others[k].rows, p)];
      }
      todo := todo - {k};
    }
  }

  lemma GatherRows(rows: seq<int>, p: seq<nat>)
    requires Indices(p, |rows|)
    ensures RowsAt(rows, p, Gather(rows, p))
  {
  }

  /** Building the micro-batches of one attempt, stopping at the first that is over the cap. */
  method BuildMicroBatches(b: Batch, parts: seq<seq<nat>>, cap: int) returns (valid: bool, micro: seq<MicroBatch>)
    requires forall i :: 0 <= i < |parts| ==> Selects(b, parts[i])
    ensures valid <==> Fits(b, cap, parts)
    ensures valid ==> BuildsOn(b, parts, micro)
  {
    hide RowsAt;
    valid, micro := true, [];
    var i := 0;
    while i < |parts|
      invariant 0 <= i <= |parts| && |micro| == i && valid
      invariant forall j :: 0 <= j < i ==> PartTokens(b, parts[j]) <= cap
      invariant forall j :: 0 <= j < i ==> Stacks(b, parts[j], micro[j])
    {
      var others := GatherOthers(b, parts[i]);
      GatherRows(b.prompts, parts[i]);
      GatherRows(b.responses, parts[i]);
      var one := MicroBatch(Gather(b.prompts, parts[i]), Gather(b.responses, parts[i]), others);
      micro := micro + [one];
      if Sum(one.prompts) + Sum(one.responses) > cap {
        valid := false;
        assert PartTokens(b, parts[i]) > cap;
        break;
      }
      i := i + 1;
    }
  }

  /** The starting counts, from packing each rank's own batch. */
  method CountRanks(ranks: seq<Batch>, c: Config) returns (ks: seq<int>)
    requires ranks != [] && (c.dividedBy.Some? ==> c.dividedBy.value >= 1)
    requires forall r :: 0 <= r < |ranks| ==> WellFormed(ranks[r]) && ranks[r].width <= c.cap
    ensures ks == StartCounts(ranks, c)
  {
    hide Bins;
    var own: seq<int> := [];
    var r := 0;
    while r < |ranks|
      invariant 0 <= r <= |ranks| && |own| == r
      invariant forall j :: 0 <= j < r ==> own[j] == OwnCount(ranks[j], c)
    {
      var packed := PackSequences(ranks[r].masks, c.cap);
      var count := |packed.value|;
      own := own + [if c.minCount.Some? then Max(c.minCount.value, count) else count];
      r := r + 1;
    }
    assert own == OwnCounts(ranks, c);
    var synced := if c.sameCount then seq(|ranks|, _ => MaxOf(own)) else own;
    assert synced == Synced(ranks, c);
    ks := if c.dividedBy.Some?
          then seq(|ranks|, i requires 0 <= i < |ranks| => RoundUp(synced[i], c.dividedBy.value))
          else synced;
  }

  /** The partitions and micro-batches every rank builds. */
  datatype Built = Built(partitions: seq<seq<seq<nat>>>, micro: seq<seq<MicroBatch>>)

  ghost predicate BuildsOn(b: Batch, parts: seq<seq<nat>>, micro: seq<MicroBatch>) {
    |micro| == |parts| && forall i :: 0 <= i < |parts| ==> Stacks(b, parts[i], micro[i])
  }

  // ---------- what the micro-batches hold ----------

  /** The columns of all micro-batches under key k. */
  ghost function Under(micro: seq<MicroBatch>, k: string): (r: seq<seq<int>>)
    requires forall i :: 0 <= i < |micro| ==> k in micro[i].others
    ensures |r| == |micro| && forall i :: 0 <= i < |r| ==> r[i] == micro[i].others[k]
  {
    seq(|micro|, i requires 0 <= i < |micro| => micro[i].others[k])
  }

  ghost function Prompts(micro: seq<MicroBatch>): (r: seq<seq<int>>)
    ensures |r| == |micro| && forall i :: 0 <= i < |r| ==> r[i] == micro[i].prompts
  {
    seq(|micro|, i requires 0 <= i < |micro| => micro[i].prompts)
  }

  ghost function Responses(micro: seq<MicroBatch>): (r: seq<seq<int>>)
    ensures |r| == |micro| && forall i :: 0 <= i < |r| ==> r[i] == micro[i].responses
  {
    seq(|micro|, i requires 0 <= i < |micro| => micro[i].responses)
  }

  /** The columns, put one after the other and gathered by rev, are the rows again. */
  ghost predicate Restores(columns: seq<seq<int>>, rev: seq<nat>, rows: seq<int>) {
    Indices(rev, |Flatten(columns)|) && Gather(Flatten(columns), rev) == rows
  }

  lemma ColumnRestored(rows: seq<int>, parts: seq<seq<nat>>, columns: seq<seq<int>>, rev: seq<nat>)
    requires |columns| == |parts| && forall i :: 0 <= i < |parts| ==> RowsAt(rows, parts[i], columns[i])
    requires IsPermutation(Flatten(parts), |rows|) && Reverses(Flatten(parts), rev)
    ensures Restores(columns, rev, rows)
  {
    hide Flatten;
    hide Reverses;
    hide IsPermutation;
    MicroBatchOutputsRestored(rows, parts, rev);
    forall i | 0 <= i < |parts| ensures columns[i] == Gather(rows, parts[i]) {
    }
    assert columns == seq(|parts|, i requires 0 <= i < |parts| && Indices(parts[i], |rows|) => Gather(rows, parts[i]));
  }

  /**
    From the partitions the iterator returns and the micro-batches built on them: every micro-batch is non-empty and
    within the cap by its own columns, its entries under each key are the rows of its part, and the columns of all
    micro-batches, gathered by the reverse of the concatenated parts, are the columns of the batch.
  */
  lemma MicroBatchesRestore(ranks: seq<Batch>, c: Config, r: nat, micro: seq<MicroBatch>, rev: seq<nat>)
    requires ranks != [] && (c.dividedBy.Some? ==> c.dividedBy.value >= 1) && r < |ranks| && WellFormed(ranks[r])
    requires Iterate(ranks, c).Success? && |Iterate(ranks, c).value| == |ranks|
    requires BuildsOn(ranks[r], Iterate(ranks, c).value[r], micro) && Reverses(Flatten(Iterate(ranks, c).value[r]), rev)
    ensures forall i :: 0 <= i < |micro| ==>
              micro[i].prompts != [] && Sum(micro[i].prompts) + Sum(micro[i].responses) <= c.cap
    ensures Restores(Prompts(micro), rev, ranks[r].prompts) && Restores(Responses(micro), rev, ranks[r].responses)
    ensures forall k :: PerSampleKey(ranks[r], k) ==>
              (forall i :: 0 <= i < |micro| ==> k in micro[i].others) &&
              Restores(Under(micro, k), rev, ranks[r].others[k].rows)
  {
    hide Iterate;
    hide Flatten;
    hide IsPermutation;
    hide Reverses;
    hide RowsAt;
    hide Restores;
    ResultFitsAndCovers(ranks, c, r);
    var b, parts := ranks[r], Iterate(ranks, c).value[r];
    ColumnRestored(b.prompts, parts, Prompts(micro), rev);
    ColumnRestored(b.responses, parts, Responses(micro), rev);
    forall k | PerSampleKey(b, k)
      ensures (forall i :: 0 <= i < |micro| ==> k in micro[i].others) &&
              Restores(Under(micro, k), rev, b.others[k].rows)
    {
      assert forall i :: 0 <= i < |micro| ==> Stacks(b, parts[i], micro[i]) && k in micro[i].others;
      ColumnRestored(b.others[k].rows, parts, Under(micro, k), rev);
    }
    forall i | 0 <= i < |micro|
      ensures micro[i].prompts != [] && Sum(micro[i].prompts) + Sum(micro[i].responses) <= c.cap
    {
      StackedTokens(b, parts[i], micro[i]);
    }
  }

  lemma StackedTokens(b: Batch, p: seq<nat>, one: MicroBatch)
    requires Stacks(b, p, one) && Indices(p, |b.prompts|) && Indices(p, |b.responses|)
    ensures |one.prompts| == |p| && PartTokens(b, p) == Sum(one.prompts) + Sum(one.responses)
  {
    assert one.prompts == Gather(b.prompts, p) && one.responses == Gather(b.responses, p);
  }

  /** One attempt on every rank: Failure if an assertion fires, otherwise whether all of them fit. */
  method TryAll(ranks: seq<Batch>, cap: int, ks: seq<int>, t: nat) returns (ran: bool, fits: bool, built: Built)
    requires |ks| == |ranks| && forall r :: 0 <= r < |ranks| ==> WellFormed(ranks[r])
    ensures ran <==> AllRun(ranks, ks, t)
    ensures ran ==> (fits <==> AllFit(ranks, cap, ks, t))
    ensures ran && fits ==> built.partitions == Taken(ranks, ks, t) && |built.micro| == |ranks|
    ensures ran && fits ==> forall r :: 0 <= r < |ranks| ==> BuildsOn(ranks[r], built.partitions[r], built.micro[r])
  {
    hide Balanced;
    hide Usable;
    hide Fits;
    ran, fits, built := true, true, Built([], []);
    var r := 0;
    while r < |ranks|
      invariant 0 <= r <= |ranks| && ran && |built.partitions| == |built.micro| == r
      invariant forall j :: 0 <= j < r ==> Balanced(ranks[j].masks, ks[j] + t, false) == Success(built.partitions[j])
      invariant fits <==> forall j :: 0 <= j < r ==> FitsAt(ranks[j], cap, ks[j] + t)
      invariant fits ==> forall j :: 0 <= j < r ==> BuildsOn(ranks[j], built.partitions[j], built.micro[j])
    {
      BalancedSucceeds(ranks[r].masks, ks[r] + t, false);
      var parts := GetBalancedPartitions(ranks[r].masks, ks[r] + t, false);
      if parts.Failure? {
        ran := false;
        return;
      }
      PartsInRange(ranks[r], ks[r] + t, parts.value);
      var valid, micro := BuildMicroBatches(ranks[r], parts.value, cap);
      fits := fits && valid;
      built := Built(built.partitions + [parts.value], built.micro + [micro]);
      r := r + 1;
    }
    forall j | 0 <= j < |ranks| ensures Usable(ranks[j].masks, ks[j] + t, false) {
      BalancedSucceeds(ranks[j].masks, ks[j] + t, false);
    }
  }

  lemma PartsInRange(b: Batch, k: int, parts: seq<seq<nat>>)
    requires WellFormed(b) && Balanced(b.masks, k, false) == Success(parts)
    ensures forall i :: 0 <= i < |parts| ==> Indices(parts[i], |b.masks|) && Selects(b, parts[i])
  {
    hide Balanced;
    BalancedSucceeds(b.masks, k, false);
    BalancedCovers(b.masks, k, false);
    PermutationIndices(Flatten(parts), |b.masks|);
    forall i, j | 0 <= i < |parts| && 0 <= j < |parts[i]| ensures parts[i][j] < |b.masks| {
      FlattenMember(parts, i, j);
    }
  }

  lemma IterateIs(ranks: seq<Batch>, c: Config)
    requires ranks != [] && (c.dividedBy.Some? ==> c.dividedBy.value >= 1)
    ensures (exists r :: 0 <= r < |ranks| && c.cap < ranks[r].width) ==> Iterate(ranks, c).Failure?
    ensures (forall r :: 0 <= r < |ranks| ==> ranks[r].width <= c.cap) ==>
      var ks := StartCounts(ranks, c);
      var found := Search(ranks, c.cap, ks);
      Iterate(ranks, c) ==
        if found.Some? && AllRun(ranks, ks, found.value) then Success(Taken(ranks, ks, found.value)) else Failure
  {
    hide StartCounts;
    hide AllRun;
    hide Search;
    hide Taken;
  }

  /** `get_iterator_dynamic` on dictionaries, on all ranks at once. */
  method GetIteratorDynamic(ranks: seq<Batch>, c: Config) returns (r: Result<Built>)
    requires ranks != [] && (c.dividedBy.Some? ==> c.dividedBy.value >= 1)
    requires forall i :: 0 <= i < |ranks| ==> WellFormed(ranks[i])
    ensures r.Success? <==> Iterate(ranks, c).Success?
    ensures r.Success? ==> r.value.partitions == Iterate(ranks, c).value && |r.value.micro| == |ranks|
    ensures r.Success? ==> forall i :: 0 <= i < |ranks| ==>
              |r.value.partitions| == |ranks| && BuildsOn(ranks[i], r.value.partitions[i], r.value.micro[i])
  {
    hide StartCounts;
    hide AllRun;
    hide AllFit;
    hide BuildsOn;
    hide Iterate;
    hide Taken;
    hide Limit;
    IterateIs(ranks, c);
    var i := 0;
    while i < |ranks|
      invariant 0 <= i <= |ranks| && forall j :: 0 <= j < i ==> ranks[j].width <= c.cap
    {
      if c.cap < ranks[i].width {
        return Failure;
      }
      i := i + 1;
    }
    var ks := CountRanks(ranks, c);
    var t := 0;
    LimitStops(ranks, ks);
    ghost var limit := Limit(ranks, ks);
    ghost var runs, fitsAll := (u: nat) => AllRun(ranks, ks, u), (u: nat) => AllFit(ranks, c.cap, ks, u);
    while true
      invariant 0 <= t <= limit
      invariant FirstFit(runs, fitsAll, t, limit) == FirstFit(runs, fitsAll, 0, limit)
      decreases limit - t
    {
      var ran, fits, built := TryAll(ranks, c.cap, ks, t);
      if !ran {
        return Failure;
      }
      if fits {
        return Success(built);
      }
      t := t + 1;
    }
  }
}
