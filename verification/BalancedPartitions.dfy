/**
  Balanced partitions of a list of lengths: the checked wrapper around the differencing method
  and the guarantees its callers rely on.
*/
module BalancedPartitions {
  import opened Sequences
  import opened Sorting
  import opened Bags
  import opened KarmarkarKarp
  import opened KarmarkarKarpBalance

  datatype Result<+T> = Success(value: T) | Failure

  // ---------- the wrapper ----------

  predicate Less(a: nat, b: nat) {
    a < b
  }

  predicate AtMost(a: nat, b: nat) {
    a <= b
  }

  /** `sorted(partition)`. */
  function SortUp(p: seq<nat>): (r: seq<nat>)
    ensures multiset(r) == multiset(p)
  {
    Sort(Less, p)
  }

  function SortEach(parts: seq<seq<nat>>): (r: seq<seq<nat>>)
    ensures |r| == |parts|
    ensures forall i :: 0 <= i < |parts| ==> r[i] == SortUp(parts[i])
  {
    Map((p: seq<nat>) => SortUp(p), parts)
  }

  /** The assertions at the end of the wrapper. */
  ghost predicate Passes(parts: seq<seq<nat>>, n: nat, k: nat) {
    && |parts| == k
    && (forall i :: 0 <= i < |parts| ==> parts[i] != [])
    && (forall v: nat :: v in Flatten(parts) <==> v < n)
  }

  /** When the arguments are usable at all: the length assertion, the divisibility assertion, an index into k sets. */
  predicate Usable(lens: seq<nat>, k: int, equal: bool) {
    1 <= k <= |lens| && (equal ==> |lens| % k == 0)
  }

  /** `get_seqlen_balanced_partitions`; Failure stands for every exception it can raise. */
  ghost function Balanced(lens: seq<nat>, k: int, equal: bool): Result<seq<seq<nat>>> {
    if !Usable(lens, k, equal) then Failure
    else
      var parts := Partition(lens, k, equal);
      if Passes(parts, |lens|, k) && (equal ==> forall i :: 0 <= i < |parts| ==> |parts[i]| * k == |lens|)
      then Success(SortEach(parts))
      else Failure
  }

  // ---------- from bags of items to lists of indices ----------

  /** Total length of one partition. */
  function PartLoad(lens: seq<nat>, p: seq<nat>): int
    requires Indices(p, |lens|)
  {
    Sum(Gather(lens, p))
  }

  ghost predicate Genuine(b: Bag, lens: seq<nat>) {
    forall i :: 0 <= i < |b| ==> b[i].idx < |lens| && b[i].len == lens[b[i].idx]
  }

  lemma GenuineLoad(b: Bag, lens: seq<nat>)
    requires Genuine(b, lens)
    ensures Indices(IndicesOf(b), |lens|) && PartLoad(lens, IndicesOf(b)) == Load(b)
  {
    assert Gather(lens, IndicesOf(b)) == Lens(b);
  }

  function MaxLen(lens: seq<nat>): (m: nat)
    ensures forall i :: 0 <= i < |lens| ==> lens[i] <= m
  {
    if lens == [] then 0
    else
      var m := MaxLen(lens[1..]);
      assert forall i :: 1 <= i < |lens| ==> lens[i] == lens[1..][i - 1];
      if lens[0] > m then lens[0] else m
  }

  lemma AscendingOrdered(lens: seq<nat>)
    ensures Ordered(NoLonger, Ascending(lens))
  {
    SortOrdered(Shorter, NoLonger, Items(lens));
  }

  lemma AscendingGenuine(lens: seq<nat>)
    ensures Genuine(Ascending(lens), lens)
  {
    SortLength(Shorter, Items(lens));
    var r := Ascending(lens);
    forall i | 0 <= i < |r| ensures r[i].idx < |lens| && r[i].len == lens[r[i].idx] {
      assert r[i] in Items(lens);
    }
  }

  /** Each single item starts with a spread of at most the largest length. */
  lemma MaxLenCovers(lens: seq<nat>, k: nat)
    requires 1 <= k
    ensures CoversBlocks(Ascending(lens), 1, k, MaxLen(lens))
    ensures CoversBlocks(Ascending(lens), k, k, MaxLen(lens))
  {
    AscendingGenuine(lens);
  }

  // ---------- the final state of a run ----------

  /** What the final state is, for any bound that covers the starting spreads. */
  lemma FinalStateGood(lens: seq<nat>, k: nat, equal: bool, bound: int)
    requires 1 <= k && 1 <= |lens| && (equal ==> |lens| % k == 0)
    requires CoversBlocks(Ascending(lens), BlockSize(k, equal), k, bound)
    ensures Good(FinalState(lens, k, equal), k, bound)
    ensures multiset(Flatten(FinalState(lens, k, equal))) == multiset(Items(lens))
    ensures equal ==> Uniform(FinalState(lens, k, equal))
  {
    var order, size := Ascending(lens), BlockSize(k, equal);
    AscendingOrdered(lens);
    BlocksItems(order, size, k);
    BlocksGood(order, size, k, bound);
    ReduceGood(InitialHeap(lens, k, equal), k, bound);
    if equal {
      BlocksUniform(order, k);
      ReduceUniform(InitialHeap(lens, k, equal), k);
    }
  }

  lemma FinalStateGenuine(lens: seq<nat>, s: BagList, i: nat)
    requires multiset(Flatten(s)) == multiset(Items(lens)) && i < |s|
    ensures Genuine(s[i], lens)
  {
    forall j | 0 <= j < |s[i]| ensures s[i][j].idx < |lens| && s[i][j].len == lens[s[i][j].idx] {
      FlattenMember(s, i, j);
      assert s[i][j] in multiset(Flatten(s));
      assert s[i][j] in Items(lens);
    }
  }

  lemma ItemsCount(lens: seq<nat>, s: BagList)
    requires multiset(Flatten(s)) == multiset(Items(lens))
    ensures |Flatten(s)| == |lens|
    ensures Load(Flatten(s)) == Sum(lens)
  {
    assert |multiset(Flatten(s))| == |multiset(Items(lens))|;
    LoadPermutation(Flatten(s), Items(lens));
    assert Lens(Items(lens)) == lens;
  }

  lemma IndicesCovered(lens: seq<nat>, s: BagList)
    requires multiset(Flatten(s)) == multiset(Items(lens))
    ensures IsPermutation(Flatten(PartitionsOf(s)), |lens|)
  {
    var f := (it: Item) => it.idx;
    FlattenMap(f, s);
    assert Map((b: seq<Item>) => Map(f, b), s) == PartitionsOf(s);
    MapPermutation(f, Flatten(s), Items(lens));
    assert Map(f, Items(lens)) == Range(|lens|);
  }

  /** Every index appears in exactly one partition. */
  lemma PartitionCovers(lens: seq<nat>, k: nat, equal: bool)
    requires 1 <= k && 1 <= |lens| && (equal ==> |lens| % k == 0)
    ensures IsPermutation(Flatten(Partition(lens, k, equal)), |lens|)
  {
    MaxLenCovers(lens, k);
    FinalStateGood(lens, k, equal, MaxLen(lens));
    IndicesCovered(lens, FinalState(lens, k, equal));
  }

  /** With fewer samples than partitions, the samples sit alone in the first ones; otherwise none is empty. */
  lemma PartitionFilled(lens: seq<nat>, k: nat, equal: bool)
    requires 1 <= k && 1 <= |lens| && (equal ==> |lens| % k == 0)
    ensures forall i :: 0 <= i < k ==> (Partition(lens, k, equal)[i] != [] <==> i < |lens|)
  {
    MaxLenCovers(lens, k);
    FinalStateGood(lens, k, equal, MaxLen(lens));
    ItemsCount(lens, FinalState(lens, k, equal));
  }

  /** In equal-size mode every partition has exactly n / k samples. */
  lemma PartitionEqualSize(lens: seq<nat>, k: nat)
    requires 1 <= k && 1 <= |lens| && |lens| % k == 0
    ensures forall i :: 0 <= i < k ==> |Partition(lens, k, true)[i]| * k == |lens|
  {
    var s := FinalState(lens, k, true);
    MaxLenCovers(lens, k);
    FinalStateGood(lens, k, true, MaxLen(lens));
    ItemsCount(lens, s);
    forall i | 0 <= i < k ensures |Partition(lens, k, true)[i]| * k == |lens| {
      UniformSize(s, i);
    }
  }

  lemma UniformSize(s: BagList, i: nat)
    requires Uniform(s) && i < |s|
    ensures |s[i]| * |s| == |Flatten(s)|
  {
    FlattenLength(s, |s[i]|);
  }

  /** Any two partitions differ in load by at most the widest starting spread. */
  lemma PartitionSpread(lens: seq<nat>, k: nat, equal: bool, bound: int, i: nat, j: nat)
    requires 1 <= k && 1 <= |lens| && (equal ==> |lens| % k == 0) && i < k && j < k
    requires CoversBlocks(Ascending(lens), BlockSize(k, equal), k, bound)
    ensures var parts := Partition(lens, k, equal);
            Indices(parts[i], |lens|) && Indices(parts[j], |lens|) &&
            PartLoad(lens, parts[i]) - PartLoad(lens, parts[j]) <= bound
  {
    hide FinalState;
    hide CoversBlocks;
    hide Genuine;
    var s := FinalState(lens, k, equal);
    FinalStateGood(lens, k, equal, bound);
    FinalStateGenuine(lens, s, i);
    FinalStateGenuine(lens, s, j);
    GenuineLoad(s[i], lens);
    GenuineLoad(s[j], lens);
    assert 0 < i ==> Heavier(s[0], s[i]);
    assert j < k - 1 ==> Heavier(s[j], s[k - 1]);
  }

  lemma SpreadOut(k: int, load: int, bound: int)
    ensures (k - 1) * (load - bound) == k * load - load - (k - 1) * bound
  {
  }

  lemma SpreadBoundsLoad(loads: seq<int>, i: nat, bound: int)
    requires i < |loads|
    requires forall j :: 0 <= j < |loads| ==> loads[i] - loads[j] <= bound
    ensures |loads| * loads[i] <= Sum(loads) + (|loads| - 1) * bound
  {
    var rest := RemoveAt(loads, i);
    SumRemoveAt(loads, i);
    SumLowerBound(rest, loads[i] - bound);
    SpreadOut(|loads|, loads[i], bound);
  }

  /** k times the heaviest load is at most the total plus k - 1 times the widest starting spread. */
  lemma PartitionLoad(lens: seq<nat>, k: nat, equal: bool, bound: int, i: nat)
    requires 1 <= k && 1 <= |lens| && (equal ==> |lens| % k == 0) && i < k
    requires CoversBlocks(Ascending(lens), BlockSize(k, equal), k, bound)
    ensures var parts := Partition(lens, k, equal);
            Indices(parts[i], |lens|) && k * PartLoad(lens, parts[i]) <= Sum(lens) + (k - 1) * bound
  {
    var s := FinalState(lens, k, equal);
    FinalStateGood(lens, k, equal, bound);
    ItemsCount(lens, s);
    FinalStateGenuine(lens, s, i);
    GenuineLoad(s[i], lens);
    StateLoad(s, k, bound, i);
  }

  lemma StateLoad(s: BagList, k: nat, bound: int, i: nat)
    requires Good(s, k, bound) && i < k
    ensures k * Load(s[i]) <= Load(Flatten(s)) + (k - 1) * bound
  {
    LoadsTotal(s);
    forall j | 0 <= j < k ensures Loads(s)[i] - Loads(s)[j] <= bound {
      assert 0 < i ==> Heavier(s[0], s[i]);
      assert j < k - 1 ==> Heavier(s[j], s[k - 1]);
    }
    SpreadBoundsLoad(Loads(s), i, bound);
  }

  // ---------- the wrapper never trips over its own assertions ----------

  lemma SortEachCovers(parts: seq<seq<nat>>, n: nat)
    requires IsPermutation(Flatten(parts), n)
    ensures IsPermutation(Flatten(SortEach(parts)), n)
  {
    FlattenPointwise(SortEach(parts), parts);
  }

  lemma SortUpStrict(p: seq<nat>)
    requires forall i, j :: 0 <= i < j < |p| ==> p[i] != p[j]
    ensures |SortUp(p)| == |p|
    ensures forall i, j :: 0 <= i < j < |p| ==> SortUp(p)[i] < SortUp(p)[j]
  {
    var r := SortUp(p);
    SortLength(Less, p);
    SortOrdered(Less, AtMost, p);
    DistinctRearranged(p, r);
    assert forall i, j :: 0 <= i < j < |r| ==> AtMost(r[i], r[j]);
  }

  lemma {:induction false} FlattenDistinct<T>(ss: seq<seq<T>>, i: nat)
    requires i < |ss|
    requires forall a, b :: 0 <= a < b < |Flatten(ss)| ==> Flatten(ss)[a] != Flatten(ss)[b]
    ensures forall a, b :: 0 <= a < b < |ss[i]| ==> ss[i][a] != ss[i][b]
  {
    var f := Flatten(ss);
    if i == 0 {
      assert forall a :: 0 <= a < |ss[0]| ==> f[a] == ss[0][a];
    } else {
      var g := Flatten(ss[1..]);
      assert forall a :: 0 <= a < |g| ==> g[a] == f[a + |ss[0]|];
      FlattenDistinct(ss[1..], i - 1);
    }
  }

  lemma PartitionPasses(lens: seq<nat>, k: nat, equal: bool)
    requires Usable(lens, k, equal)
    ensures Passes(Partition(lens, k, equal), |lens|, k)
  {
    PartitionCovers(lens, k, equal);
    PartitionFilled(lens, k, equal);
    PermutationBijective(Flatten(Partition(lens, k, equal)), |lens|);
  }

  /** The wrapper succeeds exactly on usable arguments. */
  lemma BalancedSucceeds(lens: seq<nat>, k: int, equal: bool)
    ensures Balanced(lens, k, equal).Success? <==> Usable(lens, k, equal)
  {
    if Usable(lens, k, equal) {
      PartitionPasses(lens, k, equal);
      if equal { PartitionEqualSize(lens, k); }
    }
  }

  /** The partitions handed out: k of them, none empty, each ascending, together every index once. */
  lemma BalancedCovers(lens: seq<nat>, k: int, equal: bool)
    requires Usable(lens, k, equal)
    ensures var r := Balanced(lens, k, equal);
            r.Success? && |r.value| == k && IsPermutation(Flatten(r.value), |lens|) &&
            (forall i :: 0 <= i < k ==> r.value[i] != []) &&
            (forall i, a, b :: 0 <= i < k && 0 <= a < b < |r.value[i]| ==> r.value[i][a] < r.value[i][b])
  {
    BalancedSucceeds(lens, k, equal);
    var parts := Partition(lens, k, equal);
    PartitionCovers(lens, k, equal);
    PermutationBijective(Flatten(parts), |lens|);
    SortEachCovers(parts, |lens|);
    var r := SortEach(parts);
    forall i | 0 <= i < k
      ensures r[i] != [] && forall a, b :: 0 <= a < b < |r[i]| ==> r[i][a] < r[i][b]
    {
      FlattenDistinct(parts, i);
      SortUpStrict(parts[i]);
    }
  }

  lemma SortUpLoad(lens: seq<nat>, p: seq<nat>)
    requires Indices(p, |lens|)
    ensures Indices(SortUp(p), |lens|) && PartLoad(lens, SortUp(p)) == PartLoad(lens, p)
    ensures |SortUp(p)| == |p|
  {
    SortLength(Less, p);
    var r := SortUp(p);
    assert forall i :: 0 <= i < |r| ==> r[i] in p;
    if lens != [] {
      var f := (i: nat) => if i < |lens| then lens[i] as int else 0;
      MapPermutation(f, r, p);
      assert Map(f, r) == Gather(lens, r) && Map(f, p) == Gather(lens, p);
      SumPermutation(Map(f, r), Map(f, p));
    } else {
      assert p == [] && r == [];
    }
  }

  /** Balance of the partitions handed out: pairwise spread and heaviest load. */
  lemma BalancedLoads(lens: seq<nat>, k: int, equal: bool, bound: int, i: nat, j: nat)
    requires Usable(lens, k, equal) && i < k && j < k
    requires CoversBlocks(Ascending(lens), BlockSize(k, equal), k, bound)
    ensures var r := Balanced(lens, k, equal);
            r.Success? && |r.value| == k && Indices(r.value[i], |lens|) && Indices(r.value[j], |lens|) &&
            PartLoad(lens, r.value[i]) - PartLoad(lens, r.value[j]) <= bound &&
            k * PartLoad(lens, r.value[i]) <= Sum(lens) + (k - 1) * bound
  {
    BalancedSucceeds(lens, k, equal);
    var parts := Partition(lens, k, equal);
    PartitionSpread(lens, k, equal, bound, i, j);
    PartitionLoad(lens, k, equal, bound, i);
    SortUpLoad(lens, parts[i]);
    SortUpLoad(lens, parts[j]);
  }

  /** In equal-size mode every partition handed out has n / k samples. */
  lemma BalancedEqualSize(lens: seq<nat>, k: int)
    requires Usable(lens, k, true)
    ensures var r := Balanced(lens, k, true);
            r.Success? && |r.value| == k && forall i :: 0 <= i < k ==> |r.value[i]| * k == |lens|
  {
    BalancedSucceeds(lens, k, true);
    PartitionEqualSize(lens, k);
    var parts := Partition(lens, k, true);
    forall i | 0 <= i < k ensures |SortEach(parts)[i]| == |parts[i]| {
      SortLength(Less, parts[i]);
    }
  }
}
