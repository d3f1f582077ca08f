/**
  Best-fit-decreasing packing of samples into micro-batches of at most `cap` tokens: what every placement keeps,
  what the finished packing promises, and the loops that compute it.
*/
module BestFitDecreasing {
  import opened Sequences
  import opened Sorting
  import opened Bags
  import opened KarmarkarKarp
  import opened KarmarkarKarpBalance
  import opened BalancedPartitions

  // ---------- the algorithm ----------

  predicate LongerFirst(a: Item, b: Item) {
    a.len > b.len
  }

  function Descending(lens: seq<nat>): (r: seq<Item>)
    ensures multiset(r) == multiset(Items(lens))
  {
    Sort(LongerFirst, Items(lens))
  }

  /** Among the first m capacities: the first of the least that still hold x, or -1. */
  function BestBin(remaining: seq<int>, x: int, m: nat): (best: int)
    requires m <= |remaining|
    ensures -1 <= best < m
  {
    if m == 0 then -1
    else
      var best := BestBin(remaining, x, m - 1);
      if remaining[m - 1] >= x && (best == -1 || remaining[m - 1] - x < remaining[best] - x) then m - 1 else best
  }

  function Remaining(bins: BagList, cap: int): (r: seq<int>)
    ensures |r| == |bins|
    ensures forall i :: 0 <= i < |bins| ==> r[i] == cap - Load(bins[i])
  {
    Map((b: Bag) => cap - Load(b), bins)
  }

  function Place(bins: BagList, it: Item, cap: int): BagList {
    var best := BestBin(Remaining(bins, cap), it.len, |bins|);
    if best == -1 then bins + [[it]] else bins[best := bins[best] + [it]]
  }

  /** Packing the items in the given order into the bins already open. */
  function Pack(order: seq<Item>, cap: int, bins: BagList): BagList {
    if order == [] then bins else Pack(order[1..], cap, Place(bins, order[0], cap))
  }

  predicate TooLong(lens: seq<nat>, cap: int) {
    exists i :: 0 <= i < |lens| && lens[i] > cap
  }

  function Bins(lens: seq<nat>, cap: int): BagList {
    Pack(Descending(lens), cap, [])
  }

  /** `get_seqlen_BFD_partitions`; Failure is the error for an over-long sequence. */
  function PackPartitions(lens: seq<nat>, cap: int): Result<seq<seq<nat>>> {
    if TooLong(lens, cap) then Failure else Success(PartitionsOf(Bins(lens, cap)))
  }

  // ---------- the order of the items ----------

  /** Longer items come first, and items of one length in the order of the batch. */
  lemma DescendingSorted(lens: seq<nat>)
    ensures |Descending(lens)| == |lens|
    ensures forall i, j :: 0 <= i < j < |lens| ==>
              Descending(lens)[i].len > Descending(lens)[j].len ||
              (Descending(lens)[i].len == Descending(lens)[j].len && Descending(lens)[i].idx < Descending(lens)[j].idx)
  {
    hide Sort;
    var items, order := Items(lens), Descending(lens);
    SortLength(LongerFirst, items);
    SortOrdered(LongerFirst, NotShorter, items);
    SortTies(LongerFirst, (a: Item, b: Item) => a.idx < b.idx, items);
    forall i, j | 0 <= i < j < |lens| ensures NotShorter(order[i], order[j]) {
    }
  }

  predicate NotShorter(a: Item, b: Item) {
    a.len >= b.len
  }

  // ---------- what best fit picks ----------

  /** -1 exactly when nothing fits; otherwise the tightest bin that fits, and the first such. */
  lemma {:induction false} BestBinIsTightest(remaining: seq<int>, x: int, m: nat)
    requires m <= |remaining|
    ensures var best := BestBin(remaining, x, m);
            (best == -1 <==> forall i :: 0 <= i < m ==> remaining[i] < x) &&
            (best >= 0 ==>
              remaining[best] >= x &&
              (forall i :: 0 <= i < m && remaining[i] >= x ==> remaining[best] <= remaining[i]) &&
              (forall i :: 0 <= i < best && remaining[i] >= x ==> remaining[best] < remaining[i]))
  {
    if m == 0 {
    } else {
      BestBinIsTightest(remaining, x, m - 1);
    }
  }

  /** Bin i is the fullest that still holds x, and the first of those. */
  ghost predicate Tightest(bins: BagList, x: nat, cap: int, i: nat) {
    && i < |bins| && Load(bins[i]) + x <= cap
    && (forall j :: 0 <= j < |bins| && Load(bins[j]) + x <= cap ==> Load(bins[j]) <= Load(bins[i]))
    && (forall j :: 0 <= j < i && Load(bins[j]) + x <= cap ==> Load(bins[j]) < Load(bins[i]))
  }

  /** An item joins the tightest bin that holds it; it opens a new one exactly when none does. */
  lemma PlacesTightest(bins: BagList, it: Item, cap: int)
    ensures (forall i :: 0 <= i < |bins| ==> Load(bins[i]) + it.len > cap) ==> Place(bins, it, cap) == bins + [[it]]
    ensures forall i: nat :: Tightest(bins, it.len, cap, i) ==> Place(bins, it, cap) == bins[i := bins[i] + [it]]
    ensures (forall i :: 0 <= i < |bins| ==> Load(bins[i]) + it.len > cap) ||
            exists i: nat :: Tightest(bins, it.len, cap, i)
  {
    hide Load;
    hide BestBin;
    var room := Remaining(bins, cap);
    var best := BestBin(room, it.len, |bins|);
    BestBinIsTightest(room, it.len, |bins|);
    if best == -1 {
      forall i | 0 <= i < |bins| ensures Load(bins[i]) + it.len > cap {
        assert room[i] < it.len;
      }
    } else {
      forall i | 0 <= i < |bins| && Load(bins[i]) + it.len <= cap
        ensures Load(bins[i]) <= Load(bins[best]) && (i < best ==> Load(bins[i]) < Load(bins[best]))
      {
        assert room[i] >= it.len;
      }
      assert Tightest(bins, it.len, cap, best);
      forall i: nat | Tightest(bins, it.len, cap, i) ensures i == best {
      }
    }
  }

  // ---------- what every placement keeps ----------

  ghost predicate WithinCap(bins: BagList, cap: int) {
    forall i :: 0 <= i < |bins| ==> Load(bins[i]) <= cap
  }

  /** Any two bins hold more than one bin could. */
  ghost predicate Crowded(bins: BagList, cap: int) {
    forall i, j :: 0 <= i < j < |bins| ==> Load(bins[i]) + Load(bins[j]) > cap
  }

  ghost predicate NoEmptyBin(bins: BagList) {
    forall i :: 0 <= i < |bins| ==> bins[i] != []
  }

  lemma UpdateItems(bins: BagList, i: nat, it: Item)
    requires i < |bins|
    ensures multiset(Flatten(bins[i := bins[i] + [it]])) == multiset(Flatten(bins)) + multiset{it}
  {
    var after := bins[i := bins[i] + [it]];
    FlattenRemoveAt(bins, i);
    FlattenRemoveAt(after, i);
    assert RemoveAt(after, i) == RemoveAt(bins, i);
  }

  lemma PlaceKeeps(bins: BagList, it: Item, cap: int)
    requires WithinCap(bins, cap) && Crowded(bins, cap) && NoEmptyBin(bins) && it.len <= cap
    ensures var after := Place(bins, it, cap);
            WithinCap(after, cap) && Crowded(after, cap) && NoEmptyBin(after)
  {
    var best := BestBin(Remaining(bins, cap), it.len, |bins|);
    BestBinIsTightest(Remaining(bins, cap), it.len, |bins|);
    LoadOne(it);
    if best != -1 {
      LoadAppend(bins[best], [it]);
    }
  }

  lemma PlaceItems(bins: BagList, it: Item, cap: int)
    ensures multiset(Flatten(Place(bins, it, cap))) == multiset(Flatten(bins)) + multiset{it}
  {
    var best := BestBin(Remaining(bins, cap), it.len, |bins|);
    if best == -1 {
      FlattenAppend(bins, [[it]]);
      FlattenSingleton([it]);
    } else {
      UpdateItems(bins, best, it);
    }
  }

  lemma {:induction false} PackKeeps(order: seq<Item>, cap: int, bins: BagList)
    requires WithinCap(bins, cap) && Crowded(bins, cap) && NoEmptyBin(bins)
    requires forall i :: 0 <= i < |order| ==> order[i].len <= cap
    ensures var after := Pack(order, cap, bins);
            WithinCap(after, cap) && Crowded(after, cap) && NoEmptyBin(after)
    decreases |order|
  {
    if order == [] {
    } else {
      PlaceKeeps(bins, order[0], cap);
      PackKeeps(order[1..], cap, Place(bins, order[0], cap));
    }
  }

  lemma {:induction false} PackItems(order: seq<Item>, cap: int, bins: BagList)
    ensures multiset(Flatten(Pack(order, cap, bins))) == multiset(Flatten(bins)) + multiset(order)
    decreases |order|
  {
    hide Place;
    hide Flatten;
    if order == [] {
    } else {
      PlaceItems(bins, order[0], cap);
      PackItems(order[1..], cap, Place(bins, order[0], cap));
      assert order == [order[0]] + order[1..];
    }
  }

  // ---------- the finished packing ----------

  lemma BinsGood(lens: seq<nat>, cap: int)
    requires !TooLong(lens, cap)
    ensures var bins := Bins(lens, cap);
            WithinCap(bins, cap) && Crowded(bins, cap) && NoEmptyBin(bins) &&
            multiset(Flatten(bins)) == multiset(Items(lens))
  {
    var order := Descending(lens);
    SortLength(LongerFirst, Items(lens));
    forall i | 0 <= i < |order| ensures order[i].len <= cap {
      assert order[i] in Items(lens);
      var j :| 0 <= j < |lens| && order[i] == Items(lens)[j];
    }
    PackKeeps(order, cap, []);
    PackItems(order, cap, []);
  }

  /** The packing covers every index once, no bin is empty or over the cap, and there are at most n bins. */
  lemma PackedPartitions(lens: seq<nat>, cap: int)
    requires !TooLong(lens, cap)
    ensures var parts := PartitionsOf(Bins(lens, cap));
            IsPermutation(Flatten(parts), |lens|) && |parts| <= |lens| &&
            forall i :: 0 <= i < |parts| ==>
              parts[i] != [] && Indices(parts[i], |lens|) && PartLoad(lens, parts[i]) <= cap
  {
    var bins := Bins(lens, cap);
    BinsGood(lens, cap);
    IndicesCovered(lens, bins);
    ItemsCount(lens, bins);
    FullFlatten(bins);
    forall i | 0 <= i < |bins|
      ensures Indices(IndicesOf(bins[i]), |lens|) && PartLoad(lens, IndicesOf(bins[i])) <= cap
    {
      FinalStateGenuine(lens, bins, i);
      GenuineLoad(bins[i], lens);
    }
  }

  lemma BinLoads(lens: seq<nat>, cap: int)
    requires !TooLong(lens, cap)
    ensures Sum(Loads(Bins(lens, cap))) == Sum(lens)
  {
    var bins := Bins(lens, cap);
    BinsGood(lens, cap);
    LoadsTotal(bins);
    ItemsCount(lens, bins);
  }

  lemma SumOfTwo(loads: seq<int>)
    requires |loads| >= 2 && forall i :: 0 <= i < |loads| ==> loads[i] >= 0
    ensures Sum(loads) >= loads[0] + loads[1]
  {
    var rest := loads[1..];
    assert Sum(rest) == rest[0] + Sum(rest[1..]);
    SumLowerBound(rest[1..], 0);
  }

  /** A batch that fits into one bin gets one bin, and only such a batch does. */
  lemma OneBinIffFits(lens: seq<nat>, cap: int)
    requires !TooLong(lens, cap) && lens != []
    ensures |Bins(lens, cap)| == 1 <==> Sum(lens) <= cap
  {
    var bins := Bins(lens, cap);
    BinsGood(lens, cap);
    BinLoads(lens, cap);
    ItemsCount(lens, bins);
    var loads := Loads(bins);
    assert |bins| >= 1;
    if |bins| == 1 {
      assert loads == [Load(bins[0])] && loads[1..] == [];
    } else {
      SumOfTwo(loads);
    }
  }

  ghost predicate FeasiblePacking(lens: seq<nat>, cap: int, parts: seq<seq<nat>>) {
    && IsPermutation(Flatten(parts), |lens|)
    && forall i :: 0 <= i < |parts| ==> Indices(parts[i], |lens|) && PartLoad(lens, parts[i]) <= cap
  }

  lemma OneMore(m: int, cap: int)
    ensures m * cap == cap + (m - 1) * cap
  {
  }

  lemma {:induction false} PartsTotal(lens: seq<nat>, cap: int, parts: seq<seq<nat>>)
    requires forall i :: 0 <= i < |parts| ==> Indices(parts[i], |lens|) && PartLoad(lens, parts[i]) <= cap
    ensures Indices(Flatten(parts), |lens|)
    ensures PartLoad(lens, Flatten(parts)) <= |parts| * cap
  {
    if parts == [] {
    } else {
      PartsTotal(lens, cap, parts[1..]);
      var rest := Flatten(parts[1..]);
      assert Gather(lens, parts[0] + rest) == Gather(lens, parts[0]) + Gather(lens, rest);
      SumAppend(Gather(lens, parts[0]), Gather(lens, rest));
      OneMore(|parts|, cap);
    }
  }

  /** The bins hold everything, each at most the cap. */
  lemma BinsHoldTotal(lens: seq<nat>, cap: int)
    requires !TooLong(lens, cap)
    ensures Sum(lens) <= |Bins(lens, cap)| * cap
  {
    var parts := PartitionsOf(Bins(lens, cap));
    PackedPartitions(lens, cap);
    PartsTotal(lens, cap, parts);
    GatherPermutation(lens, Flatten(parts));
    SumPermutation(Gather(lens, Flatten(parts)), lens);
  }

  // ---------- the loops of the program ----------

  /** The scan for the tightest bin. */
  method FindBin(remaining: seq<int>, x: int) returns (best: int)
    ensures best == BestBin(remaining, x, |remaining|)
  {
    best := -1;
    var left := 0;
    var g := 0;
    while g < |remaining|
      invariant 0 <= g <= |remaining| && best == BestBin(remaining, x, g)
      invariant best != -1 ==> left == remaining[best] - x
    {
      if remaining[g] >= x {
        if best == -1 || remaining[g] - x < left {
          best, left := g, remaining[g] - x;
        }
      }
      g := g + 1;
    }
  }

  lemma AppendedBin(bins: BagList, best: nat, it: Item, cap: int)
    requires best < |bins|
    ensures var after := bins[best := bins[best] + [it]];
            PartitionsOf(after) == PartitionsOf(bins)[best := PartitionsOf(bins)[best] + [it.idx]] &&
            Remaining(after, cap) == Remaining(bins, cap)[best := Remaining(bins, cap)[best] - it.len]
  {
    hide Load;
    LoadOne(it);
    LoadAppend(bins[best], [it]);
    assert IndicesOf(bins[best] + [it]) == IndicesOf(bins[best]) + [it.idx];
  }

  lemma OpenedBin(bins: BagList, it: Item, cap: int)
    ensures PartitionsOf(bins + [[it]]) == PartitionsOf(bins) + [[it.idx]]
    ensures Remaining(bins + [[it]], cap) == Remaining(bins, cap) + [cap - it.len]
  {
    hide Load;
    LoadOne(it);
    assert IndicesOf([it]) == [it.idx];
  }

  /** One item is appended to a group, or opens a new one. */
  method AddItem(partitions: seq<seq<nat>>, remaining: seq<int>, it: Item, cap: int, ghost bins: BagList)
      returns (partitions': seq<seq<nat>>, remaining': seq<int>)
    requires partitions == PartitionsOf(bins) && remaining == Remaining(bins, cap)
    ensures partitions' == PartitionsOf(Place(bins, it, cap))
    ensures remaining' == Remaining(Place(bins, it, cap), cap)
  {
    hide PartitionsOf;
    hide Remaining;
    hide BestBin;
    var best := FindBin(remaining, it.len);
    if best != -1 {
      AppendedBin(bins, best, it, cap);
      partitions' := partitions[best := partitions[best] + [it.idx]];
      remaining' := remaining[best := remaining[best] - it.len];
    } else {
      OpenedBin(bins, it, cap);
      partitions' := partitions + [[it.idx]];
      remaining' := remaining + [cap - it.len];
    }
  }

  method AnyTooLong(lens: seq<nat>, cap: int) returns (b: bool)
    ensures b == TooLong(lens, cap)
  {
    var i := 0;
    while i < |lens|
      invariant 0 <= i <= |lens| && forall j :: 0 <= j < i ==> lens[j] <= cap
    {
      if lens[i] > cap {
        return true;
      }
      i := i + 1;
    }
    return false;
  }

  /** `get_seqlen_BFD_partitions`, with the groups and their capacities updated item by item. */
  method PackSequences(lens: seq<nat>, cap: int) returns (r: Result<seq<seq<nat>>>)
    ensures r == PackPartitions(lens, cap)
    ensures r.Failure? <==> exists i :: 0 <= i < |lens| && lens[i] > cap
    ensures r.Success? ==> r.value == PartitionsOf(Bins(lens, cap))
  {
    var tooLong := AnyTooLong(lens, cap);
    if tooLong {
      return Failure;
    }
    var order := Descending(lens);
    var partitions: seq<seq<nat>>, remaining: seq<int> := [], [];
    ghost var bins: BagList := [];
    var n := 0;
    assert order[0..] == order;
    while n < |order|
      invariant 0 <= n <= |order|
      invariant partitions == PartitionsOf(bins) && remaining == Remaining(bins, cap)
      invariant Pack(order[n..], cap, bins) == Bins(lens, cap)
    {
      partitions, remaining := AddItem(partitions, remaining, order[n], cap, bins);
      assert order[n..][1..] == order[n + 1..];
      bins := Place(bins, order[n], cap);
      n := n + 1;
    }
    r := Success(partitions);
  }
}
