/**
  Concrete batches on which the dynamic batching loop retries, misses its divisor, or fails, and one on which
  best-fit-decreasing opens three bins where two would do.
*/
module BatchingCases {
  import opened Sequences
  import opened Sorting
  import opened Bags
  import opened KarmarkarKarp
  import opened BalancedPartitions
  import opened BestFitDecreasing
  import opened DynamicBatching
  import opened Options

  // ---------- small lists and states of two bags ----------

  lemma LoadTwo(a: Item, b: Item)
    ensures Load([a, b]) == a.len + b.len
  {
    assert [a, b] == [a] + [b];
    LoadAppend([a], [b]);
    LoadOne(a);
    LoadOne(b);
  }

  lemma LoadThree(a: Item, b: Item, c: Item)
    ensures Load([a, b, c]) == a.len + b.len + c.len
  {
    assert [a, b, c] == [a, b] + [c];
    LoadAppend([a, b], [c]);
    LoadTwo(a, b);
    LoadOne(c);
  }

  lemma AfterByLoad(a: Bag, b: Bag)
    requires Load(a) > Load(b)
    ensures BagAfter(a, b) && !BagAfter(b, a)
  {
  }

  lemma SortDownTwo(a: Bag, b: Bag)
    requires Load(a) > Load(b)
    ensures SortDown([a, b]) == [a, b] == SortDown([b, a])
  {
    hide BagAfter;
    hide Sort;
    hide Load;
    AfterByLoad(a, b);
    SortInOrder(BagAfter, [a, b]);
    SortReverses(BagAfter, [b, a]);
    var r := SortDown([b, a]);
    assert r[0] == a && r[1] == b;
  }

  /** A lone item on two bags. */
  function Lone(a: Item): BagList {
    [[a], []]
  }

  lemma StartOfTwo(a: Item)
    requires a.len > 0
    ensures StartState([a], 2) == Lone(a) && |Lone(a)| == 2 && Spread(Lone(a)) == a.len
  {
    LoadOne(a);
    assert StartBags([a], 2) == [[a], []];
    SortDownTwo([a], []);
  }

  lemma MergeLone(a: Item, b: Item)
    requires a.len > b.len
    ensures Merge(Lone(a), Lone(b)) == [[a], [b]]
  {
    hide Merge;
    LoadOne(a);
    LoadOne(b);
    assert [a] + [] == [a] && [] + [b] == [b];
    MergeOfTwo([a], [], [b], []);
  }

  lemma MergeOfTwo(a0: Bag, a1: Bag, b0: Bag, b1: Bag)
    ensures Load(a0 + b1) > Load(a1 + b0) ==> Merge([a0, a1], [b0, b1]) == [a0 + b1, a1 + b0]
    ensures Load(a0 + b1) < Load(a1 + b0) ==> Merge([a0, a1], [b0, b1]) == [a1 + b0, a0 + b1]
  {
    assert Paired([a0, a1], [b0, b1]) == [a0 + b1, a1 + b0];
    if Load(a0 + b1) > Load(a1 + b0) {
      SortDownTwo(a0 + b1, a1 + b0);
    } else if Load(a0 + b1) < Load(a1 + b0) {
      SortDownTwo(a1 + b0, a0 + b1);
    }
  }

  lemma MergeLonePair(a: Item, b0: Item, b1: Item)
    requires a.len + b1.len > b0.len
    ensures Merge(Lone(a), [[b0], [b1]]) == [[a, b1], [b0]]
  {
    hide Merge;
    LoadTwo(a, b1);
    LoadOne(b0);
    assert [a] + [b1] == [a, b1] && [] + [b0] == [b0];
    MergeOfTwo([a], [], [b0], [b1]);
  }

  /** A wider spread, or the same with a heavier first set, is popped first. */
  ghost predicate PopsFirst(a: BagList, b: BagList)
    requires a != [] && b != []
  {
    Spread(a) > Spread(b) || (Spread(a) == Spread(b) && Load(a[0]) > Load(b[0]))
  }

  lemma PoppedIs(pq: seq<BagList>, i: nat)
    requires i < |pq| && forall j :: 0 <= j < |pq| ==> pq[j] != []
    requires forall j :: 0 <= j < |pq| && j != i ==> PopsFirst(pq[i], pq[j])
    ensures LeastIndex(pq, |pq|) == i
  {
    LeastIndexIsLeast(pq, |pq|);
    var least := LeastIndex(pq, |pq|);
    assert !StateBefore(pq[i], pq[least]);
  }

  // ---------- five samples of 8, 7, 6, 5 and 4 tokens ----------

  const FALLING: seq<nat> := [8, 7, 6, 5, 4]
  const I0: Item := Item(0, 8)
  const I1: Item := Item(1, 7)
  const I2: Item := Item(2, 6)
  const I3: Item := Item(3, 5)
  const I4: Item := Item(4, 4)

  function Falling(): Batch {
    Batch(FALLING, 8, [4, 4, 3, 3, 2], [4, 3, 3, 2, 2], map[])
  }

  lemma FallingItems()
    ensures Items(FALLING) == [I0, I1, I2, I3, I4]
    ensures forall i :: 0 <= i < 5 ==> Items(FALLING)[i].len == 8 - i
  {
  }

  lemma OrdersAreSorts()
    ensures Ascending(FALLING) == Sort(Shorter, Items(FALLING))
    ensures Descending(FALLING) == Sort(LongerFirst, Items(FALLING))
  {
    hide Sort;
  }

  lemma FallingDescends()
    ensures Descending(FALLING) == [I0, I1, I2, I3, I4]
  {
    hide Sort;
    hide Items;
    hide Descending;
    FallingItems();
    OrdersAreSorts();
    SortInOrder(LongerFirst, Items(FALLING));
  }

  lemma FallingShortens()
    ensures |Items(FALLING)| == 5
    ensures forall i, j :: 0 <= i < j < 5 ==> Shorter(Items(FALLING)[j], Items(FALLING)[i])
  {
    hide Items;
    FallingItems();
  }

  lemma FallingAscends()
    ensures Ascending(FALLING) == [I4, I3, I2, I1, I0]
  {
    hide Sort;
    hide Items;
    hide Ascending;
    hide Shorter;
    FallingShortens();
    OrdersAreSorts();
    SortReverses(Shorter, Items(FALLING));
    FallingItems();
    ReversedFive(I0, I1, I2, I3, I4, Ascending(FALLING));
  }

  lemma ReversedFive(a: Item, b: Item, c: Item, d: Item, e: Item, r: seq<Item>)
    requires |r| == 5 && forall i :: 0 <= i < 5 ==> r[i] == [a, b, c, d, e][4 - i]
    ensures r == [e, d, c, b, a]
  {
  }

  lemma SumOfFive(a: int, b: int, c: int, d: int, e: int)
    ensures Sum([a, b, c, d, e]) == a + b + c + d + e
  {
    SumStep(a, [b, c, d, e]);
    SumStep(b, [c, d, e]);
    SumStep(c, [d, e]);
    SumStep(d, [e]);
    SumStep(e, []);
  }

  lemma SumStep(x: int, rest: seq<int>)
    ensures Sum([x] + rest) == x + Sum(rest)
  {
    assert ([x] + rest)[1..] == rest;
  }

  // Best fit: 8 and 7 fill the first bin, 6, 5 and 4 the second.

  /** All bins but the last are too full for the item, the last is not. */
  lemma PlaceInLast(full: BagList, b: Bag, it: Item, cap: int)
    requires Load(b) + it.len <= cap && forall i :: 0 <= i < |full| ==> Load(full[i]) + it.len > cap
    ensures Place(full + [b], it, cap) == full + [b + [it]]
  {
    hide Load;
    hide BestBin;
    var bins := full + [b];
    BestBinIsTightest(Remaining(bins, cap), it.len, |bins|);
    assert Remaining(bins, cap)[|full|] >= it.len;
  }

  /** All bins are too full. */
  lemma PlaceAfterAll(full: BagList, it: Item, cap: int)
    requires forall i :: 0 <= i < |full| ==> Load(full[i]) + it.len > cap
    ensures Place(full, it, cap) == full + [[it]]
  {
    hide Load;
    hide BestBin;
    BestBinIsTightest(Remaining(full, cap), it.len, |full|);
  }

  lemma FallingFirstBin()
    ensures Place([], I0, 15) == [[I0]] && Place([[I0]], I1, 15) == [[I0, I1]]
  {
    hide Place;
    PlaceAfterAll([], I0, 15);
    LoadOne(I0);
    PlaceInLast([], [I0], I1, 15);
    assert [I0] + [I1] == [I0, I1];
  }

  lemma FallingSecondBin()
    ensures Place([[I0, I1]], I2, 15) == [[I0, I1], [I2]]
    ensures Place([[I0, I1], [I2]], I3, 15) == [[I0, I1], [I2, I3]]
    ensures Place([[I0, I1], [I2, I3]], I4, 15) == [[I0, I1], [I2, I3, I4]]
  {
    hide Place;
    hide Load;
    var full: BagList := [[I0, I1]];
    LoadTwo(I0, I1);
    LoadOne(I2);
    LoadTwo(I2, I3);
    PlaceAfterAll(full, I2, 15);
    PlaceInLast(full, [I2], I3, 15);
    PlaceInLast(full, [I2, I3], I4, 15);
    assert [I2] + [I3] == [I2, I3] && [I2, I3] + [I4] == [I2, I3, I4];
  }

  lemma PackStep(it: Item, rest: seq<Item>, cap: int, bins: BagList)
    ensures Pack([it] + rest, cap, bins) == Pack(rest, cap, Place(bins, it, cap))
  {
    assert ([it] + rest)[1..] == rest;
  }

  lemma FallingPacks()
    ensures |Bins(FALLING, 15)| == 2
  {
    hide Place;
    FallingDescends();
    FallingFirstBin();
    FallingSecondBin();
    PackStep(I0, [I1, I2, I3, I4], 15, []);
    PackStep(I1, [I2, I3, I4], 15, [[I0]]);
    PackStep(I2, [I3, I4], 15, [[I0, I1]]);
    PackStep(I3, [I4], 15, [[I0, I1], [I2]]);
    PackStep(I4, [], 15, [[I0, I1], [I2, I3]]);
  }

  // Differencing: 8 against 7, 6 against 5, 4 joins 7, and the two pairs give 16 against 14.

  /** Without equal sizes every item starts alone. */
  lemma {:induction false} LoneBlocks(order: seq<Item>)
    requires forall i :: 0 <= i < |order| ==> order[i].len > 0
    ensures |Blocks(order, 1, 2)| == |order|
    ensures forall i :: 0 <= i < |order| ==> Blocks(order, 1, 2)[i] == Lone(order[i])
  {
    hide StartState;
    hide Lone;
    if order == [] {
    } else {
      LoneBlocks(order[1..]);
      StartOfTwo(order[0]);
      assert order[..1] == [order[0]];
    }
  }

  lemma FallingBlocks()
    ensures Blocks([I4, I3, I2, I1, I0], 1, 2) == [Lone(I4), Lone(I3), Lone(I2), Lone(I1), Lone(I0)]
  {
    hide Blocks;
    hide Lone;
    LoneBlocks([I4, I3, I2, I1, I0]);
  }

  lemma FallingHeap()
    ensures InitialHeap(FALLING, 2, false) == [Lone(I4), Lone(I3), Lone(I2), Lone(I1), Lone(I0)]
  {
    hide Blocks;
    hide Ascending;
    hide Lone;
    FallingAscends();
    FallingBlocks();
  }

  /** One turn, given which states are popped. */
  lemma StepIs(pq: seq<BagList>, i: nat, j: nat, merged: BagList)
    requires 2 <= |pq| && Sized(pq, 2) && i < |pq| && j < |pq| - 1
    requires LeastIndex(pq, |pq|) == i && LeastIndex(RemoveAt(pq, i), |pq| - 1) == j
    requires Merge(pq[i], RemoveAt(pq, i)[j]) == merged
    ensures Step(pq, 2) == RemoveAt(RemoveAt(pq, i), j) + [merged]
  {
    hide LeastIndex;
    hide Merge;
    hide RemoveAt;
  }

  lemma SpreadOfTwo(a: Bag, b: Bag)
    ensures Spread([a, b]) == Load(a) - Load(b)
  {
  }

  lemma FallingTurn1()
    ensures Step([Lone(I4), Lone(I3), Lone(I2), Lone(I1), Lone(I0)], 2) == [Lone(I4), Lone(I3), Lone(I2), [[I0], [I1]]]
  {
    hide Spread;
    hide Load;
    hide LeastIndex;
    hide Merge;
    hide Step;
    hide Lone;
    hide StartState;
    StartOfTwo(I4);
    StartOfTwo(I3);
    StartOfTwo(I2);
    StartOfTwo(I1);
    StartOfTwo(I0);
    var pq := [Lone(I4), Lone(I3), Lone(I2), Lone(I1), Lone(I0)];
    var rest := [Lone(I4), Lone(I3), Lone(I2), Lone(I1)];
    PoppedIs(pq, 4);
    assert RemoveAt(pq, 4) == rest;
    PoppedIs(rest, 3);
    assert RemoveAt(rest, 3) == [Lone(I4), Lone(I3), Lone(I2)];
    MergeLone(I0, I1);
    StepIs(pq, 4, 3, [[I0], [I1]]);
  }

  lemma FallingTurn2()
    ensures Step([Lone(I4), Lone(I3), Lone(I2), [[I0], [I1]]], 2) == [Lone(I4), [[I0], [I1]], [[I2], [I3]]]
  {
    hide Spread;
    hide Load;
    hide LeastIndex;
    hide Merge;
    hide Step;
    hide Lone;
    hide StartState;
    StartOfTwo(I4);
    StartOfTwo(I3);
    StartOfTwo(I2);
    LoadOne(I0);
    LoadOne(I1);
    SpreadOfTwo([I0], [I1]);
    var pq := [Lone(I4), Lone(I3), Lone(I2), [[I0], [I1]]];
    var rest := [Lone(I4), Lone(I3), [[I0], [I1]]];
    PoppedIs(pq, 2);
    assert RemoveAt(pq, 2) == rest;
    PoppedIs(rest, 1);
    assert RemoveAt(rest, 1) == [Lone(I4), [[I0], [I1]]];
    MergeLone(I2, I3);
    StepIs(pq, 2, 1, [[I2], [I3]]);
  }

  lemma FallingTurn3()
    ensures Step([Lone(I4), [[I0], [I1]], [[I2], [I3]]], 2) == [[[I2], [I3]], [[I4, I1], [I0]]]
  {
    hide Spread;
    hide Load;
    hide LeastIndex;
    hide Merge;
    hide Step;
    StartOfTwo(I4);
    LoadOne(I0);
    LoadOne(I1);
    LoadOne(I2);
    LoadOne(I3);
    SpreadOfTwo([I0], [I1]);
    SpreadOfTwo([I2], [I3]);
    var pq: seq<BagList> := [Lone(I4), [[I0], [I1]], [[I2], [I3]]];
    var rest: seq<BagList> := [[[I0], [I1]], [[I2], [I3]]];
    PoppedIs(pq, 0);
    assert RemoveAt(pq, 0) == rest;
    PoppedIs(rest, 0);
    assert RemoveAt(rest, 0) == [[[I2], [I3]]];
    LoadTwo(I4, I1);
    MergeLonePair(I4, I0, I1);
    StepIs(pq, 0, 0, [[I4, I1], [I0]]);
  }

  lemma FallingTurn4()
    ensures Step([[[I2], [I3]], [[I4, I1], [I0]]], 2) == [[[I4, I1, I3], [I0, I2]]]
  {
    hide Spread;
    hide Load;
    hide LeastIndex;
    hide Merge;
    hide Step;
    LoadOne(I0);
    LoadOne(I2);
    LoadOne(I3);
    LoadTwo(I4, I1);
    SpreadOfTwo([I2], [I3]);
    SpreadOfTwo([I4, I1], [I0]);
    var pq: seq<BagList> := [[[I2], [I3]], [[I4, I1], [I0]]];
    var rest: seq<BagList> := [[[I2], [I3]]];
    PoppedIs(pq, 1);
    assert RemoveAt(pq, 1) == rest;
    PoppedIs(rest, 0);
    assert RemoveAt(rest, 0) == [];
    LoadThree(I4, I1, I3);
    LoadTwo(I0, I2);
    MergeOfTwo([I4, I1], [I0], [I2], [I3]);
    assert [I4, I1] + [I3] == [I4, I1, I3] && [I0] + [I2] == [I0, I2];
    StepIs(pq, 1, 0, [[I4, I1, I3], [I0, I2]]);
    assert [] + [[[I4, I1, I3], [I0, I2]]] == [[[I4, I1, I3], [I0, I2]]];
  }

  lemma ReduceStep(pq: seq<BagList>)
    requires 2 <= |pq| && Sized(pq, 2)
    ensures Reduce(pq, 2) == Reduce(Step(pq, 2), 2)
  {
  }

  lemma FallingFinal()
    ensures FinalState(FALLING, 2, false) == [[I4, I1, I3], [I0, I2]]
  {
    hide Step;
    hide InitialHeap;
    FallingHeap();
    FallingTurn1();
    FallingTurn2();
    FallingTurn3();
    FallingTurn4();
    ReduceStep([Lone(I4), Lone(I3), Lone(I2), Lone(I1), Lone(I0)]);
    ReduceStep([Lone(I4), Lone(I3), Lone(I2), [[I0], [I1]]]);
    ReduceStep([Lone(I4), [[I0], [I1]], [[I2], [I3]]]);
    ReduceStep([[[I2], [I3]], [[I4, I1], [I0]]]);
  }

  /** The column sums are the mask sums, as in every batch that is built from rollouts. */
  ghost predicate Exact(b: Batch) {
    WellFormed(b) && forall i :: 0 <= i < |b.masks| ==> b.prompts[i] + b.responses[i] == b.masks[i]
  }

  lemma {:induction false} TokensAreLoad(b: Batch, p: seq<nat>)
    requires Exact(b) && Indices(p, |b.masks|)
    ensures PartTokens(b, p) == PartLoad(b.masks, p)
  {
    if p == [] {
    } else {
      TokensAreLoad(b, p[1..]);
      assert Gather(b.prompts, p)[1..] == Gather(b.prompts, p[1..]);
      assert Gather(b.responses, p)[1..] == Gather(b.responses, p[1..]);
      assert Gather(b.masks, p)[1..] == Gather(b.masks, p[1..]);
    }
  }

  lemma FallingHeavyPart()
    ensures Balanced(FALLING, 2, false).Success? && |Balanced(FALLING, 2, false).value| == 2
    ensures var p := Balanced(FALLING, 2, false).value[0]; Indices(p, 5) && PartLoad(FALLING, p) == 16
  {
    hide FinalState;
    hide SortUp;
    BalancedSucceeds(FALLING, 2, false);
    FallingFinal();
    var bag := [I4, I1, I3];
    assert Partition(FALLING, 2, false)[0] == IndicesOf(bag);
    LoadThree(I4, I1, I3);
    GenuineLoad(bag, FALLING);
    SortUpLoad(FALLING, IndicesOf(bag));
  }

  lemma FallingTwoDoNotFit()
    ensures !FitsAt(Falling(), 15, 2)
  {
    hide Balanced;
    FallingHeavyPart();
    var p := Balanced(FALLING, 2, false).value[0];
    BalancedCovers(FALLING, 2, false);
    TokensAreLoad(Falling(), p);
  }

  lemma FallingIsAligned()
    ensures Exact(Falling()) && Consistent(Falling()) && Aligned([Falling()], 15, 5)
  {
  }

  lemma FallingThreeEnough()
    ensures Enough(Falling(), 15, 3)
  {
    SumOfFive(8, 7, 6, 5, 4);
    var lens: seq<int> := FALLING;
    assert lens == [8, 7, 6, 5, 4];
    MaxLenIn(FALLING);
  }

  lemma FallingStarts(c: Config)
    requires c == Config(15, true, None, Some(2))
    ensures StartCounts([Falling()], c) == [2]
  {
    hide Bins;
    hide RoundUp;
    FallingPacks();
    assert OwnCounts([Falling()], c) == [2];
    assert Synced([Falling()], c) == [2];
    RoundUpTwo();
  }

  lemma RoundUpTwo()
    ensures RoundUp(2, 2) == 2
  {
  }

  /** Two must divide the count, best fit starts with two, one retry is needed, and the run ends with three. */
  lemma RetryBreaksDivisor()
    ensures var c := Config(15, true, None, Some(2));
            Exact(Falling()) && StartCounts([Falling()], c) == [2] && Iterate([Falling()], c).Success? &&
            |Iterate([Falling()], c).value| == 1 && |Iterate([Falling()], c).value[0]| == 3
  {
    hide StartCounts;
    hide Iterate;
    hide Enough;
    hide FitsAt;
    var c := Config(15, true, None, Some(2));
    FallingIsAligned();
    FallingStarts(c);
    FallingThreeEnough();
    FallingTwoDoNotFit();
    var m := IteratorSucceeds([Falling()], c, 5);
    CountBounded([Falling()], c, 5, m, 3);
    var m' := DivisibleIffStartFits([Falling()], c, 5, 2);
    assert m == m' == |Iterate([Falling()], c).value[0]|;
  }

  // ---------- ranks that do not fit together ----------

  function Full(): Batch {
    Batch([15, 15, 15, 15, 15], 15, [8, 8, 8, 8, 8], [7, 7, 7, 7, 7], map[])
  }

  lemma FullPacks()
    ensures |Bins(Full().masks, 15)| == 5
  {
    hide Bins;
    var lens := Full().masks;
    var ints: seq<int> := lens;
    SumOfFive(15, 15, 15, 15, 15);
    assert ints == [15, 15, 15, 15, 15];
    BinsHoldTotal(lens, 15);
    PackedPartitions(lens, 15);
  }

  /** Without synchronised counts: one rank starts with all its samples apart, the other needs a retry. */
  lemma UnsynchronisedRanksFail()
    ensures var c := Config(15, false, None, None);
            Exact(Full()) && Exact(Falling()) && StartCounts([Full(), Falling()], c) == [5, 2] &&
            Iterate([Full(), Falling()], c).Failure?
  {
    hide Bins;
    hide FitsAt;
    hide Iterate;
    var c := Config(15, false, None, None);
    FullPacks();
    FallingPacks();
    assert OwnCounts([Full(), Falling()], c) == [5, 2];
    FallingTwoDoNotFit();
    FullRankBlocksRetry([Full(), Falling()], c, 0, 1);
  }

  /** Synchronised counts on unequal batches: two full samples on one rank and a single sample on the other. */
  lemma UnequalBatchesFail()
    ensures var one, two := Batch([2], 2, [1], [1], map[]), Batch([2, 2], 2, [1, 1], [1, 1], map[]);
            Exact(one) && Exact(two) && Iterate([one, two], Config(2, true, None, None)).Failure?
  {
    hide Iterate;
    hide Bins;
    var one, two := Batch([2], 2, [1], [1], map[]), Batch([2, 2], 2, [1, 1], [1, 1], map[]);
    var c := Config(2, true, None, None);
    SumStep(2, [2]);
    SumStep(2, []);
    assert [2] + [2] == [2, 2] && [2] + [] == [2];
    OneBinIffFits(two.masks, 2);
    PackCount(two, 2);
    assert OwnCounts([one, two], c)[1] == 2;
    StartTooLarge([one, two], c, 0);
  }

  // ---------- three bins where two would do ----------

  /** Two samples of 3 tokens and four of 2, in bins of 7. */
  const SIX: seq<nat> := [3, 3, 2, 2, 2, 2]
  const S0: Item := Item(0, 3)
  const S1: Item := Item(1, 3)
  const S2: Item := Item(2, 2)
  const S3: Item := Item(3, 2)
  const S4: Item := Item(4, 2)
  const S5: Item := Item(5, 2)

  lemma SixDescend()
    ensures Descending(SIX) == [S0, S1, S2, S3, S4, S5]
  {
    hide Sort;
    var items := Items(SIX);
    assert items == [S0, S1, S2, S3, S4, S5];
    SortInOrder(LongerFirst, items);
  }

  lemma SixFirstBin()
    ensures Place([], S0, 7) == [[S0]] && Place([[S0]], S1, 7) == [[S0, S1]]
  {
    hide Place;
    PlaceAfterAll([], S0, 7);
    LoadOne(S0);
    PlaceInLast([], [S0], S1, 7);
    assert [S0] + [S1] == [S0, S1];
  }

  lemma SixSecondBin()
    ensures Place([[S0, S1]], S2, 7) == [[S0, S1], [S2]]
    ensures Place([[S0, S1], [S2]], S3, 7) == [[S0, S1], [S2, S3]]
    ensures Place([[S0, S1], [S2, S3]], S4, 7) == [[S0, S1], [S2, S3, S4]]
  {
    hide Place;
    hide Load;
    var full: BagList := [[S0, S1]];
    LoadTwo(S0, S1);
    LoadOne(S2);
    LoadTwo(S2, S3);
    PlaceAfterAll(full, S2, 7);
    PlaceInLast(full, [S2], S3, 7);
    PlaceInLast(full, [S2, S3], S4, 7);
    assert [S2] + [S3] == [S2, S3] && [S2, S3] + [S4] == [S2, S3, S4];
  }

  lemma SixThirdBin()
    ensures Place([[S0, S1], [S2, S3, S4]], S5, 7) == [[S0, S1], [S2, S3, S4], [S5]]
  {
    hide Place;
    hide Load;
    LoadTwo(S0, S1);
    LoadThree(S2, S3, S4);
    PlaceAfterAll([[S0, S1], [S2, S3, S4]], S5, 7);
  }

  lemma SixPacks()
    ensures |Bins(SIX, 7)| == 3
  {
    hide Place;
    SixDescend();
    SixFirstBin();
    SixSecondBin();
    SixThirdBin();
    PackStep(S0, [S1, S2, S3, S4, S5], 7, []);
    PackStep(S1, [S2, S3, S4, S5], 7, [[S0]]);
    PackStep(S2, [S3, S4, S5], 7, [[S0, S1]]);
    PackStep(S3, [S4, S5], 7, [[S0, S1], [S2]]);
    PackStep(S4, [S5], 7, [[S0, S1], [S2, S3]]);
    PackStep(S5, [], 7, [[S0, S1], [S2, S3, S4]]);
  }

  lemma SumOfThree(a: int, b: int, c: int)
    ensures Sum([a, b, c]) == a + b + c
  {
    SumStep(a, [b, c]);
    SumStep(b, [c]);
    SumStep(c, []);
  }

  lemma SixParted(part: seq<nat>)
    requires part == [0, 2, 3] || part == [1, 4, 5]
    ensures Indices(part, 6) && PartLoad(SIX, part) == 7
  {
    hide Sum;
    SumOfThree(3, 2, 2);
    assert Gather(SIX, part) == [3, 2, 2];
  }

  lemma SixCovered(parts: seq<seq<nat>>)
    requires parts == [[0, 2, 3], [1, 4, 5]]
    ensures IsPermutation(Flatten(parts), 6)
  {
    var last: seq<nat> := [1, 4, 5];
    FlattenSingleton(last);
    assert parts[1..] == [last];
    assert Flatten(parts) == parts[0] + Flatten(parts[1..]) == [0, 2, 3, 1, 4, 5];
    assert Range(6) == [0, 1, 2, 3, 4, 5];
  }

  /** The bound of three bins for every two is met: two bins of 3 + 2 + 2 hold what best fit spreads over three. */
  lemma ThreeForTwo()
    ensures FeasiblePacking(SIX, 7, [[0, 2, 3], [1, 4, 5]]) && |Bins(SIX, 7)| == 3
  {
    hide Bins;
    hide PartLoad;
    hide Flatten;
    hide IsPermutation;
    SixPacks();
    SixParted([0, 2, 3]);
    SixParted([1, 4, 5]);
    SixCovered([[0, 2, 3], [1, 4, 5]]);
  }
}
