/**
  What every run of the differencing method keeps: the items, the bound on the spread,
  how many bags are filled, and, in equal-size mode, the common bag size.
*/
module KarmarkarKarpBalance {
  import opened Arithmetic
  import opened Sequences
  import opened Sorting
  import opened Bags
  import opened KarmarkarKarp

  // ---------- loads ----------

  /** Loads of the bags of a state. */
  function Loads(s: BagList): (r: seq<int>)
    ensures |r| == |s|
    ensures forall i :: 0 <= i < |s| ==> r[i] == Load(s[i])
  {
    Map((b: Bag) => Load(b) as int, s)
  }

  lemma {:induction false} LoadsTotal(s: BagList)
    ensures Sum(Loads(s)) == Load(Flatten(s))
  {
    if s == [] {
    } else {
      LoadsTotal(s[1..]);
      assert Loads(s)[1..] == Loads(s[1..]);
      LoadAppend(s[0], Flatten(s[1..]));
    }
  }

  lemma LoadPermutation(a: Bag, b: Bag)
    requires multiset(a) == multiset(b)
    ensures Load(a) == Load(b)
  {
    var f := (it: Item) => it.len as int;
    MapPermutation(f, a, b);
    assert Lens(a) == Map(f, a) && Lens(b) == Map(f, b);
    SumPermutation(Lens(a), Lens(b));
  }

  lemma EmptyIfWeightless(a: Bag, b: Bag)
    requires Heavier(a, b) && a == []
    ensures b == []
  {
  }

  // ---------- a merge keeps the items ----------

  function Reversed<T>(s: seq<T>): (r: seq<T>)
    ensures |r| == |s|
    ensures forall i :: 0 <= i < |s| ==> r[i] == s[|s| - 1 - i]
  {
    seq(|s|, i requires 0 <= i < |s| => s[|s| - 1 - i])
  }

  lemma {:induction false} ReversedMultiset<T>(s: seq<T>)
    ensures multiset(Reversed(s)) == multiset(s)
  {
    if s == [] {
      assert Reversed(s) == s;
    } else {
      ReversedMultiset(s[1..]);
      assert Reversed(s) == Reversed(s[1..]) + [s[0]];
      assert s == [s[0]] + s[1..];
    }
  }

  function Zipped(a: BagList, b: BagList): (r: BagList)
    requires |a| == |b|
    ensures |r| == |a|
  {
    seq(|a|, i requires 0 <= i < |a| => a[i] + b[i])
  }

  lemma {:induction false} ZippedItems(a: BagList, b: BagList)
    requires |a| == |b|
    ensures multiset(Flatten(Zipped(a, b))) == multiset(Flatten(a)) + multiset(Flatten(b))
  {
    if a == [] {
    } else {
      ZippedItems(a[1..], b[1..]);
      assert Zipped(a, b)[1..] == Zipped(a[1..], b[1..]);
    }
  }

  /** No item is lost, copied or invented by a merge. */
  lemma MergeItems(a: BagList, b: BagList)
    requires |a| == |b|
    ensures multiset(Flatten(Merge(a, b))) == multiset(Flatten(a)) + multiset(Flatten(b))
  {
    assert Paired(a, b) == Zipped(a, Reversed(b));
    ZippedItems(a, Reversed(b));
    ReversedMultiset(b);
    FlattenPermutation(Reversed(b), b);
    FlattenPermutation(Merge(a, b), Paired(a, b));
  }

  // ---------- a merge never widens the spread ----------

  lemma PairedGap(a: BagList, b: BagList, bound: int, i: nat, j: nat)
    requires |a| == |b| && i < |a| && j < |a|
    requires Ranked(a) && Ranked(b) && Spread(a) <= bound && Spread(b) <= bound
    ensures Load(Paired(a, b)[i]) - Load(Paired(a, b)[j]) <= bound
  {
    var k := |a|;
    LoadAppend(a[i], b[k - 1 - i]);
    LoadAppend(a[j], b[k - 1 - j]);
  }

  /** The spread of a merge is at most the larger of the two spreads. */
  lemma MergeSpread(a: BagList, b: BagList, bound: int)
    requires |a| == |b| && a != []
    requires Ranked(a) && Ranked(b) && Spread(a) <= bound && Spread(b) <= bound
    ensures Ranked(Merge(a, b)) && Spread(Merge(a, b)) <= bound
  {
    var p, m := Paired(a, b), Merge(a, b);
    SortDownRanked(p);
    SortLength(BagAfter, p);
    var i :| 0 <= i < |p| && p[i] == m[0];
    var j :| 0 <= j < |p| && p[j] == m[|m| - 1];
    PairedGap(a, b, bound, i, j);
  }

  // ---------- a merge fills bags from the front ----------

  /** Fewer items than bags: one item in each of the first bags. Otherwise no bag is empty. */
  ghost predicate Spare(s: BagList) {
    var m := |Flatten(s)|;
    if m < |s| then forall i :: 0 <= i < |s| ==> |s[i]| == if i < m then 1 else 0
    else forall i :: 0 <= i < |s| ==> s[i] != []
  }

  lemma {:induction false} ThinFlatten(s: BagList)
    requires Ranked(s)
    requires forall i :: 0 <= i < |s| ==> |s[i]| <= 1
    ensures forall i :: 0 <= i < |s| ==> |s[i]| == if i < |Flatten(s)| then 1 else 0
  {
    if s == [] {
    } else {
      ThinFlatten(s[1..]);
      if s[0] == [] {
        forall i | 0 <= i < |s| ensures s[i] == [] {
          if i > 0 { EmptyIfWeightless(s[0], s[i]); }
        }
        if s[1..] != [] { assert s[1..][0] == []; }
        assert |Flatten(s[1..])| == 0;
      } else {
        assert |Flatten(s)| == 1 + |Flatten(s[1..])|;
        forall i | 1 <= i < |s| ensures |s[i]| == if i < |Flatten(s)| then 1 else 0 {
          assert s[i] == s[1..][i - 1];
        }
      }
    }
  }

  lemma {:induction false} FullFlatten(s: BagList)
    requires forall i :: 0 <= i < |s| ==> s[i] != []
    ensures |Flatten(s)| >= |s|
  {
    if s == [] {
    } else {
      FullFlatten(s[1..]);
    }
  }

  lemma MergeCount(a: BagList, b: BagList)
    requires |a| == |b|
    ensures |Flatten(Merge(a, b))| == |Flatten(a)| + |Flatten(b)|
  {
    MergeItems(a, b);
    assert |multiset(Flatten(Merge(a, b)))| == |multiset(Flatten(a)) + multiset(Flatten(b))|;
  }

  /** The two sizes of the pair: with few items at most one of the two bags is filled, with many at least one. */
  lemma PairedSpare(a: BagList, b: BagList, i: nat)
    requires |a| == |b| && Spare(a) && Spare(b) && i < |a|
    ensures |Flatten(a)| + |Flatten(b)| < |a| ==> |Paired(a, b)[i]| <= 1
    ensures |Flatten(a)| + |Flatten(b)| >= |a| ==> Paired(a, b)[i] != []
  {
    hide Flatten;
    assert |Paired(a, b)[i]| == |a[i]| + |b[|a| - 1 - i]|;
  }

  lemma MergedAre(a: BagList, b: BagList)
    requires |a| == |b|
    ensures Ranked(Merge(a, b)) && forall i :: 0 <= i < |a| ==> Merge(a, b)[i] in Paired(a, b)
  {
    hide Sort;
    hide BagAfter;
    hide Ranked;
    SortLength(BagAfter, Paired(a, b));
    SortDownRanked(Paired(a, b));
  }

  lemma MergeSpare(a: BagList, b: BagList)
    requires |a| == |b| && Ranked(a) && Ranked(b) && Spare(a) && Spare(b)
    ensures Spare(Merge(a, b))
  {
    hide Flatten;
    hide Merge;
    hide Paired;
    hide Ranked;
    var p, m := Paired(a, b), Merge(a, b);
    MergeCount(a, b);
    MergedAre(a, b);
    forall i | 0 <= i < |a|
      ensures |Flatten(a)| + |Flatten(b)| < |a| ==> |m[i]| <= 1
      ensures |Flatten(a)| + |Flatten(b)| >= |a| ==> m[i] != []
    {
      var j :| 0 <= j < |p| && p[j] == m[i];
      PairedSpare(a, b, j);
    }
    if |Flatten(a)| + |Flatten(b)| < |a| {
      ThinFlatten(m);
    }
  }

  // ---------- a merge of equal sizes has equal sizes ----------

  ghost predicate Uniform(s: BagList) {
    forall i, j :: 0 <= i < |s| && 0 <= j < |s| ==> |s[i]| == |s[j]|
  }

  lemma PairedUniform(a: BagList, b: BagList)
    requires |a| == |b| && Uniform(a) && Uniform(b)
    ensures Uniform(Paired(a, b))
  {
    forall i, j | 0 <= i < |a| && 0 <= j < |a| ensures |Paired(a, b)[i]| == |Paired(a, b)[j]| {
      assert |Paired(a, b)[i]| == |a[i]| + |b[|a| - 1 - i]|;
      assert |Paired(a, b)[j]| == |a[j]| + |b[|a| - 1 - j]|;
    }
  }

  lemma MergeUniform(a: BagList, b: BagList)
    requires |a| == |b| && Uniform(a) && Uniform(b)
    ensures Uniform(Merge(a, b))
  {
    hide Merge;
    hide Paired;
    hide Ranked;
    var p, m := Paired(a, b), Merge(a, b);
    PairedUniform(a, b);
    MergedAre(a, b);
    forall i, j | 0 <= i < |m| && 0 <= j < |m| ensures |m[i]| == |m[j]| {
      var i' :| 0 <= i' < |p| && p[i'] == m[i];
      var j' :| 0 <= j' < |p| && p[j'] == m[j];
    }
  }

  // ---------- every run keeps all of this ----------

  ghost predicate Good(s: BagList, k: nat, bound: int) {
    |s| == k && 1 <= k && Ranked(s) && Spare(s) && Spread(s) <= bound
  }

  ghost predicate AllGood(pq: seq<BagList>, k: nat, bound: int) {
    forall i :: 0 <= i < |pq| ==> Good(pq[i], k, bound)
  }

  ghost predicate AllUniform(pq: seq<BagList>) {
    forall i :: 0 <= i < |pq| ==> Uniform(pq[i])
  }

  /** The items held by a heap. */
  ghost function Held(pq: seq<BagList>): multiset<Item> {
    multiset(Flatten(Flatten(pq)))
  }

  lemma {:induction false} HeldAppend(a: seq<BagList>, b: seq<BagList>)
    ensures Held(a + b) == Held(a) + Held(b)
  {
    FlattenAppend(a, b);
    FlattenAppend(Flatten(a), Flatten(b));
  }

  lemma HeldOne(s: BagList)
    ensures Held([s]) == multiset(Flatten(s))
  {
    FlattenSingleton(s);
  }

  lemma HeldRemoveAt(pq: seq<BagList>, i: nat)
    requires i < |pq|
    ensures Held(pq) == Held(RemoveAt(pq, i)) + multiset(Flatten(pq[i]))
  {
    assert pq == pq[..i] + ([pq[i]] + pq[i+1..]);
    HeldAppend(pq[..i], [pq[i]] + pq[i+1..]);
    HeldAppend([pq[i]], pq[i+1..]);
    HeldAppend(pq[..i], pq[i+1..]);
    HeldOne(pq[i]);
  }

  lemma StepKeepsItems(pq: seq<BagList>, k: nat)
    requires 2 <= |pq| && 1 <= k && Sized(pq, k)
    ensures Held(Step(pq, k)) == Held(pq)
  {
    var i := LeastIndex(pq, |pq|);
    var rest := RemoveAt(pq, i);
    var j := LeastIndex(rest, |rest|);
    HeldRemoveAt(pq, i);
    HeldRemoveAt(rest, j);
    HeldAppend(RemoveAt(rest, j), [Merge(pq[i], rest[j])]);
    HeldOne(Merge(pq[i], rest[j]));
    MergeItems(pq[i], rest[j]);
  }

  lemma StepKeepsGood(pq: seq<BagList>, k: nat, bound: int)
    requires 2 <= |pq| && 1 <= k && Sized(pq, k) && AllGood(pq, k, bound)
    ensures AllGood(Step(pq, k), k, bound)
  {
    hide Merge;
    hide Spare;
    hide Ranked;
    var i := LeastIndex(pq, |pq|);
    var rest := RemoveAt(pq, i);
    assert AllGood(rest, k, bound);
    var j := LeastIndex(rest, |rest|);
    MergeSpread(pq[i], rest[j], bound);
    MergeSpare(pq[i], rest[j]);
  }

  lemma StepKeepsUniform(pq: seq<BagList>, k: nat)
    requires 2 <= |pq| && 1 <= k && Sized(pq, k) && AllUniform(pq)
    ensures AllUniform(Step(pq, k))
  {
    var i := LeastIndex(pq, |pq|);
    var rest := RemoveAt(pq, i);
    assert AllUniform(rest);
    var j := LeastIndex(rest, |rest|);
    MergeUniform(pq[i], rest[j]);
  }

  lemma {:induction false} ReduceGood(pq: seq<BagList>, k: nat, bound: int)
    requires 1 <= |pq| && 1 <= k && Sized(pq, k) && AllGood(pq, k, bound)
    ensures Good(Reduce(pq, k), k, bound)
    ensures multiset(Flatten(Reduce(pq, k))) == Held(pq)
    decreases |pq|
  {
    if |pq| == 1 {
      assert pq == [pq[0]];
      HeldOne(pq[0]);
    } else {
      StepKeepsGood(pq, k, bound);
      StepKeepsItems(pq, k);
      ReduceGood(Step(pq, k), k, bound);
    }
  }

  lemma {:induction false} ReduceUniform(pq: seq<BagList>, k: nat)
    requires 1 <= |pq| && 1 <= k && Sized(pq, k) && AllUniform(pq)
    ensures Uniform(Reduce(pq, k))
    decreases |pq|
  {
    if |pq| > 1 {
      StepKeepsUniform(pq, k);
      ReduceUniform(Step(pq, k), k);
    }
  }

  // ---------- the states the run starts from ----------

  lemma {:induction false} StartItems(items: seq<Item>, k: nat)
    requires |items| <= k
    ensures Flatten(StartBags(items, k)) == items
    decreases k
  {
    var s := StartBags(items, k);
    if k == 0 {
    } else {
      var tail := if items == [] then [] else items[1..];
      StartItems(tail, k - 1);
      assert s[1..] == StartBags(tail, k - 1);
    }
  }

  lemma StartStateItems(items: seq<Item>, k: nat)
    requires |items| <= k
    ensures multiset(Flatten(StartState(items, k))) == multiset(items)
    ensures |Flatten(StartState(items, k))| == |items|
  {
    StartItems(items, k);
    FlattenPermutation(StartState(items, k), StartBags(items, k));
    assert |multiset(Flatten(StartState(items, k)))| == |multiset(items)|;
  }

  lemma StartBagsThin(items: seq<Item>, k: nat)
    ensures forall i :: 0 <= i < k ==> |StartBags(items, k)[i]| <= 1
  {
  }

  lemma SortDownThin(b: BagList)
    requires forall i :: 0 <= i < |b| ==> |b[i]| <= 1
    ensures forall i :: 0 <= i < |b| ==> |SortDown(b)[i]| <= 1
  {
    SortLength(BagAfter, b);
    forall i | 0 <= i < |b| ensures |SortDown(b)[i]| <= 1 {
      var j :| 0 <= j < |b| && b[j] == SortDown(b)[i];
    }
  }

  lemma StartStateSpare(items: seq<Item>, k: nat)
    requires |items| <= k
    ensures Ranked(StartState(items, k)) && Spare(StartState(items, k))
    ensures forall i :: 0 <= i < k ==> |StartState(items, k)[i]| == if i < |items| then 1 else 0
  {
    StartStateItems(items, k);
    StartBagsThin(items, k);
    hide StartBags;
    hide SortDown;
    SortDownRanked(StartBags(items, k));
    SortDownThin(StartBags(items, k));
    ThinFlatten(StartState(items, k));
  }

  lemma StartLoad(items: seq<Item>, k: nat, b: Bag)
    requires 1 <= |items| <= k && Ordered(NoLonger, items) && b in StartBags(items, k)
    ensures Load(b) <= items[|items| - 1].len
    ensures b != [] ==> items[0].len <= Load(b)
  {
    var i :| 0 <= i < k && StartBags(items, k)[i] == b;
    if i < |items| {
      LoadOne(items[i]);
      assert 0 < i ==> NoLonger(items[0], items[i]);
      assert i < |items| - 1 ==> NoLonger(items[i], items[|items| - 1]);
    }
  }

  /** A block of ascending items starts with spread last minus first; a lone item with its length. */
  lemma StartStateGood(items: seq<Item>, k: nat, bound: int)
    requires 1 <= |items| <= k && Ordered(NoLonger, items)
    requires 0 <= bound
    requires items[|items| - 1].len - (if |items| == k then items[0].len else 0) <= bound
    ensures Good(StartState(items, k), k, bound)
  {
    var b, s := StartBags(items, k), StartState(items, k);
    StartStateSpare(items, k);
    SortLength(BagAfter, b);
    assert s[0] in b && s[k - 1] in b;
    StartLoad(items, k, s[0]);
    StartLoad(items, k, s[k - 1]);
  }

  lemma BlocksCons(order: seq<Item>, size: nat, k: nat)
    requires 1 <= size <= k && |order| % size == 0 && order != []
    ensures size <= |order| && |order[size..]| % size == 0
    ensures Blocks(order, size, k) == [StartState(order[..size], k)] + Blocks(order[size..], size, k)
  {
    MultipleAtLeast(|order|, size);
    ModStep(|order|, size);
  }

  lemma FirstBlockItems(order: seq<Item>, size: nat, k: nat)
    requires 1 <= size <= k && size <= |order|
    requires Held(Blocks(order[size..], size, k)) == multiset(order[size..])
    ensures Held([StartState(order[..size], k)] + Blocks(order[size..], size, k)) == multiset(order)
  {
    hide Held;
    hide Blocks;
    hide StartState;
    var s := StartState(order[..size], k);
    HeldAppend([s], Blocks(order[size..], size, k));
    HeldOne(s);
    StartStateItems(order[..size], k);
    assert order == order[..size] + order[size..];
  }

  lemma {:induction false} BlocksItems(order: seq<Item>, size: nat, k: nat)
    requires 1 <= size <= k && |order| % size == 0
    ensures Held(Blocks(order, size, k)) == multiset(order)
  {
    if order == [] {
    } else {
      BlocksCons(order, size, k);
      BlocksItems(order[size..], size, k);
      FirstBlockItems(order, size, k);
    }
  }

  /** bound covers the initial spread of the block that starts at a multiple of the block size. */
  ghost predicate CoversBlock(order: seq<Item>, size: nat, k: nat, bound: int, at: nat) {
    at + size <= |order| && 1 <= size ==>
      order[at + size - 1].len - (if size == k then order[at].len else 0) <= bound
  }

  ghost predicate CoversBlocks(order: seq<Item>, size: nat, k: nat, bound: int)
    requires 1 <= size
  {
    0 <= bound && forall at: nat :: at % size == 0 ==> CoversBlock(order, size, k, bound, at)
  }

  lemma CoversRest(order: seq<Item>, size: nat, k: nat, bound: int)
    requires 1 <= size <= |order| && CoversBlocks(order, size, k, bound)
    ensures CoversBlocks(order[size..], size, k, bound)
  {
    forall at: nat | at % size == 0 ensures CoversBlock(order[size..], size, k, bound, at) {
      ModStep(at + size, size);
      assert CoversBlock(order, size, k, bound, at + size);
    }
  }

  lemma FirstBlockGood(order: seq<Item>, size: nat, k: nat, bound: int)
    requires 1 <= size <= k && size <= |order| && Ordered(NoLonger, order)
    requires CoversBlocks(order, size, k, bound)
    ensures Good(StartState(order[..size], k), k, bound)
  {
    assert CoversBlock(order, size, k, bound, 0);
    StartStateGood(order[..size], k, bound);
  }

  lemma {:induction false} BlocksGood(order: seq<Item>, size: nat, k: nat, bound: int)
    requires 1 <= size <= k && |order| % size == 0 && Ordered(NoLonger, order)
    requires CoversBlocks(order, size, k, bound)
    ensures AllGood(Blocks(order, size, k), k, bound)
  {
    if order == [] {
    } else {
      hide StartState;
      hide Good;
      hide CoversBlocks;
      BlocksCons(order, size, k);
      CoversRest(order, size, k, bound);
      BlocksGood(order[size..], size, k, bound);
      FirstBlockGood(order, size, k, bound);
    }
  }

  lemma FullStateUniform(items: seq<Item>)
    ensures Uniform(StartState(items, |items|))
  {
    hide StartState;
    hide Spare;
    hide Ranked;
    StartStateSpare(items, |items|);
  }

  lemma AllUniformCons(s: BagList, rest: seq<BagList>)
    requires Uniform(s) && AllUniform(rest)
    ensures AllUniform([s] + rest)
  {
    hide Uniform;
  }

  lemma {:induction false} BlocksUniform(order: seq<Item>, k: nat)
    requires 1 <= k && |order| % k == 0
    ensures AllUniform(Blocks(order, k, k))
  {
    hide StartState;
    hide Uniform;
    if order == [] {
    } else {
      BlocksCons(order, k, k);
      BlocksUniform(order[k..], k);
      FullStateUniform(order[..k]);
      hide AllUniform;
      hide Blocks;
      AllUniformCons(StartState(order[..k], k), Blocks(order[k..], k, k));
    }
  }
}
