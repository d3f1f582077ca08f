/**
  Runs of the partitioner's priority queue: both pops of every turn are forced by the order on states, so every
  queue that always hands out an unpreceded state leads to the same partitions.
*/
module HeapRuns {
  import opened Sequences
  import opened Sorting
  import opened Bags
  import opened KarmarkarKarp
  import opened KarmarkarKarpBalance
  import opened BalancedPartitions

  // ---------- neither pop of a turn depends on the layout of the heap ----------

  ghost function HeapAfter(pq: seq<BagList>, k: nat, steps: nat): (r: seq<BagList>)
    requires 1 <= k && Sized(pq, k) && steps < |pq|
    ensures |r| == |pq| - steps && Sized(r, k)
    decreases steps
  {
    if steps == 0 then pq else Step(HeapAfter(pq, k, steps - 1), k)
  }

  /** State i is one the queue may hand out: none of the others comes before it. */
  ghost predicate MayPop(heap: seq<BagList>, i: nat)
    requires forall j :: 0 <= j < |heap| ==> heap[j] != []
  {
    i < |heap| && forall j :: 0 <= j < |heap| ==> !StateBefore(heap[j], heap[i])
  }

  ghost predicate Unshared(pq: seq<BagList>) {
    && (forall it :: Held(pq)[it] <= 1)
    && (forall i :: 0 <= i < |pq| ==> pq[i] != [] && pq[i][0] != [])
  }

  lemma SharedItem(pq: seq<BagList>, i: nat, j: nat, it: Item)
    requires i < j < |pq|
    requires it in Flatten(pq[i]) && it in Flatten(pq[j])
    ensures Held(pq)[it] >= 2
  {
    var rest := RemoveAt(pq, i);
    HeldRemoveAt(pq, i);
    HeldRemoveAt(rest, j - 1);
    assert rest[j - 1] == pq[j];
    assert it in multiset(Flatten(pq[i])) && it in multiset(Flatten(pq[j]));
  }

  lemma UnsharedDistinct(pq: seq<BagList>)
    requires Unshared(pq)
    ensures Distinct(pq)
  {
    forall i, j | 0 <= i < j < |pq| ensures pq[i][0] != pq[j][0] {
      FlattenMember(pq[i], 0, 0);
      FlattenMember(pq[j], 0, 0);
      if pq[i][0] == pq[j][0] {
        SharedItem(pq, i, j, pq[j][0][0]);
      }
    }
  }

  lemma StepUnshared(pq: seq<BagList>, k: nat)
    requires 2 <= |pq| && 1 <= k && Sized(pq, k) && Unshared(pq)
    ensures Unshared(Step(pq, k))
  {
    hide Held;
    hide Merge;
    hide LeastIndex;
    StepKeepsItems(pq, k);
    var i := LeastIndex(pq, |pq|);
    var rest := RemoveAt(pq, i);
    var j := LeastIndex(rest, |rest|);
    assert forall m :: 0 <= m < |rest| ==> rest[m] != [] && rest[m][0] != [];
    MergeFilled(pq[i], rest[j]);
  }

  lemma MergeFilled(a: BagList, b: BagList)
    requires |a| == |b| && a != [] && a[0] != []
    ensures Merge(a, b)[0] != []
  {
    var p, m := Paired(a, b), Merge(a, b);
    SortLength(BagAfter, p);
    SortDownRanked(p);
    assert p[0] != [] && p[0] in m;
    var at :| 0 <= at < |m| && m[at] == p[0];
    if m[0] == [] && at > 0 { EmptyIfWeightless(m[0], m[at]); }
  }

  lemma {:induction false} HeapAfterUnshared(pq: seq<BagList>, k: nat, steps: nat)
    requires 1 <= k && Sized(pq, k) && steps < |pq| && Unshared(pq)
    ensures Unshared(HeapAfter(pq, k, steps))
    decreases steps
  {
    hide Step;
    hide Unshared;
    if steps == 0 {
    } else {
      HeapAfterUnshared(pq, k, steps - 1);
      StepUnshared(HeapAfter(pq, k, steps - 1), k);
    }
  }

  lemma {:induction false} BlocksFilled(order: seq<Item>, size: nat, k: nat)
    requires 1 <= size <= k && |order| % size == 0
    ensures forall i :: 0 <= i < |Blocks(order, size, k)| ==> Blocks(order, size, k)[i][0] != []
  {
    if order == [] {
    } else {
      hide StartState;
      BlocksCons(order, size, k);
      BlocksFilled(order[size..], size, k);
      StartStateSpare(order[..size], k);
    }
  }

  lemma UnsharedFilled(pq: seq<BagList>)
    requires Unshared(pq)
    ensures forall i :: 0 <= i < |pq| ==> pq[i] != []
  {
  }

  lemma ItemsOnce(lens: seq<nat>, it: Item)
    ensures multiset(Items(lens))[it] <= 1
  {
    if it in Items(lens) {
      CountOnce(Items(lens), it.idx);
    } else {
      assert it !in multiset(Items(lens));
    }
  }

  lemma StartUnshared(lens: seq<nat>, k: nat, equal: bool)
    requires 1 <= k && 1 <= |lens| && (equal ==> |lens| % k == 0)
    ensures Unshared(InitialHeap(lens, k, equal))
  {
    hide Held;
    hide Blocks;
    var order, size := Ascending(lens), BlockSize(k, equal);
    BlocksFilled(order, size, k);
    BlocksItems(order, size, k);
    forall it ensures Held(InitialHeap(lens, k, equal))[it] <= 1 {
      ItemsOnce(lens, it);
    }
  }

  /** The heap before any turn of a run: its first sets are distinct and no state is empty. */
  lemma RunStaysDistinct(lens: seq<nat>, k: nat, equal: bool, steps: nat)
    requires 1 <= k && 1 <= |lens| && (equal ==> |lens| % k == 0)
    requires steps < |InitialHeap(lens, k, equal)|
    ensures var pq := HeapAfter(InitialHeap(lens, k, equal), k, steps);
            Distinct(pq) && forall i :: 0 <= i < |pq| ==> pq[i] != []
  {
    hide Unshared;
    hide Distinct;
    var start := InitialHeap(lens, k, equal);
    StartUnshared(lens, k, equal);
    HeapAfterUnshared(start, k, steps);
    var pq := HeapAfter(start, k, steps);
    UnsharedDistinct(pq);
    UnsharedFilled(pq);
  }

  /** The first pop of every turn of every run: the order leaves exactly one state to take. */
  lemma FirstPopIsForced(lens: seq<nat>, k: nat, equal: bool, steps: nat, i: nat)
    requires 1 <= k && 1 <= |lens| && (equal ==> |lens| % k == 0)
    requires steps < |InitialHeap(lens, k, equal)|
    requires MayPop(HeapAfter(InitialHeap(lens, k, equal), k, steps), i)
    ensures var pq := HeapAfter(InitialHeap(lens, k, equal), k, steps); i == LeastIndex(pq, |pq|)
  {
    hide Distinct;
    hide InitialHeap;
    hide HeapAfter;
    RunStaysDistinct(lens, k, equal, steps);
    PopIsForced(HeapAfter(InitialHeap(lens, k, equal), k, steps), i);
  }

  lemma RemovalKeepsDistinct(pq: seq<BagList>, a: nat)
    requires a < |pq| && Distinct(pq) && forall i :: 0 <= i < |pq| ==> pq[i] != []
    ensures Distinct(RemoveAt(pq, a)) && forall i :: 0 <= i < |RemoveAt(pq, a)| ==> RemoveAt(pq, a)[i] != []
  {
    var rest := RemoveAt(pq, a);
    forall i | 0 <= i < |rest| ensures rest[i] == pq[if i < a then i else i + 1] {
    }
  }

  /** The second pop of every turn: once state a has been taken, only one of the remaining states can follow it. */
  lemma SecondPopIsForced(lens: seq<nat>, k: nat, equal: bool, steps: nat, a: nat, i: nat)
    requires 1 <= k && 1 <= |lens| && (equal ==> |lens| % k == 0)
    requires steps < |InitialHeap(lens, k, equal)|
    requires a < |HeapAfter(InitialHeap(lens, k, equal), k, steps)|
    requires MayPop(RemoveAt(HeapAfter(InitialHeap(lens, k, equal), k, steps), a), i)
    ensures var rest := RemoveAt(HeapAfter(InitialHeap(lens, k, equal), k, steps), a); i == LeastIndex(rest, |rest|)
  {
    hide Distinct;
    hide RemoveAt;
    hide InitialHeap;
    hide HeapAfter;
    RunStaysDistinct(lens, k, equal, steps);
    var pq := HeapAfter(InitialHeap(lens, k, equal), k, steps);
    RemovalKeepsDistinct(pq, a);
    PopIsForced(RemoveAt(pq, a), i);
  }

  // ---------- any priority queue gives the same partitions ----------

  /** One turn of some priority queue, whatever the layouts before and after it. */
  ghost predicate Turn(heap: seq<BagList>, next: seq<BagList>, i: nat, j: nat, k: nat)
    requires 1 <= k && Sized(heap, k)
  {
    MayPop(heap, i) &&
    var rest := RemoveAt(heap, i);
    MayPop(rest, j) && multiset(next) == multiset(RemoveAt(rest, j) + [Merge(heap[i], rest[j])])
  }

  lemma SamePop(heap: seq<BagList>, pq: seq<BagList>, i: nat)
    requires forall j :: 0 <= j < |heap| ==> heap[j] != []
    requires multiset(heap) == multiset(pq) && MayPop(heap, i)
    requires Distinct(pq) && forall j :: 0 <= j < |pq| ==> pq[j] != []
    ensures pq != [] && heap[i] == pq[LeastIndex(pq, |pq|)]
    ensures multiset(RemoveAt(heap, i)) == multiset(RemoveAt(pq, LeastIndex(pq, |pq|)))
  {
    hide Distinct;
    hide LeastIndex;
    hide StateBefore;
    assert heap[i] in multiset(pq);
    var at :| 0 <= at < |pq| && pq[at] == heap[i];
    forall j | 0 <= j < |pq| ensures !StateBefore(pq[j], pq[at]) {
      assert pq[j] in multiset(heap);
    }
    PopIsForced(pq, at);
    RemoveAtMultiset(heap, i);
    RemoveAtMultiset(pq, at);
  }

  lemma SameTurn(heap: seq<BagList>, next: seq<BagList>, i: nat, j: nat, pq: seq<BagList>, k: nat)
    requires 2 <= |pq| && 1 <= k && Sized(pq, k) && Sized(heap, k)
    requires multiset(heap) == multiset(pq) && Turn(heap, next, i, j, k)
    requires Distinct(pq)
    ensures multiset(next) == multiset(Step(pq, k))
  {
    hide Distinct;
    hide LeastIndex;
    hide StateBefore;
    hide Merge;
    var at := LeastIndex(pq, |pq|);
    SamePop(heap, pq, i);
    RemovalKeepsDistinct(pq, at);
    SamePop(RemoveAt(heap, i), RemoveAt(pq, at), j);
  }

  ghost predicate Follows(heap: seq<BagList>, next: seq<BagList>, k: nat)
    requires 1 <= k && Sized(heap, k)
  {
    exists i: nat, j: nat :: Turn(heap, next, i, j, k)
  }

  /** The heaps of a run, one per turn. Each turn takes two states it may take and puts their merge back. */
  ghost predicate Run(heaps: seq<seq<BagList>>, k: nat)
    requires 1 <= k
  {
    && (forall t :: 0 <= t < |heaps| ==> Sized(heaps[t], k))
    && (forall s, t :: 0 <= s && s + 1 == t < |heaps| ==> Follows(heaps[s], heaps[t], k))
  }

  lemma {:induction false} RunHolds(lens: seq<nat>, k: nat, equal: bool, heaps: seq<seq<BagList>>, t: nat)
    requires 1 <= k && 1 <= |lens| && (equal ==> |lens| % k == 0)
    requires Run(heaps, k) && t < |heaps| <= |InitialHeap(lens, k, equal)|
    requires multiset(heaps[0]) == multiset(InitialHeap(lens, k, equal))
    ensures multiset(heaps[t]) == multiset(HeapAfter(InitialHeap(lens, k, equal), k, t))
  {
    hide Step;
    hide Turn;
    hide InitialHeap;
    hide Distinct;
    if t == 0 {
    } else {
      RunHolds(lens, k, equal, heaps, t - 1);
      var i: nat, j: nat :| Turn(heaps[t - 1], heaps[t], i, j, k);
      var pq := HeapAfter(InitialHeap(lens, k, equal), k, t - 1);
      RunStaysDistinct(lens, k, equal, t - 1);
      SameTurn(heaps[t - 1], heaps[t], i, j, pq, k);
    }
  }

  lemma {:induction false} ReduceAfter(pq: seq<BagList>, k: nat, steps: nat)
    requires 1 <= k && Sized(pq, k) && steps < |pq|
    ensures Reduce(HeapAfter(pq, k, steps), k) == Reduce(pq, k)
    decreases steps
  {
    hide Step;
    if steps == 0 {
    } else {
      ReduceAfter(pq, k, steps - 1);
    }
  }

  /**
    Main result on the queue. Start from the initial states in any order, let every turn take any two states the
    order allows: after the last turn one state is left, and its partitions are the ones the partitioner returns.
  */
  lemma AnyQueueAgrees(lens: seq<nat>, k: nat, equal: bool, heaps: seq<seq<BagList>>)
    requires 1 <= k && 1 <= |lens| && (equal ==> |lens| % k == 0)
    requires Run(heaps, k) && |heaps| == |InitialHeap(lens, k, equal)|
    requires multiset(heaps[0]) == multiset(InitialHeap(lens, k, equal))
    ensures var final := heaps[|heaps| - 1];
            |final| == 1 && PartitionsOf(final[0]) == Partition(lens, k, equal)
  {
    hide Step;
    hide Turn;
    hide InitialHeap;
    var start := InitialHeap(lens, k, equal);
    var last := |heaps| - 1;
    RunHolds(lens, k, equal, heaps, last);
    ReduceAfter(start, k, last);
    var pq := HeapAfter(start, k, last);
    OnlyOne(heaps[last], pq);
  }

  lemma OnlyOne<T>(a: seq<T>, b: seq<T>)
    requires multiset(a) == multiset(b) && |b| == 1
    ensures a == b
  {
    assert |a| == |multiset(a)| == |multiset(b)|;
    assert a[0] in multiset(b);
  }

  /** The model's own run, which pops by `LeastIndex`, is one of them. */
  lemma ModelRuns(lens: seq<nat>, k: nat, equal: bool, heaps: seq<seq<BagList>>)
    requires 1 <= k && 1 <= |lens| && (equal ==> |lens| % k == 0)
    requires |heaps| == |InitialHeap(lens, k, equal)|
    requires forall t :: 0 <= t < |heaps| ==> heaps[t] == HeapAfter(InitialHeap(lens, k, equal), k, t)
    ensures Run(heaps, k)
  {
    hide Step;
    hide Turn;
    hide InitialHeap;
    hide HeapAfter;
    forall t | 0 <= t < |heaps| ensures Sized(heaps[t], k) {
      assert heaps[t] == HeapAfter(InitialHeap(lens, k, equal), k, t);
    }
    forall s, t | 0 <= s && s + 1 == t < |heaps|
      ensures Follows(heaps[s], heaps[t], k)
    {
      AfterStep(InitialHeap(lens, k, equal), k, t);
      StepIsTurn(heaps[s], k);
    }
  }

  lemma AfterStep(pq: seq<BagList>, k: nat, t: nat)
    requires 1 <= k && Sized(pq, k) && 0 < t < |pq|
    ensures HeapAfter(pq, k, t) == Step(HeapAfter(pq, k, t - 1), k)
  {
  }

  lemma StepIsTurn(pq: seq<BagList>, k: nat)
    requires 2 <= |pq| && 1 <= k && Sized(pq, k) && forall i :: 0 <= i < |pq| ==> pq[i] != []
    ensures Follows(pq, Step(pq, k), k)
  {
    hide LeastIndex;
    hide StateBefore;
    hide Merge;
    var i := LeastIndex(pq, |pq|);
    var rest := RemoveAt(pq, i);
    var j := LeastIndex(rest, |rest|);
    LeastIndexIsLeast(pq, |pq|);
    LeastIndexIsLeast(rest, |rest|);
    assert Turn(pq, Step(pq, k), i, j, k);
  }
}
