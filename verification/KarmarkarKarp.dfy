/**
  The k-way largest differencing method as a function on values, and what it guarantees.
  A state is a list of k bags, heaviest first; the run repeatedly takes the two states that come
  first in the heap order and pairs the heaviest bags of one with the lightest of the other.
*/
module KarmarkarKarp {
  import opened Arithmetic
  import opened Sequences
  import opened Sorting
  import opened Bags

  // ---------- the algorithm ----------

  /** `State.__init__`: one item, or k items one per set. */
  function StartBags(items: seq<Item>, k: nat): (r: BagList)
    ensures |r| == k
  {
    seq(k, i requires 0 <= i < k => if i < |items| then [items[i]] else [])
  }

  function StartState(items: seq<Item>, k: nat): (r: BagList)
    ensures |r| == k
  {
    SortDown(StartBags(items, k))
  }

  /** The i-th set of `a` receives the items of the i-th set of `b` counted from the light end. */
  function Paired(a: BagList, b: BagList): (r: BagList)
    requires |a| == |b|
    ensures |r| == |a|
  {
    seq(|a|, i requires 0 <= i < |a| => a[i] + b[|a| - 1 - i])
  }

  /** `State.merge`. */
  function Merge(a: BagList, b: BagList): (r: BagList)
    requires |a| == |b|
    ensures |r| == |a|
  {
    SortDown(Paired(a, b))
  }

  /** `State.spread`. */
  function Spread(s: BagList): int
    requires s != []
  {
    Load(s[0]) - Load(s[|s| - 1])
  }

  /** `State.__lt__`: the widest spread first, then the heavier first set. */
  predicate StateBefore(a: BagList, b: BagList)
    requires a != [] && b != []
  {
    if Spread(a) != Spread(b) then Spread(a) > Spread(b) else BagBefore(b[0], a[0])
  }

  ghost predicate Sized(pq: seq<BagList>, k: nat) {
    forall i :: 0 <= i < |pq| ==> |pq[i]| == k
  }

  /** The position a heap pops from among the first m states. */
  function LeastIndex(pq: seq<BagList>, m: nat): (r: nat)
    requires 1 <= m <= |pq|
    requires forall i :: 0 <= i < |pq| ==> pq[i] != []
    ensures r < m
  {
    if m == 1 then 0
    else
      var best := LeastIndex(pq, m - 1);
      if StateBefore(pq[m - 1], pq[best]) then m - 1 else best
  }

  /** One turn of the main loop: pop, pop, merge, push. */
  function Step(pq: seq<BagList>, k: nat): (r: seq<BagList>)
    requires 2 <= |pq| && 1 <= k && Sized(pq, k)
    ensures |r| == |pq| - 1 && Sized(r, k)
  {
    var i := LeastIndex(pq, |pq|);
    var rest := RemoveAt(pq, i);
    var j := LeastIndex(rest, |rest|);
    RemoveAt(rest, j) + [Merge(pq[i], rest[j])]
  }

  function Reduce(pq: seq<BagList>, k: nat): (r: BagList)
    requires 1 <= |pq| && 1 <= k && Sized(pq, k)
    ensures |r| == k
    decreases |pq|
  {
    if |pq| == 1 then pq[0] else Reduce(Step(pq, k), k)
  }

  /** The (length, index) order of the input list. */
  predicate Shorter(a: Item, b: Item) {
    a.len < b.len || (a.len == b.len && a.idx < b.idx)
  }

  predicate NoLonger(a: Item, b: Item) {
    a.len <= b.len
  }

  function Items(lens: seq<nat>): (r: seq<Item>)
    ensures |r| == |lens|
  {
    seq(|lens|, i requires 0 <= i < |lens| => Item(i, lens[i]))
  }

  function Ascending(lens: seq<nat>): (r: seq<Item>)
    ensures |r| == |lens| && multiset(r) == multiset(Items(lens))
  {
    SortLength(Shorter, Items(lens));
    Sort(Shorter, Items(lens))
  }

  /** One state per block of `size` consecutive items. */
  function Blocks(order: seq<Item>, size: nat, k: nat): (r: seq<BagList>)
    requires 1 <= size
    ensures Sized(r, k) && (|order| >= size ==> r != [])
  {
    if |order| < size then []
    else [StartState(order[..size], k)] + Blocks(order[size..], size, k)
  }

  function BlockSize(k: nat, equal: bool): nat {
    if equal then k else 1
  }

  function InitialHeap(lens: seq<nat>, k: nat, equal: bool): (r: seq<BagList>)
    requires 1 <= k && (equal ==> |lens| % k == 0)
    ensures Sized(r, k) && (lens != [] ==> r != [])
  {
    assert lens != [] ==> BlockSize(k, equal) <= |lens| by {
      if lens != [] && equal { MultipleAtLeast(|lens|, k); }
    }
    Blocks(Ascending(lens), BlockSize(k, equal), k)
  }

  function FinalState(lens: seq<nat>, k: nat, equal: bool): (r: BagList)
    requires 1 <= k && 1 <= |lens| && (equal ==> |lens| % k == 0)
    ensures |r| == k
  {
    Reduce(InitialHeap(lens, k, equal), k)
  }

  function IndicesOf(b: Bag): (r: seq<nat>)
    ensures |r| == |b|
    ensures forall i :: 0 <= i < |b| ==> r[i] == b[i].idx
  {
    Map((it: Item) => it.idx, b)
  }

  /** `State.get_partitions`. */
  function PartitionsOf(s: BagList): (r: seq<seq<nat>>)
    ensures |r| == |s|
    ensures forall i :: 0 <= i < |s| ==> r[i] == IndicesOf(s[i])
  {
    Map((b: Bag) => IndicesOf(b), s)
  }

  predicate NotLonger(a: Item, b: Item) {
    a.len < b.len || (a.len == b.len && a.idx <= b.idx)
  }

  /** The items start in ascending order of length, and of index where the length is the same. */
  lemma AscendingSorted(lens: seq<nat>)
    ensures forall i, j :: 0 <= i < j < |lens| ==>
              Ascending(lens)[i].len < Ascending(lens)[j].len ||
              (Ascending(lens)[i].len == Ascending(lens)[j].len && Ascending(lens)[i].idx <= Ascending(lens)[j].idx)
  {
    hide Sort;
    SortOrdered(Shorter, NotLonger, Items(lens));
    SortLength(Shorter, Items(lens));
    forall i, j | 0 <= i < j < |lens| ensures NotLonger(Ascending(lens)[i], Ascending(lens)[j]) {
    }
  }

  /** `karmarkar_karp`. */
  function Partition(lens: seq<nat>, k: nat, equal: bool): (r: seq<seq<nat>>)
    requires 1 <= k && 1 <= |lens| && (equal ==> |lens| % k == 0)
    ensures |r| == k
  {
    PartitionsOf(FinalState(lens, k, equal))
  }

  // ---------- popping is forced: the heap order has no ties between states that share no item ----------

  ghost predicate Distinct(pq: seq<BagList>) {
    forall i, j :: 0 <= i < j < |pq| && pq[i] != [] && pq[j] != [] ==> pq[i][0] != pq[j][0]
  }

  lemma StateOrderTransitive(a: BagList, b: BagList, c: BagList)
    requires a != [] && b != [] && c != []
    requires !StateBefore(b, a) && !StateBefore(c, b)
    ensures !StateBefore(c, a)
  {
    if Spread(a) == Spread(b) == Spread(c) && BagBefore(a[0], c[0]) {
      BagOrderTotal(a[0], b[0]);
      BagOrderTotal(b[0], c[0]);
      if a[0] != b[0] {
        BagOrderTransitive(b[0], a[0], c[0]);
      }
    }
  }

  lemma {:induction false} LeastIndexIsLeast(pq: seq<BagList>, m: nat)
    requires 1 <= m <= |pq|
    requires forall i :: 0 <= i < |pq| ==> pq[i] != []
    ensures forall i :: 0 <= i < m ==> !StateBefore(pq[i], pq[LeastIndex(pq, m)])
  {
    if m == 1 {
      BagOrderTotal(pq[0][0], pq[0][0]);
    } else {
      LeastIndexIsLeast(pq, m - 1);
      var best := LeastIndex(pq, m - 1);
      var last := pq[m - 1];
      BagOrderTotal(last[0], last[0]);
      BagOrderTotal(last[0], pq[best][0]);
      forall i | 0 <= i < m ensures !StateBefore(pq[i], pq[LeastIndex(pq, m)]) {
        if StateBefore(last, pq[best]) && i < m - 1 {
          StateOrderTransitive(last, pq[best], pq[i]);
        }
      }
    }
  }

  /** Whatever the layout of the heap, only one state can be popped. */
  lemma PopIsForced(pq: seq<BagList>, i: nat)
    requires i < |pq| && Distinct(pq)
    requires forall j :: 0 <= j < |pq| ==> pq[j] != []
    requires forall j :: 0 <= j < |pq| ==> !StateBefore(pq[j], pq[i])
    ensures i == LeastIndex(pq, |pq|)
  {
    var least := LeastIndex(pq, |pq|);
    LeastIndexIsLeast(pq, |pq|);
    if i != least {
      BagOrderTotal(pq[i][0], pq[least][0]);
    }
  }
}
