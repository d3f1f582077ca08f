/**
  The differencing method as the program runs it: mutable sets and states, merged in place,
  and a heap list that is popped and pushed. Every method is tied to the functions on values.
*/
module KarmarkarKarpHeap {
  import opened Arithmetic
  import opened Sequences
  import opened Sorting
  import opened Bags
  import opened KarmarkarKarp
  import opened BalancedPartitions

  class Set {
    var sum: int
    var items: seq<Item>

    ghost predicate Valid()
      reads this
    {
      sum == Load(items)
    }

    constructor ()
      ensures Valid() && items == []
    {
      sum, items := 0, [];
    }

    method Add(idx: nat, val: nat)
      requires Valid()
      modifies this
      ensures Valid() && items == old(items) + [Item(idx, val)]
    {
      LoadAppend(items, [Item(idx, val)]);
      LoadOne(Item(idx, val));
      items := items + [Item(idx, val)];
      sum := sum + val;
    }

    method Merge(other: Set)
      requires Valid() && other.Valid() && other != this
      modifies this
      ensures Valid() && items == old(items) + other.items
    {
      var n := 0;
      assert other.items[..0] == [];
      while n < |other.items|
        invariant 0 <= n <= |other.items|
        invariant Valid() && items == old(items) + other.items[..n]
      {
        var it := other.items[n];
        assert other.items[..n + 1] == other.items[..n] + [it];
        Add(it.idx, it.len);
        n := n + 1;
      }
      assert other.items[..n] == other.items;
    }

    /** `__lt__`, computed from the stored sums. */
    predicate Before(other: Set)
      requires Valid() && other.Valid()
      reads this, other
      ensures Before(other) == BagBefore(items, other.items)
    {
      if sum != other.sum then sum < other.sum
      else if |items| != |other.items| then |items| < |other.items|
      else ListBefore(items, other.items)
    }
  }

  /** The sets hold these bags, in this order. */
  ghost predicate Holds(s: seq<Set>, v: BagList)
    reads s
  {
    |s| == |v| && forall i :: 0 <= i < |s| ==> s[i].Valid() && s[i].items == v[i]
  }

  ghost predicate NoRepeats(s: seq<Set>) {
    forall i, j :: 0 <= i < j < |s| ==> s[i] != s[j]
  }

  /** Where a sort leaves a bag that goes before the first bag it does not follow. */
  ghost function Place(x: Bag, v: BagList): (at: nat)
    ensures at <= |v|
  {
    if v == [] || !BagAfter(v[0], x) then 0 else 1 + Place(x, v[1..])
  }

  lemma {:induction false} InsertAtPlace(x: Bag, v: BagList)
    ensures Insert(BagAfter, x, v) == v[..Place(x, v)] + [x] + v[Place(x, v)..]
  {
    if v != [] && BagAfter(v[0], x) {
      InsertAtPlace(x, v[1..]);
    }
  }

  lemma {:induction false} PlaceIs(x: Bag, v: BagList, at: nat)
    requires at <= |v|
    requires forall i :: 0 <= i < at ==> BagAfter(v[i], x)
    requires at < |v| ==> !BagAfter(v[at], x)
    ensures at == Place(x, v)
  {
    if at == 0 {
    } else {
      PlaceIs(x, v[1..], at - 1);
    }
  }

  method FindPlace(x: Set, r: seq<Set>, ghost u: BagList) returns (at: nat)
    requires x.Valid() && Holds(r, u)
    ensures at == Place(x.items, u)
  {
    at := 0;
    while at < |r| && x.Before(r[at])
      invariant at <= |r|
      invariant forall i :: 0 <= i < at ==> BagAfter(u[i], x.items)
    {
      at := at + 1;
    }
    PlaceIs(x.items, u, at);
  }

  lemma HoldsInsert(x: Set, r: seq<Set>, u: BagList, at: nat)
    requires x.Valid() && Holds(r, u) && at == Place(x.items, u)
    ensures Holds(r[..at] + [x] + r[at..], Insert(BagAfter, x.items, u))
  {
    InsertAtPlace(x.items, u);
  }

  /** `sorted(sets, reverse=True)`: the objects move, what they hold does not change. */
  method SortSets(s: seq<Set>, ghost v: BagList) returns (r: seq<Set>)
    requires Holds(s, v)
    ensures Holds(r, SortDown(v))
    ensures multiset(r) == multiset(s)
  {
    r := [];
    var n := |s|;
    while n > 0
      invariant 0 <= n <= |s|
      invariant Holds(r, Sort(BagAfter, v[n..])) && multiset(r) == multiset(s[n..])
    {
      n := n - 1;
      ghost var u := Sort(BagAfter, v[n + 1..]);
      var at := FindPlace(s[n], r, u);
      HoldsInsert(s[n], r, u, at);
      SortFront(v, n);
      AddedMultiset(s, n, r, at);
      r := r[..at] + [s[n]] + r[at..];
    }
    assert v[0..] == v && s[0..] == s;
  }

  lemma SortFront(v: BagList, n: nat)
    requires n < |v|
    ensures Sort(BagAfter, v[n..]) == Insert(BagAfter, v[n], Sort(BagAfter, v[n + 1..]))
  {
    assert v[n..][1..] == v[n + 1..];
  }

  lemma AddedMultiset<T>(s: seq<T>, n: nat, r: seq<T>, at: nat)
    requires n < |s| && at <= |r| && multiset(r) == multiset(s[n + 1..])
    ensures multiset(r[..at] + [s[n]] + r[at..]) == multiset(s[n..])
  {
    assert s[n..] == [s[n]] + s[n + 1..];
    assert r == r[..at] + r[at..];
  }

  /** `[Set() for _ in range(k)]` with the given items added to the first ones. */
  method NewSets(items: seq<Item>, k: nat) returns (made: seq<Set>)
    ensures fresh(made) && NoRepeats(made) && Holds(made, StartBags(items, k))
  {
    made := [];
    var i := 0;
    while i < k
      invariant 0 <= i <= k
      invariant fresh(made) && NoRepeats(made) && Holds(made, StartBags(items, k)[..i])
    {
      var one := new Set();
      if i < |items| {
        one.Add(items[i].idx, items[i].len);
      }
      made := made + [one];
      i := i + 1;
    }
    assert StartBags(items, k)[..k] == StartBags(items, k);
  }

  /** The pairing loop of a merge. */
  method MergeSets(a: seq<Set>, b: seq<Set>, ghost va: BagList, ghost vb: BagList)
    requires |a| == |b| && Holds(a, va) && Holds(b, vb) && NoRepeats(a)
    requires forall s :: s in a ==> s !in b
    modifies a
    ensures Holds(a, Paired(va, vb))
  {
    var k, i := |a|, 0;
    while i < k
      invariant 0 <= i <= k && Holds(b, vb)
      invariant forall j :: 0 <= j < k ==> a[j].Valid()
      invariant forall j :: 0 <= j < i ==> a[j].items == va[j] + vb[k - 1 - j]
      invariant forall j :: i <= j < k ==> a[j].items == va[j]
    {
      assert b[k - 1 - i] in b && a[i] in a;
      a[i].Merge(b[k - 1 - i]);
      i := i + 1;
    }
  }

  class State {
    const k: nat
    var sets: seq<Set>
    ghost var value: BagList  // what the sets hold, heaviest first

    ghost predicate Valid()
      reads this, sets
    {
      1 <= k && |sets| == k && Holds(sets, value) && NoRepeats(sets)
    }

    constructor (items: seq<Item>, k: nat)
      requires |items| == 1 || |items| == k
      requires 1 <= k
      ensures Valid() && this.k == k && fresh(sets)
      ensures value == StartState(items, k)
    {
      this.k := k;
      var made := NewSets(items, k);
      var ordered := SortSets(made, StartBags(items, k));
      DistinctRearranged(made, ordered);
      sets := ordered;
      value := StartState(items, k);
      new;
      assert forall i :: 0 <= i < |sets| ==> sets[i] in made;
    }

    /** The sets of this state absorb the sets of the other, heaviest with lightest, and are sorted again. */
    method Merge(other: State)
      requires Valid() && other.Valid() && k == other.k
      requires this != other && forall s :: s in sets ==> s !in other.sets
      modifies this`sets, this`value, sets
      ensures Valid() && value == KarmarkarKarp.Merge(old(value), other.value)
      ensures forall s :: s in sets <==> s in old(sets)
    {
      MergeSets(sets, other.sets, value, other.value);
      var ordered := SortSets(sets, Paired(value, other.value));
      DistinctRearranged(sets, ordered);
      value := KarmarkarKarp.Merge(value, other.value);
      sets := ordered;
    }

    method GetPartitions() returns (parts: seq<seq<nat>>)
      requires Valid()
      ensures parts == PartitionsOf(value)
    {
      parts := [];
      var i := 0;
      while i < |sets|
        invariant 0 <= i <= |sets| && |parts| == i
        invariant forall m :: 0 <= m < i ==> parts[m] == IndicesOf(value[m])
      {
        var part: seq<nat>, j := [], 0;
        while j < |sets[i].items|
          invariant 0 <= j <= |sets[i].items| && part == IndicesOf(sets[i].items)[..j]
        {
          part := part + [sets[i].items[j].idx];
          j := j + 1;
        }
        assert part == IndicesOf(value[i]);
        parts := parts + [part];
        i := i + 1;
      }
    }

    function Spread(): int
      requires Valid()
      reads this, sets
      ensures Spread() == KarmarkarKarp.Spread(value)
    {
      sets[0].sum - sets[|sets| - 1].sum
    }

    /** `__lt__`. */
    predicate Before(other: State)
      requires Valid() && other.Valid()
      reads this, sets, other, other.sets
      ensures Before(other) == StateBefore(value, other.value)
    {
      if Spread() != other.Spread() then Spread() > other.Spread() else other.sets[0].Before(sets[0])
    }
  }

  // ---------- the heap ----------

  /** The sets that belong to the states of a heap. */
  ghost function Owned(pq: seq<State>): (r: set<Set>)
    reads pq
    ensures forall i, s :: 0 <= i < |pq| && s in pq[i].sets ==> s in r
    ensures forall s :: s in r ==> exists i :: 0 <= i < |pq| && s in pq[i].sets
  {
    if pq == [] then {} else
      var r := (set s | s in pq[0].sets) + Owned(pq[1..]);
      assert forall i, s :: 1 <= i < |pq| && s in pq[i].sets ==> s in Owned(pq[1..]) by {
        assert forall i :: 1 <= i < |pq| ==> pq[i] == pq[1..][i - 1];
      }
      r
  }

  /** The states of the heap, which share no object, and the values they stand for. */
  ghost predicate Represents(pq: seq<State>, view: seq<BagList>, k: nat)
    reads pq, Owned(pq)
  {
    && 1 <= k && |pq| == |view|
    && (forall i :: 0 <= i < |pq| ==> pq[i].Valid() && pq[i].k == k && pq[i].value == view[i])
    && (forall i, j :: 0 <= i < j < |pq| ==> pq[i] != pq[j])
    && (forall i, j, s :: 0 <= i < j < |pq| && s in pq[i].sets ==> s !in pq[j].sets)
  }

  /** The states of a heap and their sets all belong to objs. */
  ghost predicate Within(pq: seq<State>, objs: set<object>)
    reads pq
  {
    && (forall i :: 0 <= i < |pq| ==> pq[i] in objs)
    && (forall i, x :: 0 <= i < |pq| && x in pq[i].sets ==> x in objs)
  }

  lemma RepresentsRemoveAt(pq: seq<State>, view: seq<BagList>, k: nat, i: nat)
    requires Represents(pq, view, k) && i < |pq|
    ensures Represents(RemoveAt(pq, i), RemoveAt(view, i), k)
    ensures forall j :: 0 <= j < |pq| - 1 ==> RemoveAt(pq, i)[j] != pq[i]
    ensures forall j, s :: 0 <= j < |pq| - 1 && s in pq[i].sets ==> s !in RemoveAt(pq, i)[j].sets
  {
  }

  method FindLeast(pq: seq<State>, ghost view: seq<BagList>, ghost k: nat) returns (best: nat)
    requires Represents(pq, view, k) && pq != []
    requires forall i :: 0 <= i < |view| ==> view[i] != []
    ensures best == LeastIndex(view, |view|)
  {
    hide StateBefore;
    best := 0;
    var m := 1;
    while m < |pq|
      invariant 1 <= m <= |pq| && best < m
      invariant best == LeastIndex(view, m)
    {
      if pq[m].Before(pq[best]) {
        best := m;
      }
      m := m + 1;
    }
  }

  /** `heappop`: the state that comes first in the order, and the others. */
  method PopLeast(pq: seq<State>, ghost view: seq<BagList>, ghost k: nat, ghost objs: set<object>)
      returns (s: State, rest: seq<State>, ghost at: nat)
    requires Represents(pq, view, k) && pq != [] && Sized(view, k) && Within(pq, objs)
    ensures |view| == |pq| && at == LeastIndex(view, |view|) && at < |pq|
    ensures s == pq[at] && rest == RemoveAt(pq, at)
    ensures Represents(rest, RemoveAt(view, at), k)
    ensures forall j :: 0 <= j < |rest| ==> rest[j] != s
    ensures Within([s], objs) && Within(rest, objs)
    ensures forall j, x :: 0 <= j < |rest| && x in s.sets ==> x !in rest[j].sets
  {
    var best := FindLeast(pq, view, k);
    at := best;
    RepresentsRemoveAt(pq, view, k, best);
    s, rest := pq[best], RemoveAt(pq, best);
  }

  /** `heappush` of a state that shares nothing with the heap. */
  lemma RepresentsPush(pq: seq<State>, view: seq<BagList>, k: nat, s: State)
    requires Represents(pq, view, k) && s.Valid() && s.k == k
    requires forall i :: 0 <= i < |pq| ==> pq[i] != s
    requires forall i, x :: 0 <= i < |pq| && x in pq[i].sets ==> x !in s.sets
    ensures Represents(pq + [s], view + [s.value], k)
  {
  }

  method PushNew(pq: seq<State>, ghost view: seq<BagList>, items: seq<Item>, k: nat, ghost objs: set<object>)
      returns (r: seq<State>, ghost more: set<object>)
    requires Represents(pq, view, k) && (|items| == 1 || |items| == k) && Within(pq, objs)
    ensures Represents(r, view + [StartState(items, k)], k)
    ensures Within(r, objs + more) && fresh(more)
  {
    var s := new State(items, k);
    RepresentsPush(pq, view, k, s);
    r := pq + [s];
    more := {s} + (set i | 0 <= i < k :: s.sets[i]);
  }

  lemma EmptyHeap(k: nat)
    requires 1 <= k
    ensures Represents([], [], k) && Within([], {})
  {
  }

  lemma NoBlock(order: seq<Item>, size: nat, k: nat)
    requires order == [] && 1 <= size
    ensures Blocks(order, size, k) == []
  {
  }

  lemma NextBlock(order: seq<Item>, at: nat, size: nat, k: nat, view: seq<BagList>)
    requires at < |order| && 1 <= size <= k && Whole(|order| - at, size)
    ensures at + size <= |order| && Whole(|order| - (at + size), size)
    ensures view + Blocks(order[at..], size, k)
         == (view + [StartState(order[at..at + size], k)]) + Blocks(order[at + size..], size, k)
  {
    MultipleAtLeast(|order| - at, size);
    ModStep(|order| - at, size);
    assert order[at..][..size] == order[at..at + size] && order[at..][size..] == order[at + size..];
  }

  /** Pushing the states made from the sorted lengths, block by block. */
  method Fill(order: seq<Item>, size: nat, k: nat) returns (pq: seq<State>, ghost objs: set<object>)
    requires 1 <= k && (size == 1 || size == k) && Whole(|order|, size)
    ensures fresh(objs) && Within(pq, objs)
    ensures Represents(pq, Blocks(order, size, k), k)
  {
    hide Represents;
    hide Within;
    hide StartState;
    hide Blocks;
    hide Whole;
    pq, objs := [], {};
    ghost var view: seq<BagList> := [];
    var at := 0;
    assert order[0..] == order;
    EmptyHeap(k);
    ghost var all := Blocks(order, size, k);
    while at < |order|
      invariant 0 <= at <= |order| && Whole(|order| - at, size)
      invariant fresh(objs) && Within(pq, objs) && Represents(pq, view, k)
      invariant all == view + Blocks(order[at..], size, k)
    {
      NextBlock(order, at, size, k, view);
      ghost var more;
      pq, more := PushNew(pq, view, order[at..at + size], k, objs);
      objs := objs + more;
      view := view + [StartState(order[at..at + size], k)];
      at := at + size;
    }
    NoBlock(order[at..], size, k);
    assert view == all;
  }

  /** The end of a turn: the first state absorbs the second and goes back onto the heap. */
  method MergePush(state0: State, state1: State, rest: seq<State>, ghost view: seq<BagList>, ghost k: nat,
        ghost objs: set<object>)
      returns (r: seq<State>)
    requires state0.Valid() && state1.Valid() && state0.k == state1.k == k && Represents(rest, view, k)
    requires state0 != state1 && forall x :: x in state0.sets ==> x !in state1.sets
    requires forall i :: 0 <= i < |rest| ==> rest[i] != state0
    requires forall i, x :: 0 <= i < |rest| && x in state0.sets ==> x !in rest[i].sets
    requires Within([state0], objs) && Within(rest, objs)
    modifies state0, state0.sets
    ensures Represents(r, view + [KarmarkarKarp.Merge(old(state0.value), old(state1.value))], k)
    ensures Within(r, objs)
  {
    hide KarmarkarKarp.Merge;
    state0.Merge(state1);
    forall i | 0 <= i < |rest| ensures rest[i].Valid() {
      assert forall j :: 0 <= j < |rest[i].sets| ==> rest[i].sets[j] !in old(state0.sets);
    }
    assert [state0][0] == state0;
    RepresentsPush(rest, view, k, state0);
    r := rest + [state0];
  }

  /** One turn of the main loop: pop, pop, merge, push. */
  method Turn(pq: seq<State>, ghost view: seq<BagList>, ghost k: nat, ghost objs: set<object>) returns (r: seq<State>)
    requires 2 <= |pq| && Represents(pq, view, k) && Sized(view, k) && Within(pq, objs)
    modifies objs
    ensures Represents(r, Step(view, k), k) && Within(r, objs)
  {
    hide KarmarkarKarp.Merge;
    hide LeastIndex;
    var state0, rest0, at0 := PopLeast(pq, view, k, objs);
    ghost var view0 := RemoveAt(view, at0);
    var state1, rest1, at1 := PopLeast(rest0, view0, k, objs);
    ghost var view1 := RemoveAt(view0, at1);
    r := MergePush(state0, state1, rest1, view1, k, objs);
  }

  /** `karmarkar_karp` computes the partition function. */
  method Run(lens: seq<nat>, k: nat, equal: bool) returns (parts: seq<seq<nat>>)
    requires 1 <= k && 1 <= |lens| && (equal ==> |lens| % k == 0)
    ensures parts == Partition(lens, k, equal)
  {
    var pq, objs := Fill(Ascending(lens), BlockSize(k, equal), k);
    ghost var view := InitialHeap(lens, k, equal);
    while |pq| > 1
      invariant 1 <= |pq| && Sized(view, k)
      invariant fresh(objs) && Within(pq, objs) && Represents(pq, view, k)
      invariant Reduce(view, k) == FinalState(lens, k, equal)
      decreases |pq|
    {
      pq := Turn(pq, view, k, objs);
      view := Step(view, k);
    }
    parts := pq[0].GetPartitions();
  }

  ghost predicate SeenIn(seen: set<nat>, parts: seq<seq<nat>>) {
    forall v :: v in seen <==> v in Flatten(parts)
  }

  lemma SeenMore(seen: set<nat>, parts: seq<seq<nat>>, i: nat)
    requires i < |parts| && SeenIn(seen, parts[..i])
    ensures SeenIn(seen + (set x | x in parts[i]), parts[..i + 1])
  {
    assert parts[..i + 1] == parts[..i] + [parts[i]];
    FlattenAppend(parts[..i], [parts[i]]);
    FlattenSingleton(parts[i]);
  }

  function AllIndices(n: nat): set<nat> {
    set v | v in Range(n)
  }

  lemma SeenAll(seen: set<nat>, parts: seq<seq<nat>>, n: nat)
    requires SeenIn(seen, parts)
    ensures seen == AllIndices(n) <==> forall v: nat :: v in Flatten(parts) <==> v < n
  {
    var all := AllIndices(n);
    forall v: nat ensures v in all <==> v < n {
      if v < n { assert Range(n)[v] == v; }
    }
    if seen != all {
      var v: nat :| (v in seen) != (v in all);
      assert v in Flatten(parts) <==> v in seen;
    }
  }

  /** The loop of assertions of the wrapper, which also sorts each partition. */
  method CheckAndSort(parts: seq<seq<nat>>, n: nat, k: nat) returns (ok: bool, sorted: seq<seq<nat>>)
    ensures ok <==> Passes(parts, n, k)
    ensures ok ==> sorted == SortEach(parts)
  {
    hide SortUp;
    sorted := [];
    if |parts| != k {
      return false, sorted;
    }
    var seen: set<nat> := {};
    var i := 0;
    while i < |parts|
      invariant 0 <= i <= |parts| && |sorted| == i
      invariant forall j :: 0 <= j < i ==> parts[j] != []
      invariant forall j :: 0 <= j < i ==> sorted[j] == SortUp(parts[j])
      invariant SeenIn(seen, parts[..i])
    {
      if parts[i] == [] {
        return false, sorted;
      }
      SeenMore(seen, parts, i);
      seen := seen + (set x | x in parts[i]);
      sorted := sorted + [SortUp(parts[i])];
      i := i + 1;
    }
    assert parts[..i] == parts;
    SeenAll(seen, parts, n);
    ok := seen == AllIndices(n);
    assert ok <==> (forall v: nat :: v in Flatten(parts) <==> v < n);
  }

  /** `get_seqlen_balanced_partitions`. */
  method GetBalancedPartitions(lens: seq<nat>, k: int, equal: bool) returns (r: Result<seq<seq<nat>>>)
    ensures r == Balanced(lens, k, equal)
  {
    if |lens| < k || k < 1 || (equal && |lens| % k != 0) {
      return Failure;
    }
    var parts := Run(lens, k, equal);
    var ok, sorted := CheckAndSort(parts, |lens|, k);
    BalancedSucceeds(lens, k, equal);
    r := if ok then Success(sorted) else Failure;
  }
}
