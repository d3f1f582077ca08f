/**
  The values behind the two mutable classes of the partitioner: a bag of (index, length) items,
  which is what a `Set` holds, and a list of k bags, which is what a `State` holds.
*/
module Bags {
  import opened Sequences
  import opened Sorting

  datatype Item = Item(idx: nat, len: nat)

  type Bag = seq<Item>

  type BagList = seq<Bag>

  function Lens(b: Bag): (r: seq<int>)
    ensures |r| == |b|
  {
    seq(|b|, i requires 0 <= i < |b| => b[i].len)
  }

  /** `Set.sum`. */
  function Load(b: Bag): (r: nat)
    ensures b == [] ==> r == 0
  {
    SumLowerBound(Lens(b), 0);
    Sum(Lens(b))
  }

  lemma LoadAppend(a: Bag, b: Bag)
    ensures Load(a + b) == Load(a) + Load(b)
  {
    assert Lens(a + b) == Lens(a) + Lens(b);
    SumAppend(Lens(a), Lens(b));
  }

  lemma LoadOne(it: Item)
    ensures Load([it]) == it.len
  {
    assert Lens([it]) == [it.len];
    assert Sum([it.len]) == it.len + Sum([it.len][1..]);
  }

  /** Tuple order on (index, length). */
  predicate ItemBefore(a: Item, b: Item) {
    a.idx < b.idx || (a.idx == b.idx && a.len < b.len)
  }

  /** List order on the items. */
  predicate ListBefore(a: Bag, b: Bag) {
    if b == [] then false
    else if a == [] then true
    else if a[0] == b[0] then ListBefore(a[1..], b[1..])
    else ItemBefore(a[0], b[0])
  }

  /** `Set.__lt__`: by sum, then by number of items, then by the items. */
  predicate BagBefore(a: Bag, b: Bag) {
    if Load(a) != Load(b) then Load(a) < Load(b)
    else if |a| != |b| then |a| < |b|
    else ListBefore(a, b)
  }

  predicate BagAfter(a: Bag, b: Bag) {
    BagBefore(b, a)
  }

  /** What the order says about sums and sizes alone. */
  predicate Heavier(a: Bag, b: Bag) {
    Load(a) > Load(b) || (Load(a) == Load(b) && |a| >= |b|)
  }

  /** `sorted(sets, reverse=True)`. */
  function SortDown(s: BagList): (r: BagList)
    ensures multiset(r) == multiset(s)
    ensures |r| == |s|
  {
    SortLength(BagAfter, s);
    Sort(BagAfter, s)
  }

  ghost predicate Ranked(s: BagList) {
    Ordered(Heavier, s)
  }

  lemma SortDownRanked(s: BagList)
    ensures Ranked(SortDown(s))
  {
    SortOrdered(BagAfter, Heavier, s);
  }

  // ---------- the order on bags, position by position ----------

  /** At position n the lists first differ: a ends there, or has the item with the smaller index, or then length. */
  ghost predicate DiffersAt(a: Bag, b: Bag, n: nat) {
    && n <= |a| && n < |b| && a[..n] == b[..n]
    && (n == |a| || a[n].idx < b[n].idx || (a[n].idx == b[n].idx && a[n].len < b[n].len))
  }

  lemma SharedHead(a: Bag, b: Bag, n: nat)
    requires 0 < n <= |a| && n <= |b| && a[..n] == b[..n]
    ensures a[0] == b[0]
  {
    assert a[..n][0] == b[..n][0];
  }

  lemma {:induction false} ListBeforeIff(a: Bag, b: Bag)
    ensures ListBefore(a, b) <==> exists n: nat :: DiffersAt(a, b, n)
  {
    if b == [] {
    } else if a == [] {
      assert DiffersAt(a, b, 0);
    } else if a[0] == b[0] {
      ListBeforeIff(a[1..], b[1..]);
      if ListBefore(a, b) {
        var n: nat :| DiffersAt(a[1..], b[1..], n);
        assert a[..n + 1] == [a[0]] + a[1..][..n] && b[..n + 1] == [b[0]] + b[1..][..n];
        assert DiffersAt(a, b, n + 1);
      }
      if n: nat :| DiffersAt(a, b, n) {
        assert n > 0 && a[1..][..n - 1] == a[..n][1..] && b[1..][..n - 1] == b[..n][1..];
        assert DiffersAt(a[1..], b[1..], n - 1);
      }
    } else {
      if n: nat :| DiffersAt(a, b, n) {
        if n > 0 {
          SharedHead(a, b, n);
        }
      }
      if ItemBefore(a[0], b[0]) {
        assert DiffersAt(a, b, 0);
      }
    }
  }

  /** Smaller sum, or the same sum and fewer items, or as many and the earlier list. */
  lemma BagBeforeIff(a: Bag, b: Bag)
    ensures BagBefore(a, b) <==>
              Load(a) < Load(b) ||
              (Load(a) == Load(b) && (|a| < |b| || (|a| == |b| && exists n: nat :: DiffersAt(a, b, n))))
  {
    hide Load;
    hide ListBefore;
    ListBeforeIff(a, b);
  }

  // ---------- the order on bags is a strict total order ----------

  lemma {:induction false} ListBeforeTotal(a: Bag, b: Bag)
    requires a != b
    ensures ListBefore(a, b) != ListBefore(b, a)
  {
    if a != [] && b != [] && a[0] == b[0] {
      assert a == [a[0]] + a[1..] && b == [b[0]] + b[1..];
      ListBeforeTotal(a[1..], b[1..]);
    }
  }

  lemma {:induction false} ListBeforeIrreflexive(a: Bag)
    ensures !ListBefore(a, a)
  {
    if a == [] {
    } else {
      ListBeforeIrreflexive(a[1..]);
    }
  }

  lemma {:induction false} ListBeforeTransitive(a: Bag, b: Bag, c: Bag)
    requires ListBefore(a, b) && ListBefore(b, c)
    ensures ListBefore(a, c)
  {
    if a != [] && a[0] == b[0] == c[0] {
      ListBeforeTransitive(a[1..], b[1..], c[1..]);
    }
  }

  /** Any two different bags are ordered one way and not the other. */
  lemma BagOrderTotal(a: Bag, b: Bag)
    ensures BagBefore(a, b) ==> !BagBefore(b, a)
    ensures a != b ==> BagBefore(a, b) || BagBefore(b, a)
  {
    if a != b { ListBeforeTotal(a, b); } else { ListBeforeIrreflexive(a); }
  }

  lemma BagOrderTransitive(a: Bag, b: Bag, c: Bag)
    requires BagBefore(a, b) && BagBefore(b, c)
    ensures BagBefore(a, c)
  {
    if Load(a) == Load(b) == Load(c) && |a| == |b| == |c| {
      ListBeforeTransitive(a, b, c);
    }
  }
}
