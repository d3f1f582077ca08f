/**
  How close best-fit-decreasing comes to the best packing there is: it never uses more than three bins where any
  packing within the cap uses two.
*/
module BestFitBound {
  import opened Arithmetic
  import opened Sequences
  import opened Sorting
  import opened Bags
  import opened KarmarkarKarp
  import opened KarmarkarKarpBalance
  import opened BestFitDecreasing

  // ---------- weights ----------

  /** More than half the cap weighs two, more than a third weighs one. */
  function Weight(v: nat, cap: nat): nat {
    if 2 * v > cap then 2 else if 3 * v > cap then 1 else 0
  }

  function Weights(b: Bag, cap: nat): (r: seq<int>)
    ensures |r| == |b|
    ensures forall i :: 0 <= i < |b| ==> r[i] == Weight(b[i].len, cap)
  {
    Map((it: Item) => Weight(it.len, cap), b)
  }

  function BagWeight(b: Bag, cap: nat): int {
    Sum(Weights(b, cap))
  }

  function BagWeights(s: BagList, cap: nat): (r: seq<int>)
    ensures |r| == |s|
    ensures forall i :: 0 <= i < |s| ==> r[i] == BagWeight(s[i], cap)
  {
    Map((b: Bag) => BagWeight(b, cap), s)
  }

  lemma BagWeightAppend(a: Bag, b: Bag, cap: nat)
    ensures BagWeight(a + b, cap) == BagWeight(a, cap) + BagWeight(b, cap)
  {
    assert Weights(a + b, cap) == Weights(a, cap) + Weights(b, cap);
    SumAppend(Weights(a, cap), Weights(b, cap));
  }

  lemma BagWeightOne(it: Item, cap: nat)
    ensures BagWeight([it], cap) == Weight(it.len, cap)
  {
    var w := Weights([it], cap);
    assert Sum(w) == w[0] + Sum(w[1..]);
    assert w[1..] == [];
  }

  lemma BagWeightPermutation(a: Bag, b: Bag, cap: nat)
    requires multiset(a) == multiset(b)
    ensures BagWeight(a, cap) == BagWeight(b, cap)
  {
    MapPermutation((it: Item) => Weight(it.len, cap), a, b);
    SumPermutation(Weights(a, cap), Weights(b, cap));
  }

  lemma {:induction false} BagWeightsTotal(s: BagList, cap: nat)
    ensures Sum(BagWeights(s, cap)) == BagWeight(Flatten(s), cap)
  {
    if s == [] {
    } else {
      BagWeightsTotal(s[1..], cap);
      BagWeightAppend(s[0], Flatten(s[1..]), cap);
      assert BagWeights(s, cap)[1..] == BagWeights(s[1..], cap);
    }
  }

  lemma RemoveItem(b: Bag, i: nat, cap: nat)
    requires i < |b|
    ensures BagWeight(b, cap) == BagWeight(RemoveAt(b, i), cap) + Weight(b[i].len, cap)
    ensures Load(b) == Load(RemoveAt(b, i)) + b[i].len
  {
    var rest := RemoveAt(b, i);
    assert RemoveAt(Weights(b, cap), i) == Weights(rest, cap);
    assert RemoveAt(Lens(b), i) == Lens(rest);
    SumRemoveAt(Weights(b, cap), i);
    SumRemoveAt(Lens(b), i);
  }

  // ---------- weight against load ----------

  lemma WeightOfLength(v: nat, cap: nat)
    ensures Weight(v, cap) * (cap + 1) <= 4 * v
    ensures Weight(v, cap) <= 1 ==> Weight(v, cap) * (cap + 1) <= 3 * v
  {
  }

  lemma WeightStep(w: int, weights: int, v: int, load: int, cap: nat, f: nat)
    requires w * (cap + 1) <= f * v && weights * (cap + 1) <= f * load
    ensures (weights + w) * (cap + 1) <= f * (load + v)
  {
    assert (weights + w) * (cap + 1) == weights * (cap + 1) + w * (cap + 1);
    assert f * (load + v) == f * load + f * v;
  }

  /** Items that weigh at most f lengths per cap make a bag that weighs at most f loads per cap. */
  lemma {:induction false} WeightOfLoad(b: Bag, cap: nat, f: nat)
    requires forall i :: 0 <= i < |b| ==> Weight(b[i].len, cap) * (cap + 1) <= f * b[i].len
    ensures BagWeight(b, cap) * (cap + 1) <= f * Load(b)
  {
    hide Weight;
    if b == [] {
    } else {
      WeightOfLoad(b[1..], cap, f);
      RemoveItem(b, 0, cap);
      hide BagWeight;
      hide Load;
      assert RemoveAt(b, 0) == b[1..];
      WeightStep(Weight(b[0].len, cap), BagWeight(b[1..], cap), b[0].len, Load(b[1..]), cap, f);
    }
  }

  lemma FewPerCap(w: int, cap: nat, f: nat, load: nat)
    requires w * (cap + 1) <= f * load && load <= cap && f >= 1
    ensures w < f
  {
    assert f * (cap + 1) == f * cap + f;
    assert f * (cap - load) >= 0;
    if w >= f {
      MulMonotone(w, f, cap + 1);
    }
  }

  /** What fits into one bin weighs at most three. */
  lemma FittingWeight(b: Bag, cap: nat)
    requires Load(b) <= cap
    ensures BagWeight(b, cap) <= 3
  {
    forall i | 0 <= i < |b| ensures Weight(b[i].len, cap) * (cap + 1) <= 4 * b[i].len {
      WeightOfLength(b[i].len, cap);
    }
    WeightOfLoad(b, cap, 4);
    FewPerCap(BagWeight(b, cap), cap, 4, Load(b));
  }

  /** Next to an item of weight one, a full weight of three takes an item of weight two. */
  lemma BigCompanion(b: Bag, a: nat, cap: nat)
    requires Load(b) <= cap && a < |b| && BagWeight(b, cap) >= 3 && Weight(b[a].len, cap) == 1
    ensures exists u :: u in b && Weight(u.len, cap) == 2 && u.len + b[a].len <= cap
  {
    hide BagWeight;
    var rest := RemoveAt(b, a);
    RemoveItem(b, a, cap);
    if forall i :: 0 <= i < |rest| ==> Weight(rest[i].len, cap) <= 1 {
      forall i | 0 <= i < |rest| ensures Weight(rest[i].len, cap) * (cap + 1) <= 3 * rest[i].len {
        WeightOfLength(rest[i].len, cap);
      }
      WeightOfLoad(rest, cap, 3);
      MulMonotone(BagWeight(rest, cap), 2, cap + 1);
      assert false;
    } else {
      var i :| 0 <= i < |rest| && Weight(rest[i].len, cap) > 1;
      RemoveItem(rest, i, cap);
      assert rest[i] in b;
    }
  }

  lemma {:induction false} WeightAtLeastCount(b: Bag, cap: nat)
    requires forall i :: 0 <= i < |b| ==> Weight(b[i].len, cap) >= 1
    ensures BagWeight(b, cap) >= |b|
  {
    SumLowerBound(Weights(b, cap), 1);
  }

  /** A bin of items each above a third of the cap, too full for another: it weighs two or more. */
  lemma FullBinWeight(b: Bag, x: nat, cap: nat)
    requires b != [] && 3 * x > cap && Load(b) + x > cap
    requires forall i :: 0 <= i < |b| ==> b[i].len >= x
    ensures BagWeight(b, cap) >= 2
  {
    WeightAtLeastCount(b, cap);
    if |b| == 1 {
      assert b == [b[0]];
      LoadOne(b[0]);
      BagWeightOne(b[0], cap);
    }
  }

  /** ... and if it weighs two, an item of weight two is alone in it. */
  lemma BigIsAlone(b: Bag, u: Item, x: nat, cap: nat)
    requires 3 * x > cap && forall i :: 0 <= i < |b| ==> b[i].len >= x
    requires u in b && Weight(u.len, cap) == 2 && BagWeight(b, cap) <= 2
    ensures Load(b) == u.len
  {
    hide BagWeight;
    var i :| 0 <= i < |b| && b[i] == u;
    var rest := RemoveAt(b, i);
    RemoveItem(b, i, cap);
    WeightAtLeastCount(rest, cap);
    assert rest == [];
  }

  // ---------- the item that opens the last bin ----------

  lemma {:induction false} PackAppend(a: seq<Item>, b: seq<Item>, cap: int, bins: BagList)
    ensures Pack(a + b, cap, bins) == Pack(b, cap, Pack(a, cap, bins))
    decreases |a|
  {
    hide Place;
    if a == [] {
      assert a + b == b;
    } else {
      assert (a + b)[1..] == a[1..] + b;
      PackAppend(a[1..], b, cap, Place(bins, a[0], cap));
    }
  }

  lemma PackLast(order: seq<Item>, cap: int, n: nat)
    requires n < |order|
    ensures Pack(order[..n + 1], cap, []) == Place(Pack(order[..n], cap, []), order[n], cap)
  {
    hide Place;
    assert order[..n + 1] == order[..n] + [order[n]];
    PackAppend(order[..n], [order[n]], cap, []);
    var bins := Pack(order[..n], cap, []);
    assert [order[n]][1..] == [];
    assert Pack([order[n]], cap, bins) == Pack([order[n]][1..], cap, Place(bins, order[n], cap));
  }

  /** The item order[t] opened the last of the bins of the first n items: it fitted into none of those before. */
  ghost predicate OpensLast(order: seq<Item>, cap: int, n: nat, t: nat) {
    t < n <= |order| &&
    var bins := Pack(order[..t], cap, []);
    |Pack(order[..n], cap, [])| == |bins| + 1 && forall i :: 0 <= i < |bins| ==> Load(bins[i]) + order[t].len > cap
  }

  lemma {:induction false} LastOpening(order: seq<Item>, cap: int, n: nat) returns (t: nat)
    requires n <= |order| && Pack(order[..n], cap, []) != []
    ensures OpensLast(order, cap, n, t)
    decreases n
  {
    hide Pack;
    hide Load;
    if n == 0 {
      NothingPacked(order, cap);
    } else {
      PackLast(order, cap, n - 1);
      var bins, x := Pack(order[..n - 1], cap, []), order[n - 1].len;
      BestBinIsTightest(Remaining(bins, cap), x, |bins|);
      if BestBin(Remaining(bins, cap), x, |bins|) == -1 {
        t := n - 1;
        forall i | 0 <= i < |bins| ensures Load(bins[i]) + x > cap {
          assert Remaining(bins, cap)[i] < x;
        }
      } else {
        t := LastOpening(order, cap, n - 1);
      }
    }
  }

  lemma NothingPacked(order: seq<Item>, cap: int)
    ensures Pack(order[..0], cap, []) == []
  {
  }

  lemma OrderSplits(order: seq<Item>, t: nat, cap: nat)
    requires t < |order|
    ensures Load(order) == Load(order[..t]) + order[t].len + Load(order[t + 1..])
    ensures BagWeight(order, cap)
         == BagWeight(order[..t], cap) + Weight(order[t].len, cap) + BagWeight(order[t + 1..], cap)
  {
    hide Load;
    hide BagWeight;
    hide Weight;
    var front, x, back := order[..t], [order[t]], order[t + 1..];
    assert order == (front + x) + back;
    LoadAppend(front + x, back);
    LoadAppend(front, x);
    LoadOne(order[t]);
    BagWeightAppend(front + x, back, cap);
    BagWeightAppend(front, x, cap);
    BagWeightOne(order[t], cap);
  }

  lemma DescendingOrdered(lens: seq<nat>)
    ensures Ordered(NotShorter, Descending(lens))
  {
    hide Descending;
    DescendingSorted(lens);
  }

  /** The bins before the last one opened: none is empty, and they hold the items up to the one that opens it. */
  ghost predicate Before(order: seq<Item>, t: nat, bins: BagList, cap: nat) {
    && t < |order| && NoEmptyBin(bins)
    && multiset(Flatten(bins)) == multiset(order[..t])
    && (forall i, j :: 0 <= i < |bins| && 0 <= j < |bins[i]| ==> bins[i][j].len >= order[t].len)
    && (forall i :: 0 <= i < |bins| ==> Load(bins[i]) + order[t].len > cap)
  }

  lemma BeforeLast(order: seq<Item>, cap: nat, t: nat)
    requires OpensLast(order, cap, |order|, t) && Ordered(NotShorter, order)
    requires forall i :: 0 <= i < |order| ==> order[i].len <= cap
    ensures Before(order, t, Pack(order[..t], cap, []), cap)
    ensures |Pack(order[..t], cap, [])| == |Pack(order, cap, [])| - 1
  {
    hide Pack;
    hide Load;
    hide Flatten;
    var bins: BagList := Pack(order[..t], cap, []);
    assert order[..|order|] == order;
    PackKeeps(order[..t], cap, []);
    PackItems(order[..t], cap, []);
    NoBags();
    assert multiset(Flatten(bins)) == multiset(order[..t]);
    forall i, j | 0 <= i < |bins| && 0 <= j < |bins[i]| ensures bins[i][j].len >= order[t].len {
      FlattenMember(bins, i, j);
      assert bins[i][j] in multiset(Flatten(bins));
      var p :| 0 <= p < t && order[p] == bins[i][j];
      assert NotShorter(order[p], order[t]);
    }
  }

  lemma NoBags()
    ensures Flatten<Item>([]) == []
  {
  }

  // ---------- a small last item: by load ----------

  lemma ThirdsBound(m: nat, q: nat, cap: nat, x: nat)
    requires m >= 2 && 3 * x <= cap && (m - 1) * (cap + 1 - x) + x <= q * cap
    ensures 2 * m <= 3 * q
  {
    assert 3 * ((m - 1) * (cap + 1 - x) + x) == (m - 1) * (3 * cap + 3) - (m - 2) * (3 * x);
    assert (m - 2) * (cap - 3 * x) >= 0;
    assert (m - 1) * (3 * cap + 3) - (m - 2) * cap == (2 * m - 1) * cap + 3 * (m - 1);
    assert 3 * (q * cap) == (3 * q) * cap;
    if 3 * q < 2 * m {
      MulMonotone(2 * m - 1, 3 * q, cap);
    }
  }

  lemma LoadsCompare(order: seq<Item>, t: nat, bins: BagList, cap: nat, other: BagList)
    requires Before(order, t, bins, cap)
    requires multiset(Flatten(other)) == multiset(order) && WithinCap(other, cap)
    ensures Sum(Loads(bins)) + order[t].len <= Sum(Loads(other)) <= |other| * cap
  {
    hide Load;
    LoadsTotal(bins);
    LoadsTotal(other);
    LoadPermutation(Flatten(bins), order[..t]);
    LoadPermutation(Flatten(other), order);
    OrderSplits(order, t, cap);
    hide Flatten;
    SumUpperBound(Loads(other), cap);
  }

  lemma FullBins(order: seq<Item>, t: nat, bins: BagList, cap: nat)
    requires Before(order, t, bins, cap) && order[t].len <= cap
    ensures |bins| * (cap + 1 - order[t].len) <= Sum(Loads(bins))
  {
    hide Sum;
    hide Load;
    hide Flatten;
    hide NoEmptyBin;
    SumLowerBound(Loads(bins), cap + 1 - order[t].len);
  }

  lemma BoundByLoad(order: seq<Item>, t: nat, bins: BagList, cap: nat, other: BagList)
    requires Before(order, t, bins, cap) && bins != [] && 3 * order[t].len <= cap
    requires multiset(Flatten(other)) == multiset(order) && WithinCap(other, cap)
    ensures 2 * (|bins| + 1) <= 3 * |other|
  {
    hide Sum;
    hide Loads;
    hide Flatten;
    hide WithinCap;
    hide NoEmptyBin;
    hide Load;
    FullBins(order, t, bins, cap);
    LoadsCompare(order, t, bins, cap, other);
    ThirdsBound(|bins| + 1, |other|, cap, order[t].len);
  }

  // ---------- a large last item: by weight ----------

  lemma {:induction false} EachAtMost(s: seq<int>, high: int, i: nat)
    requires (forall j :: 0 <= j < |s| ==> s[j] <= high) && i < |s| && Sum(s) >= |s| * high
    ensures s[i] == high
  {
    SumRemoveAt(s, i);
    SumUpperBound(RemoveAt(s, i), high);
    MulStep(|s| - 1, high);
  }

  lemma EachAtLeast(s: seq<int>, low: int, i: nat)
    requires (forall j :: 0 <= j < |s| ==> s[j] >= low) && i < |s| && Sum(s) <= |s| * low
    ensures s[i] == low
  {
    SumRemoveAt(s, i);
    SumLowerBound(RemoveAt(s, i), low);
    MulStep(|s| - 1, low);
  }

  /** Weights of both packings: two or more per bin before the last, three or less per bin of the other. */
  lemma WeightsCompare(order: seq<Item>, t: nat, bins: BagList, cap: nat, other: BagList)
    requires Before(order, t, bins, cap) && 3 * order[t].len > cap
    requires multiset(Flatten(other)) == multiset(order) && WithinCap(other, cap)
    ensures forall i :: 0 <= i < |bins| ==> BagWeights(bins, cap)[i] >= 2
    ensures forall i :: 0 <= i < |other| ==> BagWeights(other, cap)[i] <= 3
    ensures Sum(BagWeights(bins, cap)) >= 2 * |bins| && Sum(BagWeights(other, cap)) <= 3 * |other|
    ensures Sum(BagWeights(other, cap))
         == Sum(BagWeights(bins, cap)) + Weight(order[t].len, cap) + BagWeight(order[t + 1..], cap)
  {
    hide Flatten;
    hide Load;
    hide BagWeight;
    forall i | 0 <= i < |bins| ensures BagWeights(bins, cap)[i] >= 2 {
      FullBinWeight(bins[i], order[t].len, cap);
    }
    forall i | 0 <= i < |other| ensures BagWeights(other, cap)[i] <= 3 {
      FittingWeight(other[i], cap);
    }
    SumLowerBound(BagWeights(bins, cap), 2);
    SumUpperBound(BagWeights(other, cap), 3);
    BagWeightsTotal(bins, cap);
    BagWeightsTotal(other, cap);
    BagWeightPermutation(Flatten(bins), order[..t], cap);
    BagWeightPermutation(Flatten(other), order, cap);
    OrderSplits(order, t, cap);
  }

  lemma NonNegativeWeight(b: Bag, cap: nat)
    ensures BagWeight(b, cap) >= 0
  {
    SumLowerBound(Weights(b, cap), 0);
  }

  lemma WeightOf(b: Bag, u: Item, cap: nat)
    requires u in b
    ensures BagWeight(b, cap) >= Weight(u.len, cap)
  {
    var i :| 0 <= i < |b| && b[i] == u;
    RemoveItem(b, i, cap);
    NonNegativeWeight(RemoveAt(b, i), cap);
  }

  lemma {:induction false} InSomeBag(s: BagList, u: Item) returns (i: nat)
    requires u in Flatten(s)
    ensures i < |s| && u in s[i]
  {
    if u in s[0] {
      i := 0;
    } else {
      var j := InSomeBag(s[1..], u);
      i := j + 1;
    }
  }

  /** Were the other packing too small, its weights would be tight, and the last item would have fitted. */
  lemma NotTight(order: seq<Item>, t: nat, bins: BagList, cap: nat, other: BagList)
    requires Before(order, t, bins, cap) && 3 * order[t].len > cap && Weight(order[t].len, cap) == 1
    requires multiset(Flatten(other)) == multiset(order) && WithinCap(other, cap)
    ensures 3 * |other| != 2 * |bins| + 1
  {
    hide Flatten;
    hide Load;
    hide BagWeight;
    var x := order[t];
    WeightsCompare(order, t, bins, cap, other);
    NonNegativeWeight(order[t + 1..], cap);
    if 3 * |other| == 2 * |bins| + 1 {
      assert x in multiset(Flatten(other));
      var q := InSomeBag(other, x);
      EachAtMost(BagWeights(other, cap), 3, q);
      var a :| 0 <= a < |other[q]| && other[q][a] == x;
      BigCompanion(other[q], a, cap);
      var u :| u in other[q] && Weight(u.len, cap) == 2 && u.len + x.len <= cap;
      CompanionIsEarlier(order, t, bins, cap, other, q, u);
      var i := InSomeBag(bins, u);
      EachAtLeast(BagWeights(bins, cap), 2, i);
      BigIsAlone(bins[i], u, x.len, cap);
      assert false;
    }
  }

  lemma InThreeParts(order: seq<Item>, t: nat, u: Item)
    requires t < |order| && u in order
    ensures u in order[..t] || u == order[t] || u in order[t + 1..]
  {
    assert order == order[..t] + [order[t]] + order[t + 1..];
  }

  lemma CompanionIsEarlier(order: seq<Item>, t: nat, bins: BagList, cap: nat, other: BagList, q: nat, u: Item)
    requires Before(order, t, bins, cap) && multiset(Flatten(other)) == multiset(order)
    requires q < |other| && u in other[q] && Weight(u.len, cap) == 2
    requires Weight(order[t].len, cap) == 1 && BagWeight(order[t + 1..], cap) == 0
    ensures u in Flatten(bins)
  {
    hide BagWeight;
    hide Weight;
    hide Load;
    hide Flatten;
    hide NoEmptyBin;
    var j :| 0 <= j < |other[q]| && other[q][j] == u;
    FlattenMember(other, q, j);
    assert u in multiset(Flatten(other));
    InThreeParts(order, t, u);
    if u in order[t + 1..] {
      WeightOf(order[t + 1..], u, cap);
      assert false;
    }
    assert u in multiset(order[..t]);
    assert u in multiset(Flatten(bins));
  }

  lemma BoundByWeight(order: seq<Item>, t: nat, bins: BagList, cap: nat, other: BagList)
    requires Before(order, t, bins, cap) && 3 * order[t].len > cap
    requires multiset(Flatten(other)) == multiset(order) && WithinCap(other, cap)
    ensures 2 * (|bins| + 1) <= 3 * |other|
  {
    hide Flatten;
    hide NoEmptyBin;
    hide WithinCap;
    hide BagWeight;
    hide BagWeights;
    hide Load;
    WeightsCompare(order, t, bins, cap, other);
    NonNegativeWeight(order[t + 1..], cap);
    if Weight(order[t].len, cap) == 1 {
      NotTight(order, t, bins, cap, other);
    }
  }

  // ---------- against any packing ----------

  function PartBag(lens: seq<nat>, part: seq<nat>): (b: Bag)
    requires Indices(part, |lens|)
    ensures |b| == |part| && forall j :: 0 <= j < |part| ==> b[j] == Items(lens)[part[j]]
  {
    Gather(Items(lens), part)
  }

  /** The parts of a packing with their lengths. */
  function PartBags(lens: seq<nat>, parts: seq<seq<nat>>): (r: BagList)
    requires forall i :: 0 <= i < |parts| ==> Indices(parts[i], |lens|)
    ensures |r| == |parts| && forall i :: 0 <= i < |parts| ==> r[i] == PartBag(lens, parts[i])
  {
    seq(|parts|, i requires 0 <= i < |parts| => PartBag(lens, parts[i]))
  }

  lemma {:induction false} PartBagsFlat(lens: seq<nat>, parts: seq<seq<nat>>)
    requires forall i :: 0 <= i < |parts| ==> Indices(parts[i], |lens|)
    ensures Indices(Flatten(parts), |lens|)
    ensures Flatten(PartBags(lens, parts)) == Gather(Items(lens), Flatten(parts))
  {
    if parts == [] {
    } else {
      PartBagsFlat(lens, parts[1..]);
      assert PartBags(lens, parts)[1..] == PartBags(lens, parts[1..]);
    }
  }

  lemma FeasibleBags(lens: seq<nat>, cap: int, parts: seq<seq<nat>>)
    requires FeasiblePacking(lens, cap, parts)
    ensures WithinCap(PartBags(lens, parts), cap)
    ensures multiset(Flatten(PartBags(lens, parts))) == multiset(Items(lens))
  {
    hide Flatten;
    PartBagsFlat(lens, parts);
    GatherPermutation(Items(lens), Flatten(parts));
    forall i | 0 <= i < |parts| ensures Load(PartBags(lens, parts)[i]) <= cap {
      assert Lens(PartBag(lens, parts[i])) == Gather(lens, parts[i]);
    }
  }

  lemma EmptyPacking(lens: seq<nat>, cap: int, other: BagList)
    requires multiset(Flatten(other)) == multiset(Items(lens))
    ensures lens != [] ==> other != []
    ensures lens == [] ==> Bins(lens, cap) == []
  {
    assert |multiset(Flatten(other))| == |multiset(Items(lens))|;
    assert |multiset(Descending(lens))| == |multiset(Items(lens))|;
  }

  /**
    Main result on packing. Against any packing of the samples within the cap, however clever, best-fit-decreasing
    opens at most three bins for every two.
  */
  lemma ThreeForEveryTwo(lens: seq<nat>, cap: int, parts: seq<seq<nat>>)
    requires !TooLong(lens, cap) && FeasiblePacking(lens, cap, parts)
    ensures 2 * |Bins(lens, cap)| <= 3 * |parts|
  {
    hide Pack;
    hide Flatten;
    hide PartBags;
    hide Descending;
    hide Before;
    var other, order := PartBags(lens, parts), Descending(lens);
    FeasibleBags(lens, cap, parts);
    EmptyPacking(lens, cap, other);
    if lens != [] && |Bins(lens, cap)| > 1 {
      assert lens[0] <= cap;
      DescendingOrdered(lens);
      DescendingFits(lens, cap);
      assert order[..|order|] == order;
      var t := LastOpening(order, cap, |order|);
      BeforeLast(order, cap, t);
      var bins := Pack(order[..t], cap, []);
      if 3 * order[t].len <= cap {
        BoundByLoad(order, t, bins, cap, other);
      } else {
        BoundByWeight(order, t, bins, cap, other);
      }
    }
  }

  lemma DescendingFits(lens: seq<nat>, cap: int)
    requires !TooLong(lens, cap)
    ensures forall i :: 0 <= i < |Descending(lens)| ==> Descending(lens)[i].len <= cap
  {
    hide Descending;
    var order := Descending(lens);
    forall i | 0 <= i < |order| ensures order[i].len <= cap {
      assert order[i] in multiset(Items(lens));
      var j :| 0 <= j < |lens| && order[i] == Items(lens)[j];
    }
  }
}
