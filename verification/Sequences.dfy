/** Sequences of samples and of groups of samples: flattening, sums, gathering and permutations. */
module Sequences {

  /** The concatenation of a list of lists. */
  function Flatten<T>(ss: seq<seq<T>>): seq<T> {
    if ss == [] then [] else ss[0] + Flatten(ss[1..])
  }

  function Sum(s: seq<int>): int {
    if s == [] then 0 else s[0] + Sum(s[1..])
  }

  /** The largest element. */
  function MaxOf(s: seq<int>): (m: int)
    requires s != []
    ensures m in s
    ensures forall i :: 0 <= i < |s| ==> s[i] <= m
  {
    if |s| == 1 then s[0]
    else
      var m := MaxOf(s[1..]);
      assert forall i :: 1 <= i < |s| ==> s[i] == s[1..][i - 1];
      if s[0] >= m then s[0] else m
  }

  function Map<A, B>(f: A -> B, s: seq<A>): (r: seq<B>)
    ensures |r| == |s|
    ensures forall i :: 0 <= i < |s| ==> r[i] == f(s[i])
  {
    seq(|s|, i requires 0 <= i < |s| => f(s[i]))
  }

  function Repeat<T>(x: T, n: nat): (r: seq<T>)
    ensures |r| == n
    ensures forall i :: 0 <= i < n ==> r[i] == x
  {
    seq(n, _ => x)
  }

  function RemoveAt<T>(s: seq<T>, i: nat): (r: seq<T>)
    requires i < |s|
    ensures |r| == |s| - 1
  {
    s[..i] + s[i+1..]
  }

  /** The indices 0 .. n-1 in order. */
  function Range(n: nat): (r: seq<nat>)
    ensures |r| == n
    ensures forall i :: 0 <= i < n ==> r[i] == i
  {
    seq(n, i => i)
  }

  ghost predicate Indices(p: seq<nat>, n: nat) {
    forall i :: 0 <= i < |p| ==> p[i] < n
  }

  /** Row selection, `[xs[i] for i in p]`. */
  function Gather<T>(xs: seq<T>, p: seq<nat>): (r: seq<T>)
    requires forall i :: 0 <= i < |p| ==> p[i] < |xs|
    ensures |r| == |p|
    ensures forall i :: 0 <= i < |p| ==> r[i] == xs[p[i]]
  {
    seq(|p|, i requires 0 <= i < |p| => xs[p[i]])
  }

  /** p lists every index below n exactly once. */
  ghost predicate IsPermutation(p: seq<nat>, n: nat) {
    multiset(p) == multiset(Range(n))
  }

  // ---------- flattening ----------

  lemma {:induction false} FlattenAppend<T>(a: seq<seq<T>>, b: seq<seq<T>>)
    ensures Flatten(a + b) == Flatten(a) + Flatten(b)
  {
    if a == [] {
      assert a + b == b;
    } else {
      assert (a + b)[1..] == a[1..] + b;
      FlattenAppend(a[1..], b);
    }
  }

  lemma FlattenSingleton<T>(s: seq<T>)
    ensures Flatten([s]) == s
  {
    assert [s][1..] == [];
  }

  lemma RemoveAtMultiset<T>(s: seq<T>, i: nat)
    requires i < |s|
    ensures multiset(s) == multiset(RemoveAt(s, i)) + multiset{s[i]}
    ensures multiset(RemoveAt(s, i)) == multiset(s) - multiset{s[i]}
  {
    assert s == s[..i] + [s[i]] + s[i+1..];
  }

  lemma FlattenMiddle<T>(pre: seq<seq<T>>, x: seq<T>, post: seq<seq<T>>)
    ensures Flatten(pre + ([x] + post)) == Flatten(pre) + (x + Flatten(post))
  {
    hide Flatten;
    FlattenAppend(pre, [x] + post);
    FlattenAppend([x], post);
    FlattenSingleton(x);
  }

  lemma FlattenRemoveAt<T>(ss: seq<seq<T>>, i: nat)
    requires i < |ss|
    ensures multiset(Flatten(ss)) == multiset(Flatten(RemoveAt(ss, i))) + multiset(ss[i])
  {
    hide Flatten;
    var pre, post := ss[..i], ss[i+1..];
    assert ss == pre + ([ss[i]] + post) && RemoveAt(ss, i) == pre + post;
    hide RemoveAt;
    FlattenMiddle(pre, ss[i], post);
    FlattenAppend(pre, post);
    MiddleMultiset(Flatten(pre), ss[i], Flatten(post));
  }

  lemma MiddleMultiset<T>(x: seq<T>, y: seq<T>, z: seq<T>)
    ensures multiset(x + (y + z)) == multiset(x + z) + multiset(y)
  {
  }

  /** Reordering the groups does not change which elements they hold together. */
  lemma {:induction false} FlattenPermutation<T>(a: seq<seq<T>>, b: seq<seq<T>>)
    requires multiset(a) == multiset(b)
    ensures multiset(Flatten(a)) == multiset(Flatten(b))
    decreases |a|
  {
    if a == [] {
      assert |b| == |multiset(b)| == 0;
    } else {
      assert a[0] in multiset(b);
      var i :| 0 <= i < |b| && b[i] == a[0];
      RemoveAtMultiset(a, 0);
      RemoveAtMultiset(b, i);
      assert RemoveAt(a, 0) == a[1..];
      FlattenPermutation(a[1..], RemoveAt(b, i));
      FlattenRemoveAt(b, i);
    }
  }

  /** Reordering the elements of each group keeps the flattened multiset. */
  lemma {:induction false} FlattenPointwise<T>(a: seq<seq<T>>, b: seq<seq<T>>)
    requires |a| == |b|
    requires forall i :: 0 <= i < |a| ==> multiset(a[i]) == multiset(b[i])
    ensures multiset(Flatten(a)) == multiset(Flatten(b))
  {
    if a == [] {
    } else {
      FlattenPointwise(a[1..], b[1..]);
    }
  }

  lemma {:induction false} FlattenLength<T>(ss: seq<seq<T>>, size: nat)
    requires forall i :: 0 <= i < |ss| ==> |ss[i]| == size
    ensures |Flatten(ss)| == |ss| * size
  {
    if ss == [] {
    } else {
      FlattenLength(ss[1..], size);
      assert |ss| * size == size + (|ss| - 1) * size;
    }
  }

  lemma {:induction false} FlattenMember<T>(ss: seq<seq<T>>, i: nat, j: nat)
    requires i < |ss| && j < |ss[i]|
    ensures ss[i][j] in Flatten(ss)
  {
    if i == 0 {
    } else {
      FlattenMember(ss[1..], i - 1, j);
    }
  }

  lemma {:induction false} FlattenMap<A, B>(f: A -> B, ss: seq<seq<A>>)
    ensures Flatten(Map((s: seq<A>) => Map(f, s), ss)) == Map(f, Flatten(ss))
  {
    var g := (s: seq<A>) => Map(f, s);
    if ss == [] {
    } else {
      FlattenMap(f, ss[1..]);
      assert Map(g, ss)[1..] == Map(g, ss[1..]);
      assert Map(f, ss[0] + Flatten(ss[1..])) == Map(f, ss[0]) + Map(f, Flatten(ss[1..]));
    }
  }

  // ---------- sums ----------

  lemma {:induction false} SumAppend(a: seq<int>, b: seq<int>)
    ensures Sum(a + b) == Sum(a) + Sum(b)
  {
    if a == [] {
      assert a + b == b;
    } else {
      assert (a + b)[1..] == a[1..] + b;
      SumAppend(a[1..], b);
    }
  }

  lemma {:induction false} SumRemoveAt(s: seq<int>, i: nat)
    requires i < |s|
    ensures Sum(s) == Sum(RemoveAt(s, i)) + s[i]
  {
    if i == 0 {
      assert RemoveAt(s, 0) == s[1..];
    } else {
      SumRemoveAt(s[1..], i - 1);
      assert RemoveAt(s, i)[1..] == RemoveAt(s[1..], i - 1);
    }
  }

  lemma {:induction false} SumPermutation(a: seq<int>, b: seq<int>)
    requires multiset(a) == multiset(b)
    ensures Sum(a) == Sum(b)
    decreases |a|
  {
    if a == [] {
      assert |b| == |multiset(b)| == 0;
    } else {
      assert a[0] in multiset(b);
      var i :| 0 <= i < |b| && b[i] == a[0];
      RemoveAtMultiset(a, 0);
      RemoveAtMultiset(b, i);
      assert RemoveAt(a, 0) == a[1..];
      SumPermutation(a[1..], RemoveAt(b, i));
      SumRemoveAt(b, i);
    }
  }

  lemma {:induction false} SumLowerBound(s: seq<int>, low: int)
    requires forall i :: 0 <= i < |s| ==> low <= s[i]
    ensures |s| * low <= Sum(s)
  {
    if s == [] {
    } else {
      SumLowerBound(s[1..], low);
      assert |s| * low == low + (|s| - 1) * low;
    }
  }

  lemma {:induction false} SumUpperBound(s: seq<int>, high: int)
    requires forall i :: 0 <= i < |s| ==> s[i] <= high
    ensures Sum(s) <= |s| * high
  {
    if s == [] {
    } else {
      SumUpperBound(s[1..], high);
      assert |s| * high == high + (|s| - 1) * high;
    }
  }

  // ---------- permutations and gathering ----------

  lemma {:induction false} MapPermutation<A, B>(f: A -> B, a: seq<A>, b: seq<A>)
    requires multiset(a) == multiset(b)
    ensures multiset(Map(f, a)) == multiset(Map(f, b))
    decreases |a|
  {
    if a == [] {
      assert |b| == |multiset(b)| == 0;
    } else {
      assert a[0] in multiset(b);
      var i :| 0 <= i < |b| && b[i] == a[0];
      RemoveAtMultiset(a, 0);
      RemoveAtMultiset(b, i);
      assert RemoveAt(a, 0) == a[1..];
      MapPermutation(f, a[1..], RemoveAt(b, i));
      MapRemoveAt(f, a, 0);
      MapRemoveAt(f, b, i);
    }
  }

  lemma MapRemoveAt<A, B>(f: A -> B, s: seq<A>, i: nat)
    requires i < |s|
    ensures multiset(Map(f, s)) == multiset(Map(f, RemoveAt(s, i))) + multiset{f(s[i])}
  {
    assert RemoveAt(Map(f, s), i) == Map(f, RemoveAt(s, i));
    RemoveAtMultiset(Map(f, s), i);
  }

  lemma PermutationIndices(p: seq<nat>, n: nat)
    requires IsPermutation(p, n)
    ensures |p| == n && Indices(p, n)
  {
    assert |multiset(p)| == |multiset(Range(n))|;
    forall i | 0 <= i < |p| ensures p[i] < n {
      assert p[i] in multiset(p);
      assert p[i] in multiset(Range(n));
    }
  }

  /** Gathering along a permutation only reorders. */
  lemma GatherPermutation<T(0)>(xs: seq<T>, p: seq<nat>)
    requires IsPermutation(p, |xs|)
    ensures Indices(p, |xs|)
    ensures multiset(Gather(xs, p)) == multiset(xs)
  {
    PermutationIndices(p, |xs|);
    if xs != [] {
      var f := (i: nat) => if i < |xs| then xs[i] else xs[0];
      MapPermutation(f, p, Range(|xs|));
      assert Map(f, p) == Gather(xs, p);
      assert Map(f, Range(|xs|)) == xs;
    }
  }

  lemma CountOnce<T>(s: seq<T>, i: nat)
    requires i < |s|
    requires forall j :: 0 <= j < |s| && j != i ==> s[j] != s[i]
    ensures multiset(s)[s[i]] == 1
  {
    RemoveAtMultiset(s, i);
    assert s[i] !in RemoveAt(s, i);
  }

  lemma RepeatCount<T>(s: seq<T>, i: nat, j: nat)
    requires i < j < |s| && s[i] == s[j]
    ensures multiset(s)[s[i]] >= 2
  {
    assert s == s[..i] + [s[i]] + s[i+1..j] + [s[j]] + s[j+1..];
  }

  /** A list with the elements of a list without repeats has no repeats. */
  lemma DistinctRearranged<T>(s: seq<T>, t: seq<T>)
    requires multiset(s) == multiset(t)
    requires forall i, j :: 0 <= i < j < |s| ==> s[i] != s[j]
    ensures |t| == |s| && forall x :: x in s <==> x in t
    ensures forall i, j :: 0 <= i < j < |t| ==> t[i] != t[j]
  {
    assert |multiset(s)| == |multiset(t)|;
    forall x ensures x in s <==> x in t {
      assert x in s <==> x in multiset(s);
      assert x in t <==> x in multiset(t);
    }
    forall i, j | 0 <= i < j < |t| ensures t[i] != t[j] {
      assert t[i] in s;
      var m :| 0 <= m < |s| && s[m] == t[i];
      CountOnce(s, m);
      if t[i] == t[j] {
        RepeatCount(t, i, j);
      }
    }
  }

  /** A permutation hits every index, and only once. */
  lemma PermutationBijective(p: seq<nat>, n: nat)
    requires IsPermutation(p, n)
    ensures |p| == n && Indices(p, n)
    ensures forall v :: 0 <= v < n ==> v in p
    ensures forall i, j :: 0 <= i < j < |p| ==> p[i] != p[j]
  {
    PermutationIndices(p, n);
    DistinctRearranged(Range(n), p);
    forall v | 0 <= v < n ensures v in p {
      assert Range(n)[v] == v;
    }
  }

  lemma {:induction false} SetSize<T>(p: seq<T>)
    requires forall i, j :: 0 <= i < j < |p| ==> p[i] != p[j]
    ensures |set i | 0 <= i < |p| :: p[i]| == |p|
  {
    var s := set i | 0 <= i < |p| :: p[i];
    if p == [] {
    } else {
      var q := p[1..];
      SetSize(q);
      var t := set i | 0 <= i < |q| :: q[i];
      forall x ensures x in s <==> x in t + {p[0]} {
        if x in s && x != p[0] {
          var i :| 0 <= i < |p| && p[i] == x;
          assert q[i-1] == x;
        }
        if x in t {
          var i :| 0 <= i < |q| && q[i] == x;
          assert p[i+1] == x;
        }
        if x == p[0] { assert p[0] in s; }
      }
      assert s == t + {p[0]};
      assert p[0] !in t;
    }
  }
}
