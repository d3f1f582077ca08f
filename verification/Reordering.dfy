/** Undoing a reordering by index lists, and splitting a list into chunks. */
module Reordering {
  import opened Arithmetic
  import opened Sequences
  import opened BalancedPartitions

  // ---------- inverse index maps ----------

  /** Among the first n entries of p, v is the last position of j; if j is not there, v is p's own entry. */
  ghost predicate LastPosition(p: seq<nat>, n: nat, j: nat, v: nat)
    requires n <= |p| && j < |p|
  {
    || (v == p[j] && forall m :: 0 <= m < n ==> p[m] != j)
    || (v < n && p[v] == j && forall m :: v < m < n ==> p[m] != j)
  }

  ghost predicate Reverses(p: seq<nat>, rev: seq<nat>) {
    |rev| == |p| && forall j :: 0 <= j < |p| ==> LastPosition(p, |p|, j, rev[j])
  }

  /** `get_reverse_idx`. */
  method GetReverseIdx(p: seq<nat>) returns (rev: seq<nat>)
    requires Indices(p, |p|)
    ensures Reverses(p, rev)
  {
    rev := p;
    var i := 0;
    while i < |p|
      invariant 0 <= i <= |p| == |rev|
      invariant forall j :: 0 <= j < |p| ==> LastPosition(p, i, j, rev[j])
    {
      rev := rev[p[i] := i];
      i := i + 1;
    }
  }

  /** Selecting by a permutation and then by its inverse restores every list. */
  lemma ReverseRestores<T>(xs: seq<T>, p: seq<nat>, rev: seq<nat>)
    requires IsPermutation(p, |xs|) && Reverses(p, rev)
    ensures Indices(p, |xs|) && Indices(rev, |p|)
    ensures Gather(Gather(xs, p), rev) == xs
  {
    PermutationBijective(p, |xs|);
    forall j | 0 <= j < |rev| ensures rev[j] < |p| && p[rev[j]] == j {
      assert LastPosition(p, |p|, j, rev[j]);
      assert j in p;
    }
  }

  lemma {:induction false} GatherFlatten<T>(xs: seq<T>, parts: seq<seq<nat>>)
    requires Indices(Flatten(parts), |xs|)
    ensures forall i :: 0 <= i < |parts| ==> Indices(parts[i], |xs|)
    ensures Flatten(seq(|parts|, i requires 0 <= i < |parts| && Indices(parts[i], |xs|) => Gather(xs, parts[i])))
         == Gather(xs, Flatten(parts))
  {
    forall i | 0 <= i < |parts| ensures Indices(parts[i], |xs|) {
      forall j | 0 <= j < |parts[i]| ensures parts[i][j] < |xs| {
        FlattenMember(parts, i, j);
      }
    }
    var all := seq(|parts|, i requires 0 <= i < |parts| && Indices(parts[i], |xs|) => Gather(xs, parts[i]));
    if parts == [] {
    } else {
      var rest := parts[1..];
      assert Indices(Flatten(rest), |xs|) by {
        assert forall i :: 0 <= i < |Flatten(rest)| ==> Flatten(rest)[i] == Flatten(parts)[i + |parts[0]|];
      }
      GatherFlatten(xs, rest);
      assert all[1..] == seq(|rest|, i requires 0 <= i < |rest| && Indices(rest[i], |xs|) => Gather(xs, rest[i]));
    }
  }

  /** Per-sample outputs computed micro-batch by micro-batch come back in the original order. */
  lemma MicroBatchOutputsRestored<T>(xs: seq<T>, parts: seq<seq<nat>>, rev: seq<nat>)
    requires IsPermutation(Flatten(parts), |xs|) && Reverses(Flatten(parts), rev)
    ensures forall i :: 0 <= i < |parts| ==> Indices(parts[i], |xs|)
    ensures var outputs := Flatten(seq(|parts|,
              i requires 0 <= i < |parts| && Indices(parts[i], |xs|) => Gather(xs, parts[i])));
            Indices(rev, |outputs|) && Gather(outputs, rev) == xs
  {
    PermutationIndices(Flatten(parts), |xs|);
    GatherFlatten(xs, parts);
    ReverseRestores(xs, Flatten(parts), rev);
  }

  // ---------- splitting ----------

  /** Start of chunk i when n items are split into c chunks, the longer ones first. */
  function Cut(n: nat, c: nat, i: nat): int
    requires 1 <= c
  {
    i * (n / c) + Min(i, n % c)
  }

  lemma CutSteps(n: nat, c: nat, i: nat)
    requires 1 <= c && i < c
    ensures 0 <= Cut(n, c, i) <= Cut(n, c, i + 1) <= n
    ensures Cut(n, c, i + 1) - Cut(n, c, i) == n / c + (if i < n % c then 1 else 0)
    ensures Cut(n, c, 0) == 0 && Cut(n, c, c) == n
  {
    CutArithmetic(n / c, n % c, c, i);
    assert n == c * (n / c) + n % c;
  }

  lemma CutArithmetic(k: nat, m: nat, c: nat, i: nat)
    requires i < c && m < c
    ensures 0 <= i * k + Min(i, m) <= (i + 1) * k + Min(i + 1, m) <= c * k + m
    ensures (i + 1) * k - i * k == k
  {
    MulStep(i, k);
    MulMonotone(i, 0, k);
    MulMonotone(c, i + 1, k);
  }

  /** `split_list` with enforce_divisible_batch off. */
  function SplitList<T>(xs: seq<T>, c: nat): (r: seq<seq<T>>)
    requires 1 <= c
    ensures |r| == c
  {
    seq(c, i requires 0 <= i < c => CutSteps(|xs|, c, i); xs[Cut(|xs|, c, i)..Cut(|xs|, c, i + 1)])
  }

  /** `xs[a:b]` for 0 <= a <= b: indices past the end are cut off. */
  function Slice<T>(xs: seq<T>, a: nat, b: nat): seq<T>
    requires a <= b
  {
    xs[Min(a, |xs|)..Min(b, |xs|)]
  }

  /** `_split_list_by_sizes` on a list of sizes, from index `at` on. */
  function SplitBySizes<T>(xs: seq<T>, at: nat, sizes: seq<nat>): seq<seq<T>>
    decreases |sizes|
  {
    if sizes == [] then []
    else [Slice(xs, at, at + sizes[0])] + SplitBySizes(xs, at + sizes[0], sizes[1..])
  }

  function EvenSizes(n: nat, c: nat): (r: seq<nat>)
    requires 1 <= c
    ensures |r| == c
  {
    seq(c, i requires 0 <= i < c => n / c + if i < n % c then 1 else 0)
  }

  lemma CutOne<T>(xs: seq<T>, c: nat, i: nat)
    requires 1 <= c && i < c
    ensures 0 <= Cut(|xs|, c, i) <= Cut(|xs|, c, i + 1) <= |xs|
    ensures EvenSizes(|xs|, c)[i] == Cut(|xs|, c, i + 1) - Cut(|xs|, c, i)
    ensures SplitList(xs, c)[i] == xs[Cut(|xs|, c, i)..Cut(|xs|, c, i + 1)]
  {
    CutSteps(|xs|, c, i);
  }

  lemma CutsEnd<T>(xs: seq<T>, c: nat)
    requires 1 <= c
    ensures Cut(|xs|, c, 0) == 0 && Cut(|xs|, c, c) == |xs|
  {
    CutSteps(|xs|, c, c - 1);
  }

  lemma SplitStep<T>(xs: seq<T>, at: nat, next: nat, sizes: seq<nat>)
    requires sizes != [] && at <= next <= |xs| && sizes[0] == next - at
    ensures SplitBySizes(xs, at, sizes) == [xs[at..next]] + SplitBySizes(xs, next, sizes[1..])
  {
  }

  lemma {:induction false} CutsAgree<T>(xs: seq<T>, c: nat, i: nat)
    requires 1 <= c && i <= c
    ensures 0 <= Cut(|xs|, c, i) <= |xs|
    ensures SplitBySizes(xs, Cut(|xs|, c, i), EvenSizes(|xs|, c)[i..]) == SplitList(xs, c)[i..]
    decreases c - i
  {
    hide Cut;
    hide SplitList;
    hide EvenSizes;
    if i == c {
      CutsEnd(xs, c);
    } else {
      CutOne(xs, c, i);
      CutsAgree(xs, c, i + 1);
      var sizes, chunks := EvenSizes(|xs|, c), SplitList(xs, c);
      SplitStep(xs, Cut(|xs|, c, i), Cut(|xs|, c, i + 1), sizes[i..]);
      assert sizes[i..][1..] == sizes[i + 1..];
      assert chunks[i..] == [chunks[i]] + chunks[i + 1..];
    }
  }

  lemma {:induction false} CutsRebuild<T>(xs: seq<T>, c: nat, i: nat)
    requires 1 <= c && i <= c
    ensures 0 <= Cut(|xs|, c, i) <= |xs|
    ensures Flatten(SplitList(xs, c)[i..]) == xs[Cut(|xs|, c, i)..]
    decreases c - i
  {
    hide Cut;
    hide SplitList;
    if i == c {
      CutsEnd(xs, c);
    } else {
      CutOne(xs, c, i);
      CutsRebuild(xs, c, i + 1);
      var chunks := SplitList(xs, c);
      assert chunks[i..][1..] == chunks[i + 1..];
      assert xs[Cut(|xs|, c, i)..] == chunks[i] + xs[Cut(|xs|, c, i + 1)..];
    }
  }

  /**
    The chunks are contiguous, rebuild the list, are longest first and differ by at most one, and both splitters
    agree.
  */
  lemma SplitListCuts<T>(xs: seq<T>, c: nat)
    requires 1 <= c
    ensures Flatten(SplitList(xs, c)) == xs
    ensures SplitList(xs, c) == SplitBySizes(xs, 0, EvenSizes(|xs|, c))
    ensures forall i :: 0 <= i < c ==> |SplitList(xs, c)[i]| == |xs| / c + if i < |xs| % c then 1 else 0
  {
    CutsAgree(xs, c, 0);
    CutsRebuild(xs, c, 0);
    CutsEnd(xs, c);
    assert SplitList(xs, c)[0..] == SplitList(xs, c) && EvenSizes(|xs|, c)[0..] == EvenSizes(|xs|, c);
    forall i | 0 <= i < c ensures |SplitList(xs, c)[i]| == |xs| / c + if i < |xs| % c then 1 else 0 {
      CutOne(xs, c, i);
    }
  }

  /** `_split_list_by_sizes` and the list branch of `split_list`: a running start index. */
  method SplitRunning<T>(xs: seq<T>, sizes: seq<nat>) returns (out: seq<seq<T>>)
    ensures out == SplitBySizes(xs, 0, sizes)
  {
    out := [];
    var i, n := 0, 0;
    assert sizes[0..] == sizes;
    while n < |sizes|
      invariant 0 <= n <= |sizes| && 0 <= i
      invariant SplitBySizes(xs, 0, sizes) == out + SplitBySizes(xs, i, sizes[n..])
    {
      assert sizes[n..][1..] == sizes[n + 1..];
      out := out + [Slice(xs, i, i + sizes[n])];
      i := i + sizes[n];
      n := n + 1;
    }
  }

  /** `split_list` with enforce_divisible_batch on; Failure is the assertion or the division by zero. */
  function SplitEnforced<T>(xs: seq<T>, c: nat): Result<seq<seq<T>>>
    requires 1 <= c
  {
    var size := |xs| / c;
    if size == 0 || |xs| % size != 0 then Failure
    else Success(Pieces(xs, size))
  }

  function Pieces<T>(xs: seq<T>, size: nat): seq<seq<T>>
    requires 1 <= size
  {
    if |xs| < size then (if xs == [] then [] else [xs]) else [xs[..size]] + Pieces(xs[size..], size)
  }

  lemma {:induction false} PiecesCount<T>(xs: seq<T>, size: nat)
    requires 1 <= size && |xs| % size == 0
    ensures |Pieces(xs, size)| * size == |xs| && Flatten(Pieces(xs, size)) == xs
    ensures forall i :: 0 <= i < |Pieces(xs, size)| ==> |Pieces(xs, size)[i]| == size
  {
    if xs == [] {
    } else {
      MultipleAtLeast(|xs|, size);
      ModStep(|xs|, size);
      PiecesCount(xs[size..], size);
      var rest := Pieces(xs[size..], size);
      assert (1 + |rest|) * size == size + |rest| * size;
      assert xs == xs[..size] + xs[size..];
    }
  }

  /**
    The enforced split gives equal chunks that rebuild the list, but the requested number of them only if it
    divides the length.
  */
  lemma EnforcedSplitCount<T>(xs: seq<T>, c: nat)
    requires 1 <= c && SplitEnforced(xs, c).Success?
    ensures var r := SplitEnforced(xs, c).value;
            Flatten(r) == xs && (forall i :: 0 <= i < |r| ==> |r[i]| == |xs| / c) &&
            (|r| == c <==> |xs| % c == 0)
  {
    hide Pieces;
    PiecesCount(xs, |xs| / c);
    CountMatches(|xs|, c, |SplitEnforced(xs, c).value|);
  }

  lemma CountMatches(n: nat, c: nat, m: nat)
    requires 1 <= c && n / c >= 1 && m * (n / c) == n
    ensures m == c <==> n % c == 0
  {
    var size := n / c;
    assert n == c * size + n % c;
    assert size * (m - c) == m * size - c * size;
    MulAtLeast(size, m - c);
  }

  /** Six items asked for in four chunks come back in six. */
  lemma EnforcedSplitCountFails()
    ensures var xs := [1, 2, 3, 4, 5, 6]; SplitEnforced(xs, 4).Success? && |SplitEnforced(xs, 4).value| == 6
  {
    PiecesCount([1, 2, 3, 4, 5, 6], 1);
  }
}
