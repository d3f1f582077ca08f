/**
  Down-sampling groups of rollouts to N members each, and why reading the filtered batch in
  blocks of N afterwards gives back whole original groups.
*/
module DownSampling {
  import opened Arithmetic
  import opened Grouping
  import opened Sequences
  import opened Sorting

  /** The sampling options; the similarity test and the rounding are parameters. */
  datatype Config = Config(
    toN: int, rejectEqual: bool, rocErrorRatio: bool, rocAnswerFormat: bool,
    minZero: int, minNonZero: int, allClose: seq<real> -> bool, round: real -> int)

  /** Per-sequence rewards and penalty weights. */
  datatype Scores = Scores(rewards: seq<real>, errors: seq<real>, formats: seq<real>)

  ghost predicate Sized(s: Scores, n: nat) {
    |s.rewards| == |s.errors| == |s.formats| == n
  }

  // ---------- groups ----------

  /** `max(1, group_size)`. */
  function Width(groupSize: int): (g: nat)
    ensures g >= 1 && (groupSize >= 1 ==> g == groupSize) && (groupSize < 1 ==> g == 1)
  {
    Max(1, groupSize)
  }

  function Uid(i: nat, g: nat): nat
    requires 1 <= g
  {
    i / g
  }

  lemma UidMonotone(i: nat, j: nat, g: nat)
    requires 1 <= g && i <= j
    ensures Uid(i, g) <= Uid(j, g)
  {
    var p, q := i / g, j / g;
    assert i == g * p + i % g && j == g * q + j % g;
    assert g * (p - q) == g * p - g * q;
    MulAtLeast(g, p - q);
  }

  /** Group u is the block of g consecutive sequences from u * g on. */
  lemma UidIsBlock(i: nat, g: nat, u: nat)
    requires 1 <= g
    ensures Uid(i, g) == u <==> u * g <= i < u * g + g
  {
    assert i == g * (i / g) + i % g && g * (i / g) == (i / g) * g;
    if u * g <= i < u * g + g {
      DivModUnique(i, g, u, i - u * g);
    }
  }

  /** The group of each listed sequence. */
  function Uids(idxs: seq<nat>, g: nat): (r: seq<nat>)
    requires 1 <= g
    ensures |r| == |idxs| && forall i :: 0 <= i < |idxs| ==> r[i] == Uid(idxs[i], g)
  {
    seq(|idxs|, i requires 0 <= i < |idxs| => Uid(idxs[i], g))
  }

  /** `_build_group_uids_by_chunks`. */
  function AllUids(n: nat, g: nat): (r: seq<nat>)
    requires 1 <= g
    ensures |r| == n && forall i :: 0 <= i < n ==> r[i] == Uid(i, g)
  {
    Uids(Range(n), g)
  }

  /** `np.where(uids == uid)`: the indices of a group, in order. */
  function Members(n: nat, g: nat, u: nat): (r: seq<nat>)
    requires 1 <= g
    ensures forall i :: 0 <= i < |r| ==> r[i] < n
  {
    PickAre(Range(n), AllUids(n, g), u);
    Pick(Range(n), AllUids(n, g), u)
  }

  lemma MembersAre(n: nat, g: nat, u: nat)
    requires 1 <= g
    ensures Increasing(Members(n, g, u))
    ensures forall i :: i in Members(n, g, u) <==> 0 <= i < n && Uid(i, g) == u
  {
    hide Uid;
    hide Pick;
    PickIncreasing(Range(n), AllUids(n, g), u);
    forall i: nat | i < n ensures i in Members(n, g, u) <==> Uid(i, g) == u {
      PickIff(Range(n), AllUids(n, g), u, i);
      assert Range(n)[i] == i;
    }
  }

  // ---------- choosing within a group ----------

  datatype Candidate = Candidate(idx: nat, penalty: real)

  predicate Milder(a: Candidate, b: Candidate) {
    a.penalty < b.penalty
  }

  function Penalty(s: Scores, c: Config, i: nat): real
    requires i < |s.errors| && i < |s.formats|
  {
    (if c.rocErrorRatio then s.errors[i] else 0.0) + (if c.rocAnswerFormat then s.formats[i] else 0.0)
  }

  /** The members with, or without, a positive reward, in order. */
  function Candidates(s: Scores, c: Config, members: seq<nat>, positive: bool): seq<Candidate>
    requires forall i :: 0 <= i < |members| ==> members[i] < |s.rewards|
    requires |s.rewards| == |s.errors| == |s.formats|
  {
    if members == [] then []
    else
      (if (s.rewards[members[0]] > 0.0) == positive
       then [Candidate(members[0], Penalty(s, c, members[0]))] else [])
      + Candidates(s, c, members[1..], positive)
  }

  /** `xs[:q]`: a negative q counts from the end. */
  function Take<T>(xs: seq<T>, q: int): seq<T> {
    if q >= |xs| then xs
    else if q >= 0 then xs[..q]
    else if |xs| + q >= 0 then xs[..|xs| + q]
    else []
  }

  /** The quotas for candidates without and with a positive reward. */
  function Quotas(zeros: nat, nonZeros: nat, all: nat, c: Config): (int, int)
    requires all >= 1
  {
    var z0 := c.round((zeros * c.toN) as real / all as real);
    var nz0 := c.round((nonZeros * c.toN) as real / all as real);
    var (z1, nz1) := if z0 <= Min(c.minZero, zeros)
                     then (Min(c.minZero, zeros), c.toN - Min(c.minZero, zeros)) else (z0, nz0);
    if nz1 <= Min(c.minNonZero, nonZeros)
    then (c.toN - Min(c.minNonZero, nonZeros), Min(c.minNonZero, nonZeros)) else (z1, nz1)
  }

  function Idxs(cs: seq<Candidate>): (r: seq<nat>)
    ensures |r| == |cs| && forall i :: 0 <= i < |cs| ==> r[i] == cs[i].idx
  {
    Map((x: Candidate) => x.idx, cs)
  }

  /** The candidates without and, by penalty, with a positive reward, and how many of each the quotas ask for. */
  function Ranked(s: Scores, c: Config, members: seq<nat>): (r: (seq<Candidate>, seq<Candidate>, int, int))
    requires members != [] && forall i :: 0 <= i < |members| ==> members[i] < |s.rewards|
    requires |s.rewards| == |s.errors| == |s.formats|
  {
    var zeros := Candidates(s, c, members, false);
    var nonZeros := Sort(Milder, Candidates(s, c, members, true));
    var (z, nz) := Quotas(|zeros|, |nonZeros|, |members|, c);
    (zeros, nonZeros, z, nz)
  }

  /** The members of an oversized group that are kept. */
  function Choose(s: Scores, c: Config, members: seq<nat>): seq<nat>
    requires |members| > c.toN > 0
    requires forall i :: 0 <= i < |members| ==> members[i] < |s.rewards|
    requires |s.rewards| == |s.errors| == |s.formats|
  {
    var (zeros, nonZeros, z, nz) := Ranked(s, c, members);
    var chosen := Idxs(Take(nonZeros, nz)) + Idxs(Take(zeros, z));
    if |chosen| == c.toN then chosen
    else Take(Idxs(Sort(Milder, nonZeros + zeros)), c.toN)
  }

  // ---------- exactly N distinct members are chosen ----------

  lemma {:induction false} CandidatesSplit(s: Scores, c: Config, members: seq<nat>)
    requires forall i :: 0 <= i < |members| ==> members[i] < |s.rewards|
    requires |s.rewards| == |s.errors| == |s.formats|
    ensures multiset(Idxs(Candidates(s, c, members, true))) + multiset(Idxs(Candidates(s, c, members, false)))
         == multiset(members)
  {
    hide Penalty;
    if members == [] {
    } else {
      var m, rest := members[0], members[1..];
      CandidatesSplit(s, c, rest);
      assert members == [m] + rest;
      var positive := s.rewards[m] > 0.0;
      CandidateHead(s, c, members, positive);
      CandidateSkip(s, c, members, !positive);
    }
  }

  lemma CandidateHead(s: Scores, c: Config, members: seq<nat>, positive: bool)
    requires members != [] && forall i :: 0 <= i < |members| ==> members[i] < |s.rewards|
    requires |s.rewards| == |s.errors| == |s.formats| && (s.rewards[members[0]] > 0.0) == positive
    ensures Idxs(Candidates(s, c, members, positive)) == [members[0]] + Idxs(Candidates(s, c, members[1..], positive))
  {
  }

  lemma CandidateSkip(s: Scores, c: Config, members: seq<nat>, positive: bool)
    requires members != [] && forall i :: 0 <= i < |members| ==> members[i] < |s.rewards|
    requires |s.rewards| == |s.errors| == |s.formats| && (s.rewards[members[0]] > 0.0) != positive
    ensures Candidates(s, c, members, positive) == Candidates(s, c, members[1..], positive)
  {
  }

  lemma IdxsSorted(cs: seq<Candidate>)
    ensures multiset(Idxs(Sort(Milder, cs))) == multiset(Idxs(cs))
  {
    MapPermutation((x: Candidate) => x.idx, Sort(Milder, cs), cs);
  }

  lemma TakeSubset<T>(xs: seq<T>, q: int)
    ensures multiset(Take(xs, q)) <= multiset(xs)
    ensures 0 <= q <= |xs| ==> |Take(xs, q)| == q
  {
    if q < |xs| && |xs| + q >= 0 {
      var k := if q >= 0 then q else |xs| + q;
      assert xs == xs[..k] + xs[k..];
    }
  }

  lemma IdxsTake(cs: seq<Candidate>, q: int)
    ensures Idxs(Take(cs, q)) == Take(Idxs(cs), q)
  {
  }

  /** Whatever the quotas come to, the chosen are N members, none twice. */
  lemma ChoosesN(s: Scores, c: Config, members: seq<nat>)
    requires |members| > c.toN > 0
    requires forall i :: 0 <= i < |members| ==> members[i] < |s.rewards|
    requires |s.rewards| == |s.errors| == |s.formats|
    ensures |Choose(s, c, members)| == c.toN
    ensures multiset(Choose(s, c, members)) <= multiset(members)
  {
    hide Quotas;
    hide Candidates;
    hide Take;
    var (zeros, nonZeros, z, nz) := Ranked(s, c, members);
    CandidatesSplit(s, c, members);
    IdxsSorted(Candidates(s, c, members, true));
    TakeBoth(nonZeros, zeros, nz, z);
    AllSorted(nonZeros, zeros);
    TakeSubset(Idxs(Sort(Milder, nonZeros + zeros)), c.toN);
    assert |multiset(Idxs(Sort(Milder, nonZeros + zeros)))| == |multiset(members)|;
  }

  lemma TakeBoth(a: seq<Candidate>, b: seq<Candidate>, p: int, q: int)
    ensures multiset(Idxs(Take(a, p)) + Idxs(Take(b, q))) <= multiset(Idxs(a)) + multiset(Idxs(b))
  {
    IdxsTake(a, p);
    IdxsTake(b, q);
    hide Take;
    TakeSubset(Idxs(a), p);
    TakeSubset(Idxs(b), q);
  }

  lemma AllSorted(a: seq<Candidate>, b: seq<Candidate>)
    ensures multiset(Idxs(Sort(Milder, a + b))) == multiset(Idxs(a)) + multiset(Idxs(b))
  {
    hide Sort;
    IdxsSorted(a + b);
    assert Idxs(a + b) == Idxs(a) + Idxs(b);
  }

  // ---------- the mildest are chosen ----------

  predicate NotHarsher(a: Candidate, b: Candidate) {
    a.penalty <= b.penalty
  }

  lemma {:induction false} CandidatesAre(s: Scores, c: Config, members: seq<nat>, positive: bool)
    requires forall i :: 0 <= i < |members| ==> members[i] < |s.rewards|
    requires |s.rewards| == |s.errors| == |s.formats|
    ensures forall x :: x in Candidates(s, c, members, positive) <==>
              x.idx in members && (s.rewards[x.idx] > 0.0) == positive && x.penalty == Penalty(s, c, x.idx)
  {
    hide Penalty;
    if members == [] {
    } else {
      CandidatesAre(s, c, members[1..], positive);
      assert forall i :: i in members <==> i == members[0] || i in members[1..];
    }
  }

  lemma {:induction false} CandidatesIncrease(s: Scores, c: Config, members: seq<nat>, positive: bool)
    requires forall i :: 0 <= i < |members| ==> members[i] < |s.rewards|
    requires |s.rewards| == |s.errors| == |s.formats| && Increasing(members)
    ensures Increasing(Idxs(Candidates(s, c, members, positive)))
  {
    hide Penalty;
    if members == [] {
    } else {
      var rest := Candidates(s, c, members[1..], positive);
      CandidatesIncrease(s, c, members[1..], positive);
      CandidatesAre(s, c, members[1..], positive);
      forall j | 0 <= j < |rest| ensures members[0] < rest[j].idx {
        assert rest[j].idx in members[1..];
      }
    }
  }

  lemma SortedByPenalty(cs: seq<Candidate>)
    ensures Ordered(NotHarsher, Sort(Milder, cs))
    ensures forall x :: x in Sort(Milder, cs) <==> x in cs
  {
    hide Sort;
    SortOrdered(Milder, NotHarsher, cs);
    forall x ensures x in Sort(Milder, cs) <==> x in cs {
      assert x in Sort(Milder, cs) <==> x in multiset(Sort(Milder, cs));
      assert x in cs <==> x in multiset(cs);
    }
  }

  /** The entry of i was taken, the entry of k was not. */
  ghost predicate Preferred(cs: seq<Candidate>, q: int, i: nat, k: nat) {
    i in Idxs(Take(cs, q)) && k !in Idxs(Take(cs, q))
  }

  /** What is taken comes before what is not. */
  lemma TakenFirst(cs: seq<Candidate>, q: int, i: nat, y: Candidate)
    requires Preferred(cs, q, i, y.idx) && y in cs
    ensures exists a, b :: 0 <= a < b < |cs| && cs[a].idx == i && cs[b] == y
  {
    hide Idxs;
    var taken := Take(cs, q);
    assert exists cut: nat :: cut <= |cs| && taken == cs[..cut];
    var a :| 0 <= a < |taken| && Idxs(taken)[a] == i;
    var b :| 0 <= b < |cs| && cs[b] == y;
    assert forall m :: 0 <= m < |taken| ==> Idxs(taken)[m] in Idxs(taken);
    assert cs[a].idx == i && cs[b] == y;
  }

  /** The two prefixes the quotas ask for have N entries together. */
  predicate QuotasMeet(s: Scores, c: Config, members: seq<nat>)
    requires members != [] && forall i :: 0 <= i < |members| ==> members[i] < |s.rewards|
    requires |s.rewards| == |s.errors| == |s.formats|
  {
    var (zeros, nonZeros, z, nz) := Ranked(s, c, members);
    |Take(nonZeros, nz)| + |Take(zeros, z)| == c.toN
  }

  lemma ChooseIs(s: Scores, c: Config, members: seq<nat>)
    requires |members| > c.toN > 0
    requires forall i :: 0 <= i < |members| ==> members[i] < |s.rewards|
    requires |s.rewards| == |s.errors| == |s.formats|
    ensures var (zeros, nonZeros, z, nz) := Ranked(s, c, members);
            Choose(s, c, members) ==
              if QuotasMeet(s, c, members) then Idxs(Take(nonZeros, nz)) + Idxs(Take(zeros, z))
              else Idxs(Take(Sort(Milder, nonZeros + zeros), c.toN))
  {
    hide Candidates;
    hide Quotas;
    hide Take;
    hide Sort;
    var (zeros, nonZeros, z, nz) := Ranked(s, c, members);
    IdxsTake(Sort(Milder, nonZeros + zeros), c.toN);
  }

  /** The entry of a member: its index and its penalty. */
  ghost predicate EntryOf(s: Scores, c: Config, members: seq<nat>, x: Candidate)
    requires forall i :: 0 <= i < |members| ==> members[i] < |s.rewards|
    requires |s.rewards| == |s.errors| == |s.formats|
  {
    x.idx in members && x.penalty == Penalty(s, c, x.idx)
  }

  /** The ranked lists hold the entries of the members without and with a positive reward. */
  lemma RankedEntries(s: Scores, c: Config, members: seq<nat>)
    requires members != [] && forall i :: 0 <= i < |members| ==> members[i] < |s.rewards|
    requires |s.rewards| == |s.errors| == |s.formats|
    ensures var (zeros, nonZeros, z, nz) := Ranked(s, c, members);
            Ordered(NotHarsher, nonZeros) &&
            (forall x :: x in nonZeros <==> EntryOf(s, c, members, x) && s.rewards[x.idx] > 0.0) &&
            (forall x :: x in zeros <==> EntryOf(s, c, members, x) && s.rewards[x.idx] <= 0.0)
  {
    hide Candidates;
    hide Penalty;
    hide Quotas;
    hide Sort;
    CandidatesAre(s, c, members, true);
    CandidatesAre(s, c, members, false);
    SortedByPenalty(Candidates(s, c, members, true));
  }

  /** On equal penalties: positive rewards first, and then the order of the group. */
  ghost predicate FirstOnTie(s: Scores, x: Candidate, y: Candidate) {
    x.idx < |s.rewards| && y.idx < |s.rewards| &&
    (x.penalty == y.penalty ==>
      (s.rewards[x.idx] > 0.0 && s.rewards[y.idx] <= 0.0) ||
      (((s.rewards[x.idx] > 0.0) <==> (s.rewards[y.idx] > 0.0)) && x.idx < y.idx))
  }

  ghost predicate TiesRanked(s: Scores, cs: seq<Candidate>) {
    forall i, j :: 0 <= i < j < |cs| ==> FirstOnTie(s, cs[i], cs[j])
  }

  lemma SortedTies(s: Scores, cs: seq<Candidate>)
    requires TiesRanked(s, cs) && forall x :: x in cs ==> x.idx < |s.rewards|
    ensures TiesRanked(s, Sort(Milder, cs))
  {
    hide Sort;
    SortLength(Milder, cs);
    SortTies(Milder, (x: Candidate, y: Candidate) => FirstOnTie(s, x, y), cs);
  }

  lemma CandidatesRanked(s: Scores, c: Config, members: seq<nat>, positive: bool)
    requires forall i :: 0 <= i < |members| ==> members[i] < |s.rewards|
    requires |s.rewards| == |s.errors| == |s.formats| && Increasing(members)
    ensures TiesRanked(s, Candidates(s, c, members, positive))
    ensures forall x :: x in Candidates(s, c, members, positive) ==> x.idx < |s.rewards|
  {
    hide Candidates;
    hide Penalty;
    var cs := Candidates(s, c, members, positive);
    CandidatesAre(s, c, members, positive);
    CandidatesIncrease(s, c, members, positive);
    forall i, j | 0 <= i < j < |cs| ensures FirstOnTie(s, cs[i], cs[j]) {
      assert cs[i] in cs && cs[j] in cs;
      assert Idxs(cs)[i] < Idxs(cs)[j];
    }
  }

  /** The lists the choice takes from keep positive rewards and the order of the group on ties. */
  lemma RankedTies(s: Scores, c: Config, members: seq<nat>)
    requires members != [] && forall i :: 0 <= i < |members| ==> members[i] < |s.rewards|
    requires |s.rewards| == |s.errors| == |s.formats| && Increasing(members)
    ensures var (zeros, nonZeros, z, nz) := Ranked(s, c, members);
            TiesRanked(s, nonZeros) && TiesRanked(s, Sort(Milder, nonZeros + zeros))
  {
    hide Candidates;
    hide Quotas;
    hide Penalty;
    hide Sort;
    hide FirstOnTie;
    var (zeros, nonZeros, z, nz) := Ranked(s, c, members);
    CandidatesRanked(s, c, members, true);
    CandidatesRanked(s, c, members, false);
    SortedTies(s, Candidates(s, c, members, true));
    RankedEntries(s, c, members);
    forall i, j | 0 <= i < |nonZeros| && 0 <= j < |zeros| ensures FirstOnTie(s, nonZeros[i], zeros[j]) {
      PositiveFirst(s, nonZeros[i], zeros[j]);
    }
    assert forall x :: x in nonZeros + zeros ==> x in nonZeros || x in zeros;
    SortedTies(s, nonZeros + zeros);
  }

  lemma PositiveFirst(s: Scores, x: Candidate, y: Candidate)
    requires x.idx < |s.rewards| && y.idx < |s.rewards| && s.rewards[x.idx] > 0.0 && s.rewards[y.idx] <= 0.0
    ensures FirstOnTie(s, x, y)
  {
  }

  /**
    In a list of entries sorted by penalty, what is taken is no harsher than what is not, and comes first if it is as
    harsh.
  */
  lemma TakenMildest(s: Scores, c: Config, members: seq<nat>, cs: seq<Candidate>, q: int, i: nat, k: nat)
    requires forall j :: 0 <= j < |members| ==> members[j] < |s.rewards|
    requires |s.rewards| == |s.errors| == |s.formats| && i in members && k in members
    requires Ordered(NotHarsher, cs) && Preferred(cs, q, i, k) && Candidate(k, Penalty(s, c, k)) in cs
    requires TiesRanked(s, cs) && forall x :: x in cs ==> EntryOf(s, c, members, x)
    ensures Penalty(s, c, i) <= Penalty(s, c, k)
    ensures FirstOnTie(s, Candidate(i, Penalty(s, c, i)), Candidate(k, Penalty(s, c, k)))
  {
    hide Take;
    hide Idxs;
    hide Penalty;
    hide FirstOnTie;
    var y := Candidate(k, Penalty(s, c, k));
    TakenFirst(cs, q, i, y);
    var a, b :| 0 <= a < b < |cs| && cs[a].idx == i && cs[b] == y;
    assert NotHarsher(cs[a], cs[b]);
    assert cs[a] in cs;
  }

  lemma TakenEntry(cs: seq<Candidate>, q: int, i: nat)
    requires i in Idxs(Take(cs, q))
    ensures exists x :: x in cs && x.idx == i
  {
    hide Idxs;
    var taken := Take(cs, q);
    var a :| 0 <= a < |taken| && Idxs(taken)[a] == i;
    assert taken[a] in cs;
  }

  /** Member i is chosen, member k is left out. */
  ghost predicate ChosenOver(s: Scores, c: Config, members: seq<nat>, i: nat, k: nat)
    requires |members| > c.toN > 0
    requires forall j :: 0 <= j < |members| ==> members[j] < |s.rewards|
    requires |s.rewards| == |s.errors| == |s.formats|
  {
    i in members && k in members && i in Choose(s, c, members) && k !in Choose(s, c, members)
  }

  lemma QuotaMildest(s: Scores, c: Config, members: seq<nat>, i: nat, k: nat)
    requires |members| > c.toN > 0 && Increasing(members)
    requires forall j :: 0 <= j < |members| ==> members[j] < |s.rewards|
    requires |s.rewards| == |s.errors| == |s.formats| && QuotasMeet(s, c, members)
    requires ChosenOver(s, c, members, i, k) && s.rewards[i] > 0.0 && s.rewards[k] > 0.0
    ensures Penalty(s, c, i) <= Penalty(s, c, k)
    ensures FirstOnTie(s, Candidate(i, Penalty(s, c, i)), Candidate(k, Penalty(s, c, k)))
  {
    hide FirstOnTie;
    RankedTies(s, c, members);
    hide Choose;
    hide QuotasMeet;
    hide Ranked;
    hide Take;
    hide Idxs;
    hide Penalty;
    ChooseIs(s, c, members);
    RankedEntries(s, c, members);
    var (zeros, nonZeros, z, nz) := Ranked(s, c, members);
    if i in Idxs(Take(zeros, z)) {
      TakenEntry(zeros, z, i);
    }
    TakenMildest(s, c, members, nonZeros, nz, i, k);
  }

  /** Quotas that add up take the members without a positive reward in the order of the group. */
  lemma QuotaEarliest(s: Scores, c: Config, members: seq<nat>, i: nat, k: nat)
    requires |members| > c.toN > 0 && Increasing(members)
    requires forall j :: 0 <= j < |members| ==> members[j] < |s.rewards|
    requires |s.rewards| == |s.errors| == |s.formats| && QuotasMeet(s, c, members)
    requires ChosenOver(s, c, members, i, k) && s.rewards[i] <= 0.0 && s.rewards[k] <= 0.0
    ensures i < k
  {
    hide Choose;
    hide QuotasMeet;
    hide Take;
    hide Penalty;
    hide Candidates;
    hide Quotas;
    hide Sort;
    ChooseIs(s, c, members);
    RankedEntries(s, c, members);
    var (zeros, nonZeros, z, nz) := Ranked(s, c, members);
    if i in Idxs(Take(nonZeros, nz)) {
      TakenEntry(nonZeros, nz, i);
    }
    var y := Candidate(k, Penalty(s, c, k));
    TakenFirst(zeros, z, i, y);
    CandidatesIncrease(s, c, members, false);
    var a, b :| 0 <= a < b < |zeros| && zeros[a].idx == i && zeros[b] == y;
    assert Idxs(zeros)[a] < Idxs(zeros)[b];
  }

  /** Quotas that do not add up give way to the penalty alone. */
  lemma FallbackMildest(s: Scores, c: Config, members: seq<nat>, i: nat, k: nat)
    requires |members| > c.toN > 0 && Increasing(members)
    requires forall j :: 0 <= j < |members| ==> members[j] < |s.rewards|
    requires |s.rewards| == |s.errors| == |s.formats| && !QuotasMeet(s, c, members)
    requires ChosenOver(s, c, members, i, k)
    ensures Penalty(s, c, i) <= Penalty(s, c, k)
    ensures FirstOnTie(s, Candidate(i, Penalty(s, c, i)), Candidate(k, Penalty(s, c, k)))
  {
    hide FirstOnTie;
    RankedTies(s, c, members);
    hide Choose;
    hide QuotasMeet;
    hide Ranked;
    hide Take;
    hide Idxs;
    hide Penalty;
    ChooseIs(s, c, members);
    RankedEntries(s, c, members);
    var (zeros, nonZeros, z, nz) := Ranked(s, c, members);
    SortedByPenalty(nonZeros + zeros);
    TakenMildest(s, c, members, Sort(Milder, nonZeros + zeros), c.toN, i, k);
  }

  lemma PenaltyIs(s: Scores, c: Config, i: nat)
    requires i < |s.errors| && i < |s.formats|
    ensures Penalty(s, c, i)
         == (if c.rocErrorRatio then 1.0 else 0.0) * s.errors[i]
            + (if c.rocAnswerFormat then 1.0 else 0.0) * s.formats[i]
  {
  }

  /**
    Which members are chosen. The weights of the penalties that are switched on add up. Of two members with a positive
    reward, the one chosen has the smaller sum, or is the earlier one of two with the same. Of two without, it is the
    earlier one when the quotas add up to N. When they do not, the sum decides among all members, then a positive
    reward, then the order.
  */
  lemma ChoosesMildest(s: Scores, c: Config, members: seq<nat>, i: nat, k: nat)
    requires |members| > c.toN > 0 && Increasing(members)
    requires forall j :: 0 <= j < |members| ==> members[j] < |s.rewards|
    requires |s.rewards| == |s.errors| == |s.formats| && ChosenOver(s, c, members, i, k)
    ensures var e, f := if c.rocErrorRatio then 1.0 else 0.0, if c.rocAnswerFormat then 1.0 else 0.0;
            var own, other := e * s.errors[i] + f * s.formats[i], e * s.errors[k] + f * s.formats[k];
            var up, down := s.rewards[i] > 0.0, s.rewards[k] <= 0.0;
            (up && !down ==> own < other || (own == other && i < k)) &&
            (!up && down && QuotasMeet(s, c, members) ==> i < k) &&
            (!QuotasMeet(s, c, members) ==>
              own < other || (own == other && ((up && down) || (up == !down && i < k))))
  {
    hide Choose;
    hide QuotasMeet;
    hide Penalty;
    PenaltyIs(s, c, i);
    PenaltyIs(s, c, k);
    if !QuotasMeet(s, c, members) {
      FallbackMildest(s, c, members, i, k);
    } else if s.rewards[i] > 0.0 && s.rewards[k] > 0.0 {
      QuotaMildest(s, c, members, i, k);
    } else if s.rewards[i] <= 0.0 && s.rewards[k] <= 0.0 {
      QuotaEarliest(s, c, members, i, k);
    }
  }

  // ---------- how many of each are chosen ----------

  /** How many of the listed sequences have a positive reward. */
  function Positives(rewards: seq<real>, idxs: seq<nat>): (p: nat)
    requires forall i :: 0 <= i < |idxs| ==> idxs[i] < |rewards|
    ensures p <= |idxs|
  {
    if idxs == [] then 0 else (if rewards[idxs[0]] > 0.0 then 1 else 0) + Positives(rewards, idxs[1..])
  }

  lemma {:induction false} PositivesAppend(rewards: seq<real>, a: seq<nat>, b: seq<nat>)
    requires forall i :: 0 <= i < |a| ==> a[i] < |rewards|
    requires forall i :: 0 <= i < |b| ==> b[i] < |rewards|
    ensures Positives(rewards, a + b) == Positives(rewards, a) + Positives(rewards, b)
  {
    if a == [] {
      assert a + b == b;
    } else {
      assert (a + b)[1..] == a[1..] + b;
      PositivesAppend(rewards, a[1..], b);
    }
  }

  lemma {:induction false} AllOrNonePositive(rewards: seq<real>, idxs: seq<nat>, positive: bool)
    requires forall i :: 0 <= i < |idxs| ==> idxs[i] < |rewards| && (rewards[idxs[i]] > 0.0) == positive
    ensures Positives(rewards, idxs) == if positive then |idxs| else 0
  {
    if idxs == [] {
    } else {
      AllOrNonePositive(rewards, idxs[1..], positive);
    }
  }

  lemma {:induction false} CandidateCounts(s: Scores, c: Config, members: seq<nat>)
    requires forall i :: 0 <= i < |members| ==> members[i] < |s.rewards|
    requires |s.rewards| == |s.errors| == |s.formats|
    ensures |Candidates(s, c, members, true)| == Positives(s.rewards, members)
    ensures |Candidates(s, c, members, false)| == |members| - Positives(s.rewards, members)
  {
    hide Penalty;
    if members == [] {
    } else {
      CandidateCounts(s, c, members[1..]);
    }
  }

  lemma TakenOf(rewards: seq<real>, cs: seq<Candidate>, q: int, positive: bool)
    requires forall x :: x in cs ==> x.idx < |rewards| && (rewards[x.idx] > 0.0) == positive
    ensures forall i :: 0 <= i < |Take(cs, q)| ==> Idxs(Take(cs, q))[i] < |rewards|
    ensures Positives(rewards, Idxs(Take(cs, q))) == if positive then |Take(cs, q)| else 0
  {
    var taken := Take(cs, q);
    forall i | 0 <= i < |taken| ensures taken[i] in cs {
    }
    AllOrNonePositive(rewards, Idxs(taken), positive);
  }

  lemma RankedCounts(s: Scores, c: Config, members: seq<nat>)
    requires members != [] && forall i :: 0 <= i < |members| ==> members[i] < |s.rewards|
    requires |s.rewards| == |s.errors| == |s.formats|
    ensures var (zeros, nonZeros, z, nz) := Ranked(s, c, members);
            |nonZeros| == Positives(s.rewards, members) && |zeros| == |members| - Positives(s.rewards, members) &&
            (z, nz) == Quotas(|zeros|, |nonZeros|, |members|, c)
  {
    hide Candidates;
    hide Quotas;
    CandidateCounts(s, c, members);
    SortLength(Milder, Candidates(s, c, members, true));
  }

  /** The chosen members are in range, and with quotas that meet, the positive ones among them are those taken. */
  lemma ChosenPositives(s: Scores, c: Config, members: seq<nat>)
    requires |members| > c.toN > 0
    requires forall i :: 0 <= i < |members| ==> members[i] < |s.rewards|
    requires |s.rewards| == |s.errors| == |s.formats|
    ensures var chosen := Choose(s, c, members);
            |chosen| == c.toN && forall i :: 0 <= i < |chosen| ==> chosen[i] < |s.rewards|
    ensures var (zeros, nonZeros, z, nz) := Ranked(s, c, members);
            QuotasMeet(s, c, members) ==>
              Positives(s.rewards, Choose(s, c, members)) == |Take(nonZeros, nz)|
  {
    hide Choose;
    hide Ranked;
    hide Take;
    hide Penalty;
    ChoosesN(s, c, members);
    InRange(Choose(s, c, members), members, |s.rewards|);
    if QuotasMeet(s, c, members) {
      ChooseIs(s, c, members);
      RankedEntries(s, c, members);
      var (zeros, nonZeros, z, nz) := Ranked(s, c, members);
      TakenOf(s.rewards, nonZeros, nz, true);
      TakenOf(s.rewards, zeros, z, false);
      PositivesAppend(s.rewards, Idxs(Take(nonZeros, nz)), Idxs(Take(zeros, z)));
    }
  }

  lemma InRange(part: seq<nat>, whole: seq<nat>, n: nat)
    requires multiset(part) <= multiset(whole) && forall i :: 0 <= i < |whole| ==> whole[i] < n
    ensures forall i :: 0 <= i < |part| ==> part[i] < n
  {
    forall i | 0 <= i < |part| ensures part[i] < n {
      assert part[i] in multiset(part);
      assert part[i] in multiset(whole);
    }
  }

  lemma TakeLengths<T>(xs: seq<T>, q: int)
    ensures 0 <= q <= |xs| ==> |Take(xs, q)| == q
    ensures q >= |xs| ==> |Take(xs, q)| == |xs|
    ensures q < 0 ==> |Take(xs, q)| == Max(|xs| + q, 0)
  {
  }

  /**
    How many members with a positive reward are chosen. Of P positive and Z other members of a group, each gets its
    rounded share of N places. A share that does not exceed its minimum is replaced by that minimum and leaves the
    rest of the places to the others, the minimum of the positive ones deciding last.
  */
  lemma ChosenCounts(s: Scores, c: Config, members: seq<nat>)
    requires |members| > c.toN > 0
    requires forall i :: 0 <= i < |members| ==> members[i] < |s.rewards|
    requires |s.rewards| == |s.errors| == |s.formats|
    ensures var chosen := Choose(s, c, members);
            |chosen| == c.toN && forall i :: 0 <= i < |chosen| ==> chosen[i] < |s.rewards|
    ensures var N, P := c.toN, Positives(s.rewards, members);
            var Z := |members| - P;
            var shareP := c.round((P * N) as real / |members| as real);
            var shareZ := c.round((Z * N) as real / |members| as real);
            var leastP, leastZ := Min(c.minNonZero, P), Min(c.minZero, Z);
            var positives := Positives(s.rewards, Choose(s, c, members));
            (shareP > leastP && shareZ > leastZ && shareP + shareZ == N && 0 <= shareP <= P && 0 <= shareZ <= Z ==>
              positives == shareP) &&
            (shareZ <= leastZ && 0 <= leastZ && N - leastZ > leastP && 0 <= N - leastZ <= P ==>
              positives == N - leastZ) &&
            ((if shareZ <= leastZ then N - leastZ else shareP) <= leastP && 0 <= leastP && 0 <= N - leastP <= Z ==>
              positives == leastP)
  {
    hide Choose;
    hide Ranked;
    hide Take;
    RankedCounts(s, c, members);
    ChosenPositives(s, c, members);
    var (zeros, nonZeros, z, nz) := Ranked(s, c, members);
    TakeLengths(nonZeros, nz);
    TakeLengths(zeros, z);
  }

  /** Rounding to a nearest integer, ties either way. */
  ghost predicate Rounds(round: real -> int) {
    forall x {:trigger round(x)} :: -0.5 <= round(x) as real - x <= 0.5
  }

  lemma ShareInRange(n: nat, N: nat, all: nat, round: real -> int)
    requires n <= all && N <= all && all >= 1 && Rounds(round)
    ensures 0 <= round((n * N) as real / all as real) <= n
  {
    var x := (n * N) as real / all as real;
    assert x * all as real == (n * N) as real;
    MulMonotone(all, N, n);
    assert (n * N) as real <= n as real * all as real;
    assert (x - n as real) * all as real <= 0.0;
    assert x <= n as real;
    MulMonotone(n, 0, N);
    assert x >= 0.0;
  }

  lemma QuotaCases(zeros: nat, nonZeros: nat, all: nat, c: Config, shareZ: int, shareP: int)
    requires all >= 1
    requires shareZ == c.round((zeros * c.toN) as real / all as real)
    requires shareP == c.round((nonZeros * c.toN) as real / all as real)
    ensures var leastZ, leastP := Min(c.minZero, zeros), Min(c.minNonZero, nonZeros);
            Quotas(zeros, nonZeros, all, c) ==
              if (if shareZ <= leastZ then c.toN - leastZ else shareP) <= leastP then (c.toN - leastP, leastP)
              else if shareZ <= leastZ then (leastZ, c.toN - leastZ)
              else (shareZ, shareP)
  {
  }

  /** The quotas z and nz take tz of Z and tnz of P entries: when that makes N. */
  lemma MeetCases(Z: nat, P: nat, N: nat, shareZ: int, shareP: int, leastZ: nat, leastP: nat, z: int, nz: int)
    requires 0 <= shareZ <= Z && 0 <= shareP <= P && leastZ <= Z && leastP <= P && 1 <= N
    requires (z, nz) ==
               if (if shareZ <= leastZ then N - leastZ else shareP) <= leastP then (N - leastP, leastP)
               else if shareZ <= leastZ then (leastZ, N - leastZ)
               else (shareZ, shareP)
    ensures var tz := if z > Z then Z else if z >= 0 then z else Max(Z + z, 0);
            var tnz := if nz > P then P else if nz >= 0 then nz else Max(P + nz, 0);
            tnz + tz == N <==>
              if (if shareZ <= leastZ then N - leastZ else shareP) <= leastP then leastP <= N <= leastP + Z
              else if shareZ <= leastZ then N <= leastZ + P
              else shareP + shareZ == N
  {
  }

  lemma TakenSum(s: Scores, c: Config, members: seq<nat>, Z: nat, P: nat, z: int, nz: int)
    requires members != [] && forall i :: 0 <= i < |members| ==> members[i] < |s.rewards|
    requires |s.rewards| == |s.errors| == |s.formats|
    requires P == Positives(s.rewards, members) && Z == |members| - P && (z, nz) == Quotas(Z, P, |members|, c)
    ensures var tz := if z > Z then Z else if z >= 0 then z else Max(Z + z, 0);
            var tnz := if nz > P then P else if nz >= 0 then nz else Max(P + nz, 0);
            QuotasMeet(s, c, members) <==> tnz + tz == c.toN
  {
    hide Ranked;
    hide Take;
    hide Quotas;
    hide Positives;
    RankedCounts(s, c, members);
    var (zeros, nonZeros, _, _) := Ranked(s, c, members);
    TakeLengths(nonZeros, nz);
    TakeLengths(zeros, z);
  }

  /** With a rounding and minima that are not negative: exactly when the quotas can be met. */
  lemma QuotasMeetIff(s: Scores, c: Config, members: seq<nat>)
    requires |members| > c.toN > 0 && Rounds(c.round) && c.minZero >= 0 && c.minNonZero >= 0
    requires forall i :: 0 <= i < |members| ==> members[i] < |s.rewards|
    requires |s.rewards| == |s.errors| == |s.formats|
    ensures var N, P := c.toN, Positives(s.rewards, members);
            var Z := |members| - P;
            var shareP := c.round((P * N) as real / |members| as real);
            var shareZ := c.round((Z * N) as real / |members| as real);
            var leastP, leastZ := Min(c.minNonZero, P), Min(c.minZero, Z);
            QuotasMeet(s, c, members) <==>
              if (if shareZ <= leastZ then N - leastZ else shareP) <= leastP then leastP <= N <= leastP + Z
              else if shareZ <= leastZ then N <= leastZ + P
              else shareP + shareZ == N
  {
    hide Quotas;
    hide QuotasMeet;
    hide Positives;
    hide Rounds;
    var N, all, P := c.toN, |members|, Positives(s.rewards, members);
    var Z := all - P;
    ShareInRange(P, N, all, c.round);
    ShareInRange(Z, N, all, c.round);
    var shareP, shareZ := c.round((P * N) as real / all as real), c.round((Z * N) as real / all as real);
    QuotaCases(Z, P, all, c, shareZ, shareP);
    var (z, nz) := Quotas(Z, P, all, c);
    TakenSum(s, c, members, Z, P, z, nz);
    MeetCases(Z, P, N, shareZ, shareP, Min(c.minZero, Z), Min(c.minNonZero, P), z, nz);
  }

  /**
    Quotas that can be met keep the minimum of positive members. They keep the minimum of the others exactly when
    both minima together fit into N.
  */
  lemma MinimaKept(s: Scores, c: Config, members: seq<nat>)
    requires |members| > c.toN > 0 && Rounds(c.round) && c.minZero >= 0 && c.minNonZero >= 0
    requires forall i :: 0 <= i < |members| ==> members[i] < |s.rewards|
    requires |s.rewards| == |s.errors| == |s.formats| && QuotasMeet(s, c, members)
    ensures var chosen := Choose(s, c, members);
            |chosen| == c.toN && forall i :: 0 <= i < |chosen| ==> chosen[i] < |s.rewards|
    ensures var P, chosen := Positives(s.rewards, members), Choose(s, c, members);
            var leastP, leastZ := Min(c.minNonZero, P), Min(c.minZero, |members| - P);
            Positives(s.rewards, chosen) >= leastP &&
            (c.toN - Positives(s.rewards, chosen) >= leastZ <==> leastP + leastZ <= c.toN)
  {
    hide Choose;
    hide QuotasMeet;
    ChosenCounts(s, c, members);
    QuotasMeetIff(s, c, members);
    var P := Positives(s.rewards, members);
    ShareInRange(P, c.toN, |members|, c.round);
    ShareInRange(|members| - P, c.toN, |members|, c.round);
  }

  // ---------- the masks ----------

  /** What is kept of group u: nothing if it has fewer than N members, else N of them. */
  function GroupKeep(s: Scores, c: Config, n: nat, g: nat, u: nat): seq<nat>
    requires |s.rewards| == |s.errors| == |s.formats| == n && 1 <= g && c.toN > 0
  {
    MembersAre(n, g, u);
    var members := Members(n, g, u);
    if |members| < c.toN then []
    else if |members| == c.toN then members
    else Choose(s, c, members)
  }

  /** `_weighted_group_choice`. */
  function WeightedMask(s: Scores, c: Config, n: nat, g: nat): (m: seq<bool>)
    requires |s.rewards| == |s.errors| == |s.formats| == n && 1 <= g
    ensures |m| == n
  {
    seq(n, i requires 0 <= i < n => c.toN <= 0 || i in GroupKeep(s, c, n, g, Uid(i, g)))
  }

  function GroupRewards(s: Scores, n: nat, g: nat, u: nat): seq<real>
    requires |s.rewards| == n && 1 <= g
  {
    MembersAre(n, g, u);
    Gather(s.rewards, Members(n, g, u))
  }

  predicate Rejected(s: Scores, c: Config, n: nat, g: nat, u: nat)
    requires |s.rewards| == n && 1 <= g
  {
    c.rejectEqual && c.allClose(GroupRewards(s, n, g, u))
  }

  /** `_reject_equal_reward`. */
  function EqualMask(s: Scores, c: Config, n: nat, g: nat): (m: seq<bool>)
    requires |s.rewards| == n && 1 <= g
    ensures |m| == n
  {
    seq(n, i requires 0 <= i < n => !Rejected(s, c, n, g, Uid(i, g)))
  }

  function FinalMask(s: Scores, c: Config, n: nat, g: nat): (m: seq<bool>)
    requires |s.rewards| == |s.errors| == |s.formats| == n && 1 <= g
    ensures |m| == n
  {
    var m1, m2 := EqualMask(s, c, n, g), WeightedMask(s, c, n, g);
    seq(n, i requires 0 <= i < n => m1[i] && m2[i])
  }

  /** The indices a mask keeps, in order. */
  function Kept(mask: seq<bool>, at: nat): (r: seq<nat>)
    requires at <= |mask|
    ensures forall i :: 0 <= i < |r| ==> r[i] < |mask|
    decreases |mask| - at
  {
    if at == |mask| then [] else (if mask[at] then [at] else []) + Kept(mask, at + 1)
  }

  lemma {:induction false} KeptIncreasing(mask: seq<bool>, at: nat)
    requires at <= |mask|
    ensures Increasing(Kept(mask, at))
    ensures forall j :: 0 <= j < |Kept(mask, at)| ==> at <= Kept(mask, at)[j] < |mask| && mask[Kept(mask, at)[j]]
    decreases |mask| - at
  {
    if at < |mask| {
      KeptIncreasing(mask, at + 1);
    }
  }

  lemma {:induction false} KeptAll(mask: seq<bool>, at: nat, i: nat)
    requires at <= i < |mask| && mask[i]
    ensures i in Kept(mask, at)
    decreases i - at
  {
    if at < i {
      KeptAll(mask, at + 1, i);
    }
  }

  lemma KeptAre(mask: seq<bool>, at: nat)
    requires at <= |mask|
    ensures Increasing(Kept(mask, at))
    ensures forall i :: i in Kept(mask, at) <==> at <= i < |mask| && mask[i]
  {
    KeptIncreasing(mask, at);
    forall i | at <= i < |mask| && mask[i] ensures i in Kept(mask, at) {
      KeptAll(mask, at, i);
    }
  }

  // ---------- every group keeps none or exactly N ----------

  lemma DistinctPart(part: seq<nat>, whole: seq<nat>)
    requires multiset(part) <= multiset(whole) && Increasing(whole)
    ensures forall i, j :: 0 <= i < j < |part| ==> part[i] != part[j]
    ensures forall x :: x in part ==> x in whole
  {
    forall x | x in part ensures x in whole {
      assert x in multiset(part);
    }
    forall i, j | 0 <= i < j < |part| ensures part[i] != part[j] {
      if part[i] == part[j] {
        RepeatCount(part, i, j);
        assert part[i] in whole;
        var m :| 0 <= m < |whole| && whole[m] == part[i];
        CountOnce(whole, m);
      }
    }
  }

  lemma GroupKeepIs(s: Scores, c: Config, n: nat, g: nat, u: nat)
    requires Sized(s, n) && 1 <= g && c.toN > 0
    ensures var keep := GroupKeep(s, c, n, g, u);
            (keep == [] || |keep| == c.toN) &&
            (forall i, j :: 0 <= i < j < |keep| ==> keep[i] != keep[j]) &&
            (forall i :: i in keep ==> i < n && Uid(i, g) == u)
  {
    hide Choose;
    hide Uid;
    MembersAre(n, g, u);
    var members := Members(n, g, u);
    if |members| > c.toN {
      ChoosesN(s, c, members);
      DistinctPart(Choose(s, c, members), members);
    }
  }

  lemma SameMembersSameLength(a: seq<nat>, b: seq<nat>)
    requires forall i, j :: 0 <= i < j < |a| ==> a[i] != a[j]
    requires forall i, j :: 0 <= i < j < |b| ==> b[i] != b[j]
    requires forall x :: x in a <==> x in b
    ensures |a| == |b|
  {
    SetSize(a);
    SetSize(b);
    var p, q := set i | 0 <= i < |a| :: a[i], set i | 0 <= i < |b| :: b[i];
    assert forall x :: x in p <==> x in a;
    assert forall x :: x in q <==> x in b;
    assert p == q;
  }

  /** The part of a list that belongs to group u. */
  function OfGroup(kept: seq<nat>, n: nat, g: nat, u: nat): seq<nat>
    requires 1 <= g && forall i :: 0 <= i < |kept| ==> kept[i] < n
  {
    Pick(kept, AllUids(n, g), u)
  }

  lemma {:induction false} OfGroupCount(kept: seq<nat>, n: nat, g: nat, u: nat)
    requires 1 <= g && Indices(kept, n)
    ensures |OfGroup(kept, n, g, u)| == multiset(Uids(kept, g))[u]
  {
    hide Uid;
    hide AllUids;
    if kept == [] {
    } else {
      OfGroupCount(kept[1..], n, g, u);
      UidsHead(kept, g, u);
    }
  }

  lemma UidsHead(kept: seq<nat>, g: nat, u: nat)
    requires 1 <= g && kept != []
    ensures multiset(Uids(kept, g))[u] == multiset(Uids(kept[1..], g))[u] + if Uid(kept[0], g) == u then 1 else 0
  {
    hide Uid;
    assert Uids(kept, g) == [Uid(kept[0], g)] + Uids(kept[1..], g);
  }

  lemma OfGroupAre(kept: seq<nat>, n: nat, g: nat, u: nat)
    requires 1 <= g && Increasing(kept) && Indices(kept, n)
    ensures Increasing(OfGroup(kept, n, g, u))
    ensures forall i :: i in OfGroup(kept, n, g, u) <==> i in kept && Uid(i, g) == u
  {
    hide Uid;
    hide Pick;
    hide AllUids;
    PickIncreasing(kept, AllUids(n, g), u);
    PickAre(kept, AllUids(n, g), u);
    forall i: nat | i < n ensures i in OfGroup(kept, n, g, u) <==> i in kept && Uid(i, g) == u {
      PickIff(kept, AllUids(n, g), u, i);
    }
  }

  ghost predicate NoneOrN(uids: seq<nat>, N: nat) {
    forall u :: multiset(uids)[u] == 0 || multiset(uids)[u] == N
  }

  /** Every original group keeps no member or exactly N members. */
  lemma GroupsKeepNoneOrN(s: Scores, c: Config, n: nat, g: nat)
    requires Sized(s, n) && 1 <= g && c.toN > 0
    ensures NoneOrN(Uids(Kept(FinalMask(s, c, n, g), 0), g), c.toN)
  {
    var mask := FinalMask(s, c, n, g);
    var kept := Kept(mask, 0);
    KeptAre(mask, 0);
    forall u ensures multiset(Uids(kept, g))[u] == 0 || multiset(Uids(kept, g))[u] == c.toN {
      GroupCount(s, c, n, g, u);
    }
  }

  /** The kept members of group u: what the group keeps, unless the group is rejected. */
  lemma KeptOfGroup(s: Scores, c: Config, n: nat, g: nat, u: nat)
    requires Sized(s, n) && 1 <= g && c.toN > 0
    ensures var mine := OfGroup(Kept(FinalMask(s, c, n, g), 0), n, g, u);
            Increasing(mine) &&
            forall i :: i in mine <==> i in GroupKeep(s, c, n, g, u) && !Rejected(s, c, n, g, u)
  {
    hide GroupKeep;
    hide Rejected;
    hide Uid;
    hide OfGroup;
    hide Kept;
    var mask := FinalMask(s, c, n, g);
    KeptAre(mask, 0);
    OfGroupAre(Kept(mask, 0), n, g, u);
    GroupKeepIs(s, c, n, g, u);
  }

  lemma GroupCount(s: Scores, c: Config, n: nat, g: nat, u: nat)
    requires Sized(s, n) && 1 <= g && c.toN > 0
    ensures var count := multiset(Uids(Kept(FinalMask(s, c, n, g), 0), g))[u];
            count == if Rejected(s, c, n, g, u) then 0 else |GroupKeep(s, c, n, g, u)|
    ensures GroupKeep(s, c, n, g, u) == [] || |GroupKeep(s, c, n, g, u)| == c.toN
  {
    hide GroupKeep;
    hide Rejected;
    hide Uid;
    hide FinalMask;
    hide OfGroup;
    hide Uids;
    var kept := Kept(FinalMask(s, c, n, g), 0);
    OfGroupCount(kept, n, g, u);
    KeptOfGroup(s, c, n, g, u);
    GroupKeepIs(s, c, n, g, u);
    SameMembersSameLength(OfGroup(kept, n, g, u), if Rejected(s, c, n, g, u) then [] else GroupKeep(s, c, n, g, u));
  }

  // ---------- blocks of N ----------

  ghost predicate Ascending(uids: seq<nat>) {
    forall i, j :: 0 <= i < j < |uids| ==> uids[i] <= uids[j]
  }

  /** How many entries at the front equal u. */
  function Run(uids: seq<nat>, u: nat): (p: nat)
    ensures p <= |uids| && forall i :: 0 <= i < p ==> uids[i] == u
    ensures p < |uids| ==> uids[p] != u
  {
    if uids == [] || uids[0] != u then 0
    else
      var p := Run(uids[1..], u);
      assert forall i :: 1 <= i < 1 + p ==> uids[i] == uids[1..][i - 1];
      1 + p
  }

  lemma {:induction false} RunIsCount(uids: seq<nat>, u: nat)
    requires Ascending(uids) && forall i :: 0 <= i < |uids| ==> uids[i] >= u
    ensures multiset(uids)[u] == Run(uids, u)
    ensures forall i :: Run(uids, u) <= i < |uids| ==> uids[i] > u
  {
    if uids == [] {
    } else {
      assert uids == [uids[0]] + uids[1..];
      if uids[0] == u {
        RunIsCount(uids[1..], u);
        assert forall i :: 1 <= i < |uids| ==> uids[i] == uids[1..][i - 1];
      } else {
        assert u !in uids;
      }
    }
  }

  /** Blocks of N entries: constant within a block, growing from block to block. */
  ghost predicate Blocked(uids: seq<nat>, N: nat)
    requires N >= 1
  {
    uids == [] || (
      |uids| >= N &&
      (forall i :: 0 <= i < N ==> uids[i] == uids[0]) &&
      (|uids| > N ==> uids[N] > uids[0]) &&
      Blocked(uids[N..], N))
  }

  /** A first block of N equal entries, all smaller than the rest, leaves none or N of every number. */
  lemma RestKeepsNoneOrN(uids: seq<nat>, N: nat)
    requires 1 <= N <= |uids| && NoneOrN(uids, N)
    requires forall i :: 0 <= i < N ==> uids[i] == uids[0]
    requires forall i :: N <= i < |uids| ==> uids[i] > uids[0]
    ensures NoneOrN(uids[N..], N)
  {
    var block, rest := uids[..N], uids[N..];
    assert uids == block + rest;
    forall v ensures multiset(rest)[v] == 0 || multiset(rest)[v] == N {
      if v == uids[0] {
        assert v !in rest;
      } else {
        assert v !in block;
        assert multiset(uids)[v] == multiset(rest)[v];
      }
    }
  }

  lemma {:induction false} AscendingBlocks(uids: seq<nat>, N: nat)
    requires N >= 1 && Ascending(uids) && NoneOrN(uids, N)
    ensures Blocked(uids, N)
    decreases |uids|
  {
    if uids == [] {
    } else {
      RunIsCount(uids, uids[0]);
      assert uids[0] in multiset(uids);
      RestKeepsNoneOrN(uids, N);
      AscendingBlocks(uids[N..], N);
    }
  }

  lemma {:induction false} BlockedAt(uids: seq<nat>, N: nat, b: nat, j: nat)
    requires N >= 1 && Blocked(uids, N) && b * N < |uids| && j < N
    ensures 0 <= b * N && b * N + j < |uids| && uids[b * N + j] == uids[b * N]
    ensures b * N + N < |uids| ==> uids[b * N] < uids[b * N + N]
    decreases b
  {
    if b == 0 {
    } else {
      MulStep(b - 1, N);
      MulMonotone(b - 1, 0, N);
      BlockedAt(uids[N..], N, b - 1, j);
    }
  }

  lemma {:induction false} BlockedLength(uids: seq<nat>, N: nat)
    requires N >= 1 && Blocked(uids, N)
    ensures |uids| % N == 0
    decreases |uids|
  {
    if uids != [] {
      BlockedLength(uids[N..], N);
      ModStep(|uids|, N);
    } else {
      DivModUnique(0, N, 0, 0);
    }
  }

  /** The sequences kept, in order. */
  function KeptSequences(s: Scores, c: Config, n: nat, groupSize: int): seq<nat>
    requires |s.rewards| == |s.errors| == |s.formats| == n
  {
    Kept(FinalMask(s, c, n, Width(groupSize)), 0)
  }

  lemma KeptBlocks(s: Scores, c: Config, n: nat, groupSize: int)
    requires Sized(s, n) && c.toN > 0
    ensures var kept := KeptSequences(s, c, n, groupSize);
            Increasing(kept) && (forall i :: 0 <= i < |kept| ==> kept[i] < n) &&
            Blocked(Uids(kept, Width(groupSize)), c.toN)
  {
    hide Uid;
    hide FinalMask;
    hide Blocked;
    var g := Width(groupSize);
    var kept := KeptSequences(s, c, n, groupSize);
    KeptAre(FinalMask(s, c, n, g), 0);
    assert forall i :: 0 <= i < |kept| ==> kept[i] in kept;
    GroupsKeepNoneOrN(s, c, n, g);
    var uids := Uids(kept, g);
    forall i, j | 0 <= i < j < |uids| ensures uids[i] <= uids[j] {
      UidMonotone(kept[i], kept[j], g);
    }
    AscendingBlocks(uids, c.toN);
  }

  /**
    Main result. After down-sampling to N, read the kept sequences in blocks of N: the length is a multiple of N,
    the order is the original order, block b is one original group, and the next block is a later group.
  */
  lemma RegroupsCorrectly(s: Scores, c: Config, n: nat, groupSize: int, b: nat, j: nat)
    requires Sized(s, n) && c.toN > 0 && j < c.toN
    requires b * c.toN < |KeptSequences(s, c, n, groupSize)|
    ensures var g, N, kept := Width(groupSize), c.toN, KeptSequences(s, c, n, groupSize);
            Increasing(kept) && |kept| % N == 0 && 0 <= b * N && b * N + j < |kept| &&
            Uid(kept[b * N + j], g) == Uid(kept[b * N], g) &&
            (b * N + N < |kept| ==> Uid(kept[b * N], g) < Uid(kept[b * N + N], g))
  {
    hide Uid;
    hide KeptSequences;
    hide Blocked;
    var kept := KeptSequences(s, c, n, groupSize);
    var uids := Uids(kept, Width(groupSize));
    KeptBlocks(s, c, n, groupSize);
    BlockedLength(uids, c.toN);
    BlockedAt(uids, c.toN, b, j);
  }

  // ---------- exactly which sequences are kept ----------

  lemma {:induction false} IncreasingSame(a: seq<nat>, b: seq<nat>)
    requires Increasing(a) && Increasing(b) && forall x :: x in a <==> x in b
    ensures a == b
  {
    SameMembersSameLength(a, b);
    if a == [] {
    } else {
      assert a[0] in b && b[0] in a;
      assert a[0] == b[0];
      forall x ensures x in a[1..] <==> x in b[1..] {
        assert x in a <==> x == a[0] || x in a[1..];
        assert x in b <==> x == b[0] || x in b[1..];
      }
      IncreasingSame(a[1..], b[1..]);
      assert a == [a[0]] + a[1..] && b == [b[0]] + b[1..];
    }
  }

  /** The numbers from lo on, below hi. */
  function Span(lo: nat, hi: nat): (r: seq<nat>)
    requires lo <= hi
    ensures |r| == hi - lo && forall j :: 0 <= j < |r| ==> r[j] == lo + j
  {
    seq(hi - lo, j => lo + j)
  }

  /** The members of a group are the consecutive sequences of its block. */
  lemma MembersAreBlock(n: nat, g: nat, u: nat)
    requires 1 <= g && u * g <= n
    ensures 0 <= u * g <= Min(n, u * g + g) && Members(n, g, u) == Span(u * g, Min(n, u * g + g))
  {
    MulMonotone(u, 0, g);
    var block := Span(u * g, Min(n, u * g + g));
    MembersAre(n, g, u);
    forall x: nat ensures x in Members(n, g, u) <==> x in block {
      UidIsBlock(x, g, u);
      if u * g <= x < Min(n, u * g + g) {
        assert block[x - u * g] == x;
      }
    }
    IncreasingSame(Members(n, g, u), block);
  }

  lemma InKept(s: Scores, c: Config, n: nat, groupSize: int, i: nat)
    requires Sized(s, n) && i < n
    ensures var g := Width(groupSize);
            i in KeptSequences(s, c, n, groupSize) <==>
              !Rejected(s, c, n, g, Uid(i, g)) && (c.toN > 0 ==> i in GroupKeep(s, c, n, g, Uid(i, g)))
  {
    hide Rejected;
    hide GroupKeep;
    hide Uid;
    hide FinalMask;
    var g := Width(groupSize);
    MaskAt(s, c, n, g, i);
    KeptAre(FinalMask(s, c, n, g), 0);
  }

  /**
    A sequence is kept exactly when the rewards of its block of the batch are not rejected as close and, when sampling
    to N, its block has N members, or more and it is chosen among them.
  */
  lemma KeptIff(s: Scores, c: Config, n: nat, groupSize: int, i: nat)
    requires Sized(s, n) && i < n
    ensures var g := if groupSize >= 1 then groupSize else 1;
            var lo := i / g * g;
            var hi := Min(n, lo + g);
            0 <= lo <= i < hi <= n &&
            (i in KeptSequences(s, c, n, groupSize) <==>
              !(c.rejectEqual && c.allClose(s.rewards[lo..hi])) &&
              (c.toN <= 0 || hi - lo == c.toN || (hi - lo > c.toN && i in Choose(s, c, Span(lo, hi)))))
  {
    hide Choose;
    hide KeptSequences;
    hide Members;
    var g := Width(groupSize);
    var u := i / g;
    InKept(s, c, n, groupSize, i);
    UidIsBlock(i, g, u);
    MulMonotone(u, 0, g);
    MembersAreBlock(n, g, u);
    var lo, hi := u * g, Min(n, u * g + g);
    assert Gather(s.rewards, Span(lo, hi)) == s.rewards[lo..hi];
    assert Span(lo, hi)[i - lo] == i;
  }

  // ---------- when the stored number of sequences stays right ----------

  /** The number of kept entries is the number of entries exactly when the mask drops nothing. */
  lemma {:induction false} NothingDropped(mask: seq<bool>, at: nat)
    requires at <= |mask|
    ensures |Kept(mask, at)| <= |mask| - at
    ensures |Kept(mask, at)| == |mask| - at <==> forall i :: at <= i < |mask| ==> mask[i]
    decreases |mask| - at
  {
    if at == |mask| {
    } else {
      NothingDropped(mask, at + 1);
    }
  }

  /** No group is rejected, and when sampling to N every group has exactly N members already. */
  ghost predicate NothingToDrop(s: Scores, c: Config, n: nat, g: nat)
    requires |s.rewards| == n && 1 <= g
  {
    forall u :: Members(n, g, u) != [] ==> !Rejected(s, c, n, g, u) && (c.toN > 0 ==> |Members(n, g, u)| == c.toN)
  }

  lemma MaskAt(s: Scores, c: Config, n: nat, g: nat, i: nat)
    requires Sized(s, n) && 1 <= g && i < n
    ensures FinalMask(s, c, n, g)[i] <==>
            !Rejected(s, c, n, g, Uid(i, g)) && (c.toN > 0 ==> i in GroupKeep(s, c, n, g, Uid(i, g)))
  {
    hide Rejected;
    hide GroupKeep;
    hide Uid;
  }

  lemma WholeGroupKept(s: Scores, c: Config, n: nat, g: nat, i: nat)
    requires Sized(s, n) && 1 <= g && i < n && NothingToDrop(s, c, n, g)
    ensures FinalMask(s, c, n, g)[i]
  {
    hide Rejected;
    hide Uid;
    hide Members;
    hide FinalMask;
    MaskAt(s, c, n, g, i);
    MembersAre(n, g, Uid(i, g));
    assert i in Members(n, g, Uid(i, g));
  }

  lemma KeptGroupIsWhole(s: Scores, c: Config, n: nat, g: nat, u: nat)
    requires Sized(s, n) && 1 <= g && Members(n, g, u) != []
    requires forall i :: 0 <= i < n ==> FinalMask(s, c, n, g)[i]
    ensures !Rejected(s, c, n, g, u) && (c.toN > 0 ==> |Members(n, g, u)| == c.toN)
  {
    hide Rejected;
    hide Uid;
    hide Members;
    hide FinalMask;
    hide GroupKeep;
    MembersAre(n, g, u);
    var members := Members(n, g, u);
    forall i | i in members
      ensures !Rejected(s, c, n, g, u) && (c.toN > 0 ==> i in GroupKeep(s, c, n, g, u))
    {
      MaskAt(s, c, n, g, i);
    }
    assert members[0] in members;
    if c.toN > 0 {
      GroupKeepIs(s, c, n, g, u);
      SameMembersSameLength(GroupKeep(s, c, n, g, u), members);
    }
  }

  /** The stored number of sequences is right afterwards exactly when there was nothing to drop. */
  lemma NumberStaysRight(s: Scores, c: Config, n: nat, groupSize: int)
    requires Sized(s, n)
    ensures |KeptSequences(s, c, n, groupSize)| == n <==> NothingToDrop(s, c, n, Width(groupSize))
  {
    hide FinalMask;
    hide Rejected;
    hide Members;
    hide Kept;
    var g := Width(groupSize);
    var mask := FinalMask(s, c, n, g);
    NothingDropped(mask, 0);
    if NothingToDrop(s, c, n, g) {
      forall i | 0 <= i < n ensures mask[i] {
        WholeGroupKept(s, c, n, g, i);
      }
    }
    if |Kept(mask, 0)| == n {
      forall u | Members(n, g, u) != []
        ensures !Rejected(s, c, n, g, u) && (c.toN > 0 ==> |Members(n, g, u)| == c.toN)
      {
        KeptGroupIsWhole(s, c, n, g, u);
      }
    }
  }

  /** One group of four sampled to two keeps another number of sequences than is stored. */
  lemma NumberGoesStale(s: Scores, c: Config)
    requires Sized(s, 4) && c.toN == 2
    ensures |KeptSequences(s, c, 4, 4)| != 4
  {
    hide Rejected;
    hide Members;
    hide KeptSequences;
    NumberStaysRight(s, c, 4, 4);
    MembersAre(4, 4, 0);
    forall i ensures i in Range(4) <==> 0 <= i < 4 {
      if 0 <= i < 4 { assert Range(4)[i] == i; }
    }
    SameMembersSameLength(Members(4, 4, 0), Range(4));
  }

  // ---------- the program ----------

  /** With neither penalty switched on the penalty is a plain number, which cannot be paired with a group's members. */
  ghost predicate Unpaired(c: Config, n: nat, g: nat)
    requires 1 <= g
  {
    c.toN > 0 && !c.rocErrorRatio && !c.rocAnswerFormat && exists u :: |Members(n, g, u)| > c.toN
  }

  function GroupCountOf(n: nat, g: nat): nat
    requires 1 <= g
  {
    if n == 0 then 0 else Uid(n - 1, g) + 1
  }

  lemma NoMembersBeyond(n: nat, g: nat, u: nat)
    requires 1 <= g && u >= GroupCountOf(n, g)
    ensures Members(n, g, u) == []
  {
    hide Uid;
    MembersAre(n, g, u);
    var m := Members(n, g, u);
    if m != [] {
      assert m[0] in m;
      UidMonotone(m[0], n - 1, g);
    }
  }

  /** `_weighted_group_choice`, writing the mask group by group. */
  method WeightedGroupChoice(s: Scores, c: Config, n: nat, g: nat) returns (ok: bool, mask: array<bool>)
    requires Sized(s, n) && 1 <= g
    ensures fresh(mask) && mask.Length == n
    ensures ok <==> !Unpaired(c, n, g)
    ensures ok ==> mask[..] == WeightedMask(s, c, n, g)
  {
    hide GroupKeep;
    hide Uid;
    if c.toN <= 0 {
      mask := new bool[n](_ => true);
      return true, mask;
    }
    mask := new bool[n](_ => false);
    var u := 0;
    while u < GroupCountOf(n, g)
      invariant 0 <= u && mask.Length == n
      invariant forall i :: 0 <= i < n ==> (mask[i] <==> Uid(i, g) < u && i in GroupKeep(s, c, n, g, Uid(i, g)))
      invariant !c.rocErrorRatio && !c.rocAnswerFormat ==> forall v :: 0 <= v < u ==> |Members(n, g, v)| <= c.toN
      decreases GroupCountOf(n, g) - u
    {
      if |Members(n, g, u)| > c.toN && !c.rocErrorRatio && !c.rocAnswerFormat {
        return false, mask;
      }
      var keep := GroupKeep(s, c, n, g, u);
      GroupKeepIs(s, c, n, g, u);
      SetAll(mask, keep, true);
      u := u + 1;
    }
    AllGroupsSeen(c, n, g, u);
    forall i | 0 <= i < n ensures Uid(i, g) < u {
      UidMonotone(i, n - 1, g);
    }
    ok := true;
  }

  lemma AllGroupsSeen(c: Config, n: nat, g: nat, u: nat)
    requires 1 <= g && u >= GroupCountOf(n, g)
    requires !c.rocErrorRatio && !c.rocAnswerFormat ==> forall v :: 0 <= v < u ==> |Members(n, g, v)| <= c.toN
    ensures !Unpaired(c, n, g)
  {
    if c.toN > 0 && !c.rocErrorRatio && !c.rocAnswerFormat {
      forall v | v >= u ensures |Members(n, g, v)| <= c.toN {
        NoMembersBeyond(n, g, v);
      }
    }
  }

  /** `mask[idxs] = value`. */
  method SetAll(mask: array<bool>, idxs: seq<nat>, value: bool)
    requires forall i :: i in idxs ==> i < mask.Length
    modifies mask
    ensures forall i :: 0 <= i < mask.Length ==> mask[i] == if i in idxs then value else old(mask[i])
  {
    var j := 0;
    while j < |idxs|
      invariant 0 <= j <= |idxs|
      invariant forall i :: 0 <= i < mask.Length ==> mask[i] == if i in idxs[..j] then value else old(mask[i])
    {
      assert idxs[j] in idxs && idxs[..j + 1] == idxs[..j] + [idxs[j]];
      mask[idxs[j]] := value;
      j := j + 1;
    }
    assert idxs[..j] == idxs;
  }

  /** `_reject_equal_reward`. */
  method RejectEqualReward(s: Scores, c: Config, n: nat, g: nat) returns (mask: array<bool>)
    requires Sized(s, n) && 1 <= g
    ensures fresh(mask) && mask.Length == n && mask[..] == EqualMask(s, c, n, g)
  {
    hide Uid;
    hide GroupRewards;
    mask := new bool[n](_ => true);
    if !c.rejectEqual {
      return;
    }
    var u := 0;
    while u < GroupCountOf(n, g)
      invariant 0 <= u && mask.Length == n
      invariant forall i :: 0 <= i < n ==> (mask[i] <==> Uid(i, g) >= u || !Rejected(s, c, n, g, Uid(i, g)))
      decreases GroupCountOf(n, g) - u
    {
      if c.allClose(GroupRewards(s, n, g, u)) {
        MembersAre(n, g, u);
        SetAll(mask, Members(n, g, u), false);
      }
      u := u + 1;
    }
    forall i | 0 <= i < n ensures Uid(i, g) < u {
      UidMonotone(i, n - 1, g);
    }
  }

  /**
    A batch of rollouts: parallel lists, one entry per sequence. Optional lists that are not set are not in the
    map.
  */
  class RolloutResult {
    var numSequence: nat
    var groupSize: int
    var rewards: seq<real>
    var fields: map<string, seq<int>>

    ghost predicate Valid()
      reads this
    {
      |rewards| == numSequence && forall k :: k in fields ==> |fields[k]| == numSequence
    }

    constructor (numSequence: nat, groupSize: int, rewards: seq<real>, fields: map<string, seq<int>>)
      requires |rewards| == numSequence && forall k :: k in fields ==> |fields[k]| == numSequence
      ensures Valid() && this.numSequence == numSequence && this.groupSize == groupSize
      ensures this.rewards == rewards && this.fields == fields
    {
      this.numSequence, this.groupSize, this.rewards, this.fields := numSequence, groupSize, rewards, fields;
    }

    /**
      `down_sample_batch`. Every list is reduced to the same kept indices; the stored number of sequences is not
      updated, so afterwards it is right only if there was nothing to drop.
    */
    method DownSample(c: Config, errors: seq<real>, formats: seq<real>) returns (ok: bool)
      requires Valid() && |errors| == |formats| == numSequence
      modifies this
      ensures numSequence == old(numSequence)
      ensures ok <==> !Unpaired(c, numSequence, Width(old(groupSize)))
      ensures !ok ==> rewards == old(rewards) && fields == old(fields) && groupSize == old(groupSize)
      ensures ok ==> groupSize == if c.toN > 0 then c.toN else old(groupSize)
      ensures ok ==>
        var kept := KeptSequences(Scores(old(rewards), errors, formats), c, numSequence, old(groupSize));
        (forall i :: 0 <= i < |kept| ==> kept[i] < numSequence) &&
        rewards == Gather(old(rewards), kept) && fields.Keys == old(fields.Keys) &&
        forall k :: k in fields ==> fields[k] == Gather(old(fields)[k], kept)
      ensures ok ==> (Valid() <==>
        NothingToDrop(Scores(old(rewards), errors, formats), c, numSequence, Width(old(groupSize))))
    {
      hide Uid;
      hide NothingToDrop;
      var n := numSequence;
      var s := Scores(rewards, errors, formats);
      var g := Width(groupSize);
      var mask1 := RejectEqualReward(s, c, numSequence, g);
      var chosen, mask2 := WeightedGroupChoice(s, c, numSequence, g);
      if !chosen {
        return false;
      }
      var final := seq(n, i requires 0 <= i < n && mask1.Length == mask2.Length == n reads mask1, mask2 =>
        mask1[i] && mask2[i]);
      assert final == FinalMask(s, c, numSequence, g);
      var kept := Kept(final, 0);
      NumberStaysRight(s, c, n, groupSize);
      rewards := Gather(rewards, kept);
      fields := FilterFields(fields, numSequence, kept);
      if c.toN > 0 {
        groupSize := c.toN;
      }
      ok := true;
    }
  }

  /** Applying the mask to one list after the other. */
  method FilterFields(fields: map<string, seq<int>>, n: nat, kept: seq<nat>) returns (r: map<string, seq<int>>)
    requires forall k :: k in fields ==> |fields[k]| == n
    requires forall i :: 0 <= i < |kept| ==> kept[i] < n
    ensures r.Keys == fields.Keys && forall k :: k in fields ==> r[k] == Gather(fields[k], kept)
  {
    r := map[];
    var todo := fields.Keys;
    while todo != {}
      invariant todo <= fields.Keys && r.Keys == fields.Keys - todo
      invariant forall k :: k in r ==> r[k] == Gather(fields[k], kept)
      decreases |todo|
    {
      var k :| k in todo;
      r := r[k := Gather(fields[k], kept)];
      todo := todo - {k};
    }
  }
}
