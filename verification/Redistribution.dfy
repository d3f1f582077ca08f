/**
  Redistribution of rollout batches over data-parallel ranks: gather every rank's columns, pad to a
  multiple of (ranks * chunk), partition with equal sizes, and let each rank select its part.
*/
module Redistribution {
  import opened Arithmetic
  import opened Sequences
  import opened BalancedPartitions
  import opened KarmarkarKarp
  import opened KarmarkarKarpBalance
  import opened KarmarkarKarpHeap

  /** A batch is a dictionary of columns. */
  type Columns = map<string, seq<int>>
  type Row = map<string, int>

  ghost predicate Shaped(cols: Columns, keys: set<string>, n: nat) {
    cols.Keys == keys && forall k :: k in keys ==> |cols[k]| == n
  }

  /** What the leading assertions demand: the same columns everywhere, of one length per rank, and one pad row. */
  ghost predicate Gathered(ranks: seq<Columns>, sizes: seq<nat>, pad: Columns) {
    && |sizes| == |ranks|
    && "input_ids" in pad && "prompt_lengths" in pad && "response_lengths" in pad
    && Shaped(pad, pad.Keys, 1)
    && AllShaped(ranks, sizes, pad.Keys)
  }

  ghost predicate AllShaped(ranks: seq<Columns>, sizes: seq<nat>, keys: set<string>)
    requires |sizes| == |ranks|
  {
    && (forall r, k :: 0 <= r < |ranks| ==> (k in ranks[r] <==> k in keys))
    && (forall r, k :: 0 <= r < |ranks| && k in keys ==> |ranks[r][k]| == sizes[r])
  }

  function RowAt(cols: Columns, i: nat): Row
    requires forall k :: k in cols ==> i < |cols[k]|
  {
    map k | k in cols :: cols[k][i]
  }

  function Rows(cols: Columns, n: nat): (r: seq<Row>)
    requires forall k :: k in cols ==> |cols[k]| == n
    ensures |r| == n
  {
    seq(n, i requires 0 <= i < n => RowAt(cols, i))
  }

  // ---------- padding ----------

  function PadSize(total: nat, unit: nat): (p: nat)
    requires 1 <= unit
  {
    if total % unit == 0 then 0 else unit - total % unit
  }

  /** The padding is the least amount that reaches a multiple of the unit. */
  lemma PadSizeIsLeast(total: nat, unit: nat, p: nat)
    requires 1 <= unit
    ensures Whole(total + PadSize(total, unit), unit)
    ensures Whole(total + p, unit) ==> PadSize(total, unit) <= p
  {
    var q, m := total / unit, total % unit;
    assert total == unit * q + m;
    if m > 0 {
      assert total + (unit - m) == unit * (q + 1) + 0;
      DivModUnique(total + (unit - m), unit, q + 1, 0);
    }
    if p < PadSize(total, unit) {
      assert total + p == unit * q + (m + p);
      DivModUnique(total + p, unit, q, m + p);
    }
  }

  // ---------- merging the columns ----------

  function Column(ranks: seq<Columns>, k: string): (r: seq<seq<int>>)
    requires forall r :: 0 <= r < |ranks| ==> k in ranks[r]
    ensures |r| == |ranks|
  {
    seq(|ranks|, r requires 0 <= r < |ranks| => ranks[r][k])
  }

  /** `torch.cat` of every rank's column and the pads. */
  function MergedColumn(ranks: seq<Columns>, pad: Columns, padSize: nat, k: string): seq<int>
    requires k in pad && |pad[k]| == 1
    requires forall r :: 0 <= r < |ranks| ==> k in ranks[r]
  {
    Flatten(Column(ranks, k)) + Repeat(pad[k][0], padSize)
  }

  function Merged(ranks: seq<Columns>, sizes: seq<nat>, pad: Columns, padSize: nat): Columns
    requires Gathered(ranks, sizes, pad)
  {
    map k | k in pad :: MergedColumn(ranks, pad, padSize, k)
  }

  /** The rows of all ranks together. */
  function Total(sizes: seq<nat>): nat {
    SumLowerBound(sizes, 0);
    Sum(sizes)
  }

  /** All ranks' rows, rank after rank. */
  ghost function AllRows(ranks: seq<Columns>, sizes: seq<nat>, keys: set<string>): (r: seq<Row>)
    requires |sizes| == |ranks| && AllShaped(ranks, sizes, keys)
    ensures |r| == Total(sizes)
  {
    if ranks == [] then []
    else
      assert forall k :: k in ranks[0] ==> k in keys && |ranks[0][k]| == sizes[0];
      Rows(ranks[0], sizes[0]) + AllRows(ranks[1..], sizes[1..], keys)
  }

  lemma {:induction false} GatheredColumn(ranks: seq<Columns>, sizes: seq<nat>, keys: set<string>, k: string)
    requires |sizes| == |ranks| && k in keys && AllShaped(ranks, sizes, keys)
    ensures |Flatten(Column(ranks, k))| == Total(sizes)
    ensures forall i :: 0 <= i < Total(sizes) ==>
              AllRows(ranks, sizes, keys)[i].Keys == keys &&
              AllRows(ranks, sizes, keys)[i][k] == Flatten(Column(ranks, k))[i]
  {
    if ranks == [] {
    } else {
      GatheredColumn(ranks[1..], sizes[1..], keys, k);
      assert Column(ranks, k)[1..] == Column(ranks[1..], k);
    }
  }

  /** Row i of the merged batch is row i of the gathered ranks, or a pad. */
  lemma MergedRows(ranks: seq<Columns>, sizes: seq<nat>, pad: Columns, padSize: nat)
    requires Gathered(ranks, sizes, pad)
    ensures Shaped(Merged(ranks, sizes, pad, padSize), pad.Keys, Total(sizes) + padSize)
    ensures Rows(Merged(ranks, sizes, pad, padSize), Total(sizes) + padSize)
         == AllRows(ranks, sizes, pad.Keys) + Repeat(RowAt(pad, 0), padSize)
  {
    var m, n := Merged(ranks, sizes, pad, padSize), Total(sizes) + padSize;
    forall k | k in pad ensures |m[k]| == n {
      GatheredColumn(ranks, sizes, pad.Keys, k);
    }
    var rows := AllRows(ranks, sizes, pad.Keys) + Repeat(RowAt(pad, 0), padSize);
    forall i | 0 <= i < n ensures RowAt(m, i) == rows[i] {
      MergedRowAt(ranks, sizes, pad, padSize, i);
    }
  }

  lemma MergedRowAt(ranks: seq<Columns>, sizes: seq<nat>, pad: Columns, padSize: nat, i: nat)
    requires Gathered(ranks, sizes, pad) && i < Total(sizes) + padSize
    requires Shaped(Merged(ranks, sizes, pad, padSize), pad.Keys, Total(sizes) + padSize)
    ensures RowAt(Merged(ranks, sizes, pad, padSize), i)
         == (AllRows(ranks, sizes, pad.Keys) + Repeat(RowAt(pad, 0), padSize))[i]
  {
    hide AllShaped;
    hide AllRows;
    hide Flatten;
    hide Column;
    var row := (AllRows(ranks, sizes, pad.Keys) + Repeat(RowAt(pad, 0), padSize))[i];
    GatheredColumn(ranks, sizes, pad.Keys, "input_ids");
    forall k | k in pad ensures RowAt(Merged(ranks, sizes, pad, padSize), i)[k] == row[k] {
      GatheredColumn(ranks, sizes, pad.Keys, k);
    }
  }

  // ---------- selecting ----------

  /** `{k: v[self_partition]}`. */
  function Select(cols: Columns, p: seq<nat>): Columns
    requires forall k, i :: k in cols && 0 <= i < |p| ==> p[i] < |cols[k]|
  {
    map k | k in cols :: Gather(cols[k], p)
  }

  /** A selection keeps the columns aligned: it selects whole rows. */
  lemma SelectRows(cols: Columns, n: nat, p: seq<nat>)
    requires Shaped(cols, cols.Keys, n) && Indices(p, n)
    ensures Shaped(Select(cols, p), cols.Keys, |p|)
    ensures Rows(Select(cols, p), |p|) == Gather(Rows(cols, n), p)
  {
    forall i | 0 <= i < |p| ensures Rows(Select(cols, p), |p|)[i] == Gather(Rows(cols, n), p)[i] {
      assert RowAt(Select(cols, p), i) == RowAt(cols, p[i]);
    }
  }

  ghost predicate Partitioned(parts: seq<seq<nat>>, n: nat) {
    forall i :: 0 <= i < |parts| ==> Indices(parts[i], n)
  }

  /** The rows of all ranks' selections, rank after rank. */
  ghost function SelectedRows(cols: Columns, n: nat, parts: seq<seq<nat>>): seq<Row>
    requires Shaped(cols, cols.Keys, n) && Partitioned(parts, n)
  {
    if parts == [] then []
    else
      SelectRows(cols, n, parts[0]);
      Rows(Select(cols, parts[0]), |parts[0]|) + SelectedRows(cols, n, parts[1..])
  }

  lemma {:induction false} SelectedRowsGather(cols: Columns, n: nat, parts: seq<seq<nat>>)
    requires Shaped(cols, cols.Keys, n) && Partitioned(parts, n)
    ensures Indices(Flatten(parts), n)
    ensures SelectedRows(cols, n, parts) == Gather(Rows(cols, n), Flatten(parts))
  {
    if parts == [] {
    } else {
      hide Rows;
      SelectRows(cols, n, parts[0]);
      SelectedRowsGather(cols, n, parts[1..]);
      var a, b := parts[0], Flatten(parts[1..]);
      assert Gather(Rows(cols, n), a + b) == Gather(Rows(cols, n), a) + Gather(Rows(cols, n), b);
    }
  }

  lemma PartitionedByCover(parts: seq<seq<nat>>, n: nat)
    requires IsPermutation(Flatten(parts), n)
    ensures Partitioned(parts, n)
  {
    PermutationIndices(Flatten(parts), n);
    forall i, j | 0 <= i < |parts| && 0 <= j < |parts[i]| ensures parts[i][j] < n {
      FlattenMember(parts, i, j);
    }
  }

  // ---------- the whole exchange ----------

  /** Rows after padding. */
  function PaddedSize(ranks: seq<Columns>, sizes: seq<nat>, chunk: nat): nat
    requires 1 <= |ranks| * chunk
  {
    Total(sizes) + PadSize(Total(sizes), |ranks| * chunk)
  }

  /** The batch that every rank merges from the same gathered data. */
  function Padded(ranks: seq<Columns>, sizes: seq<nat>, pad: Columns, chunk: nat): Columns
    requires Gathered(ranks, sizes, pad) && 1 <= |ranks| * chunk
  {
    Merged(ranks, sizes, pad, PadSize(Total(sizes), |ranks| * chunk))
  }

  /** Prompt plus response length of each row; lengths are counts of tokens. */
  ghost predicate CountsTokens(cols: Columns, n: nat, lens: seq<nat>) {
    && "prompt_lengths" in cols && "response_lengths" in cols
    && |cols["prompt_lengths"]| == |cols["response_lengths"]| == n == |lens|
    && forall i :: 0 <= i < n ==> lens[i] == cols["prompt_lengths"][i] + cols["response_lengths"][i]
  }

  lemma PaddedRows(ranks: seq<Columns>, sizes: seq<nat>, pad: Columns, chunk: nat)
    requires Gathered(ranks, sizes, pad) && 1 <= |ranks| * chunk
    ensures Shaped(Padded(ranks, sizes, pad, chunk), pad.Keys, PaddedSize(ranks, sizes, chunk))
    ensures Rows(Padded(ranks, sizes, pad, chunk), PaddedSize(ranks, sizes, chunk))
         == AllRows(ranks, sizes, pad.Keys) + Repeat(RowAt(pad, 0), PadSize(Total(sizes), |ranks| * chunk))
  {
    hide Gathered;
    hide Shaped;
    hide Rows;
    hide AllRows;
    hide Merged;
    hide PadSize;
    hide Total;
    MergedRows(ranks, sizes, pad, PadSize(Total(sizes), |ranks| * chunk));
  }

  lemma MultipleOfBoth(n: nat, dp: nat, chunk: nat) returns (each: nat)
    requires 1 <= dp && 1 <= chunk && dp * chunk >= 1 && Whole(n, dp * chunk)
    ensures n == each * dp && each % chunk == 0 && n % dp == 0
  {
    var q := n / (dp * chunk);
    each := q * chunk;
    assert n == (dp * chunk) * q;
    assert (dp * chunk) * q == (q * chunk) * dp;
    MultipleModZero(q, chunk);
    MultipleModZero(each, dp);
  }

  lemma SameShare(a: nat, b: nat, dp: nat)
    requires 1 <= dp && a * dp == b * dp
    ensures a == b
  {
    assert dp * (a - b) == a * dp - b * dp;
    MulAtLeast(dp, a - b);
  }

  lemma PaddedMultiple(ranks: seq<Columns>, sizes: seq<nat>, chunk: nat) returns (each: nat)
    requires 1 <= |ranks| && 1 <= chunk && 1 <= |ranks| * chunk
    ensures PaddedSize(ranks, sizes, chunk) == each * |ranks| && each % chunk == 0
    ensures PaddedSize(ranks, sizes, chunk) % |ranks| == 0
    ensures PaddedSize(ranks, sizes, chunk) >= |ranks| <==> Total(sizes) >= 1
  {
    var n, dp := PaddedSize(ranks, sizes, chunk), |ranks|;
    PadSizeIsLeast(Total(sizes), dp * chunk, 0);
    each := MultipleOfBoth(n, dp, chunk);
    if Total(sizes) >= 1 {
      MultipleAtLeast(n, dp);
    } else {
      PadSizeIsLeast(0, dp * chunk, 0);
      DivModUnique(0, dp * chunk, 0, 0);
    }
  }

  /**
    The partitioner succeeds exactly when there is at least one sample, and gives every rank as many rows, a
    multiple of the chunk.
  */
  lemma SharesAreEqual(ranks: seq<Columns>, sizes: seq<nat>, pad: Columns, chunk: nat, lens: seq<nat>)
      returns (each: nat)
    requires Gathered(ranks, sizes, pad) && 1 <= |ranks| && 1 <= chunk && 1 <= |ranks| * chunk
    requires |lens| == PaddedSize(ranks, sizes, chunk)
    ensures Balanced(lens, |ranks|, true).Success? <==> Total(sizes) >= 1
    ensures each % chunk == 0
    ensures Total(sizes) >= 1 ==>
              |Balanced(lens, |ranks|, true).value| == |ranks| &&
              forall r :: 0 <= r < |ranks| ==> |Balanced(lens, |ranks|, true).value[r]| == each
  {
    hide Balanced;
    hide PaddedSize;
    var dp := |ranks|;
    each := PaddedMultiple(ranks, sizes, chunk);
    BalancedSucceeds(lens, dp, true);
    if Total(sizes) >= 1 {
      BalancedEqualSize(lens, dp);
      var parts := Balanced(lens, dp, true).value;
      forall r | 0 <= r < dp ensures |parts[r]| == each {
        SameShare(|parts[r]|, each, dp);
      }
    }
  }

  /**
    The rows that all ranks end up with are the rows that all ranks brought and the pads:
    nothing is lost, nothing is duplicated, and every row stays in one piece.
  */
  lemma NothingLost(ranks: seq<Columns>, sizes: seq<nat>, pad: Columns, chunk: nat, lens: seq<nat>)
    requires Gathered(ranks, sizes, pad) && 1 <= |ranks| * chunk
    requires |lens| == PaddedSize(ranks, sizes, chunk)
    requires Balanced(lens, |ranks|, true).Success?
    ensures var cols, n := Padded(ranks, sizes, pad, chunk), PaddedSize(ranks, sizes, chunk);
            var parts := Balanced(lens, |ranks|, true).value;
            Shaped(cols, cols.Keys, n) && Partitioned(parts, n) &&
            multiset(SelectedRows(cols, n, parts)) ==
              multiset(AllRows(ranks, sizes, pad.Keys)) +
              multiset(Repeat(RowAt(pad, 0), PadSize(Total(sizes), |ranks| * chunk)))
  {
    hide Balanced;
    hide PaddedSize;
    hide Padded;
    hide Rows;
    var cols, n := Padded(ranks, sizes, pad, chunk), PaddedSize(ranks, sizes, chunk);
    var parts := Balanced(lens, |ranks|, true).value;
    PaddedRows(ranks, sizes, pad, chunk);
    BalancedSucceeds(lens, |ranks|, true);
    BalancedCovers(lens, |ranks|, true);
    PartitionedByCover(parts, n);
    SelectedRowsGather(cols, n, parts);
    GatherPermutation(Rows(cols, n), Flatten(parts));
  }

  /** The tokens of a rank's rows: prompt plus response lengths of its selection. */
  function RankTokens(cols: Columns): int
    requires "prompt_lengths" in cols && "response_lengths" in cols
  {
    Sum(cols["prompt_lengths"]) + Sum(cols["response_lengths"])
  }

  lemma {:induction false} SumOfBoth(xs: seq<int>, ys: seq<int>, zs: seq<int>)
    requires |xs| == |ys| == |zs| && forall i :: 0 <= i < |zs| ==> zs[i] == xs[i] + ys[i]
    ensures Sum(zs) == Sum(xs) + Sum(ys)
  {
    if zs == [] {
    } else {
      SumOfBoth(xs[1..], ys[1..], zs[1..]);
    }
  }

  lemma SelectionTokens(cols: Columns, lens: seq<nat>, p: seq<nat>)
    requires Shaped(cols, cols.Keys, |lens|) && CountsTokens(cols, |lens|, lens) && Indices(p, |lens|)
    ensures RankTokens(Select(cols, p)) == PartLoad(lens, p)
  {
    SumOfBoth(Gather(cols["prompt_lengths"], p), Gather(cols["response_lengths"], p), Gather(lens, p));
  }

  /** The token loads of two ranks differ by at most the widest block of the sorted lengths, last minus first. */
  lemma RankLoadsBalanced(cols: Columns, lens: seq<nat>, dp: nat, bound: int, i: nat, j: nat)
    requires Shaped(cols, cols.Keys, |lens|) && CountsTokens(cols, |lens|, lens)
    requires Usable(lens, dp, true) && i < dp && j < dp && CoversBlocks(Ascending(lens), dp, dp, bound)
    ensures Balanced(lens, dp, true).Success?
    ensures var parts := Balanced(lens, dp, true).value;
            |parts| == dp && Indices(parts[i], |lens|) && Indices(parts[j], |lens|) &&
            RankTokens(Select(cols, parts[i])) - RankTokens(Select(cols, parts[j])) <= bound
  {
    hide Balanced;
    hide CoversBlocks;
    hide PartLoad;
    hide RankTokens;
    BalancedLoads(lens, dp, true, bound, i, j);
    var parts := Balanced(lens, dp, true).value;
    SelectionTokens(cols, lens, parts[i]);
    SelectionTokens(cols, lens, parts[j]);
  }

  // ---------- the program ----------

  /** The merge loop over the keys. */
  method MergeColumns(ranks: seq<Columns>, sizes: seq<nat>, pad: Columns, padSize: nat) returns (merged: Columns)
    requires Gathered(ranks, sizes, pad)
    ensures merged == Merged(ranks, sizes, pad, padSize)
  {
    merged := map[];
    var todo := pad.Keys;
    while todo != {}
      invariant todo <= pad.Keys && merged.Keys == pad.Keys - todo
      invariant forall k :: k in merged ==> merged[k] == MergedColumn(ranks, pad, padSize, k)
      decreases |todo|
    {
      var k :| k in todo;
      merged := merged[k := MergedColumn(ranks, pad, padSize, k)];
      todo := todo - {k};
    }
  }

  /** `from_rollout_batches_dynamic` as run by rank `me`; all ranks see the same gathered data. */
  method Exchange(ranks: seq<Columns>, sizes: seq<nat>, pad: Columns, chunk: nat, me: nat, lens: seq<nat>)
      returns (r: Result<Columns>)
    requires Gathered(ranks, sizes, pad) && 1 <= |ranks| * chunk && me < |ranks|
    requires CountsTokens(Padded(ranks, sizes, pad, chunk), PaddedSize(ranks, sizes, chunk), lens)
    ensures r.Success? <==> Balanced(lens, |ranks|, true).Success?
    ensures r.Success? ==>
              |Balanced(lens, |ranks|, true).value| == |ranks| &&
              Partitioned(Balanced(lens, |ranks|, true).value, PaddedSize(ranks, sizes, chunk)) &&
              Shaped(Padded(ranks, sizes, pad, chunk), pad.Keys, PaddedSize(ranks, sizes, chunk)) &&
              r.value == Select(Padded(ranks, sizes, pad, chunk), Balanced(lens, |ranks|, true).value[me])
  {
    hide Balanced;
    hide Rows;
    var padSize := PadSize(Total(sizes), |ranks| * chunk);
    var merged := MergeColumns(ranks, sizes, pad, padSize);
    PaddedRows(ranks, sizes, pad, chunk);
    var parts := GetBalancedPartitions(lens, |ranks|, true);
    if parts.Failure? {
      return Failure;
    }
    BalancedSucceeds(lens, |ranks|, true);
    BalancedCovers(lens, |ranks|, true);
    PartitionedByCover(parts.value, |lens|);
    r := Success(Select(merged, parts.value[me]));
  }
}
