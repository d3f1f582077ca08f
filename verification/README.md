# Batch balancing and credit assignment, verified

A Dafny model of the part of the training pipeline that decides which sample goes where and how much each step
counts, with proofs of what that code is for. Integers are the source's own unbounded integers, tensors are
sequences or arrays of exact reals, and square root is any function `sqrt` with `sqrt(x) >= 0` and
`sqrt(x) * sqrt(x) == x` (where it matters which). Ranks are a sequence, and a collective is a function of what all
ranks hold.

- **Sequence balancing.** `Sorting`, `Bags`, `KarmarkarKarp`, `KarmarkarKarpBalance` and `BalancedPartitions` give
  k-way largest differencing on values and its bounds; `HeapRuns` shows that any priority queue gives the same result,
  and `KarmarkarKarpHeap` is the algorithm on mutable states and sets in a heap list, proved to compute it.
  `BestFitDecreasing` is the packing that supplies the first micro-batch count, `BestFitBound` its distance from the best
  packing. `Retrying` and `DynamicBatching` put them together: packing gives a count between 1 and n,
  non-empty partitions make n a count that always fits, and the spread bound limits how many retries can happen.
  `BatchingCases` holds concrete runs.
- **Data-parallel redistribution.** `Redistribution` gathers, pads, partitions with equal sizes and selects;
  `Reordering` undoes index lists and splits lists.
- **Credit assignment.** `LossMask`, `Gae`, `Chunks` and `ChunkMask` cover masks, advantages, scores and the
  reshaping between chunks and time, and `TensorIsolation` puts them together; `Grpo` the group-relative forms;
  `LossWeights` and `LossScales` the staged scaling; `Statistics` and `ExplainedVariance` the sums that are merged
  over ranks and micro-batches.
- **Down-sampling.** `DownSampling` chooses members, masks the parallel lists and regroups them.
- **Round trips.** `Rot6d` and `NestedDict`.
- `Sequences`, `Arithmetic`, `RealSums`, `Grouping` and `Options` are shared ground.

Loops and objects of the source are methods and classes here, each proved equal to a function on values; the lemmas
are about those functions.

## Where the code differs from what it promises

- `split_list` with enforced divisibility returns another number of chunks than asked for, unless that number divides
  the length (`Reordering.EnforcedSplitCount`); a zero chunk size is a division by zero.
- The retry loop adds 1 to a count that was rounded up to a multiple, so a retry can lose `num_batches_divided_by`. The
  divisor divides the final count when the spread bound holds at the start (`DynamicBatching.DivisibleWhenEnough`) and,
  when fewer retries than the divisor are sure to be enough, exactly when the first attempt fits on every rank
  (`DivisibleIffStartFits`); `BatchingCases.RetryBreaksDivisor` is a run that loses it.
- Aligned ranks with synchronised counts succeed exactly when their common start is at most the number of samples; a
  count forced or rounded up beyond it ends in an assertion (`DynamicBatching.SucceedsIffStartFits`). Unequal batches
  or unsynchronised counts may fail (`BatchingCases.UnequalBatchesFail`, `UnsynchronisedRanksFail`) and succeed if a
  common number of retries is proved to fit on every rank (`DynamicBatching.SucceedsWithin`).
- `calculate_scores` ignores the initial done flag while the loss mask obeys it; they agree on all rewards exactly when
  the rollout does not start done (`Gae.ScoreIsKeptSum`).
- The reduced chunk mask is the mask of the reduced flags only under a condition on the initial chunk
  (`ChunkMask.ReductionCommutes`).
- `down_sample_batch` leaves `num_sequence` at its old value, which is right afterwards exactly when every group had N
  members already and none was rejected (`DownSampling.NumberStaysRight`).
- The minimum of zero-reward rollouts that down-sampling is asked to keep gives way when it does not fit into N next to
  the minimum of the others (`DownSampling.MinimaKept`); quotas that do not give N members give way to the penalties.
- A trajectory without turns counts as one with reward 0, so turns that all have the same reward may still get an
  advantage (`Grpo.EqualRewardsCancel`).
- Concatenating after `split_dict` loses missing values, multiplies NumPy arrays and rejects other values
  (`NestedDict.SplitThenCat`).

## Model

| member | source | states |
|---|---|---|
| `Bags.BagOrderTotal` | rlinf/utils/data_iter_utils.py:317-322 | the order on sets is total: two different sets compare one way and not the other, so a descending sort has one result |
| `Bags.BagBeforeIff` | rlinf/utils/data_iter_utils.py:317-322 | smaller sum, or fewer items, or the list that is earlier at the first position where they differ |
| `Sorting.SortStable` | rlinf/utils/data_iter_utils.py:459-460 | the library sort with a key keeps elements that the key does not separate in their order |
| `KarmarkarKarp.AscendingSorted` | rlinf/utils/data_iter_utils.py:374 | the items start in ascending order of length, then of index |
| `BestFitDecreasing.DescendingSorted` | rlinf/utils/data_iter_utils.py:459-460 | longer samples first, samples of one length in the order of the batch |
| `KarmarkarKarp.PopIsForced` | rlinf/utils/data_iter_utils.py:352-358 | a state that no other state of the heap precedes is the one the model pops, whatever the heap layout |
| `HeapRuns.FirstPopIsForced` | rlinf/utils/data_iter_utils.py:390-391 | at every turn of every run with non-negative lengths, the first pop can take one state only |
| `HeapRuns.SecondPopIsForced` | rlinf/utils/data_iter_utils.py:390-392 | once any state has been taken, the second pop of the turn can take only one of the rest |
| `HeapRuns.AnyQueueAgrees` | rlinf/utils/data_iter_utils.py:374-398 | every priority queue that always hands out an unpreceded state, from any layout of the starting states, ends with one state and the same partitions |
| `HeapRuns.ModelRuns` | rlinf/utils/data_iter_utils.py:390-395 | popping the least state by list position is one such run |
| `KarmarkarKarpBalance.MergeItems` | rlinf/utils/data_iter_utils.py:343-346 | a merge neither loses nor copies an item |
| `KarmarkarKarpBalance.MergeSpread` | rlinf/utils/data_iter_utils.py:343-350 | a merge of descending states is descending and has no larger spread than the wider of the two |
| `KarmarkarKarpBalance.MergeSpare` | rlinf/utils/data_iter_utils.py:343-346 | a state has its items alone in its first sets, or no empty set; a merge keeps this |
| `KarmarkarKarpHeap.Set.Add` | rlinf/utils/data_iter_utils.py:308-310 | one more item, and the stored sum stays the sum of the items |
| `KarmarkarKarpHeap.Set.Merge` | rlinf/utils/data_iter_utils.py:312-315 | the items of the other set appended in order, and the stored sum their sum |
| `KarmarkarKarpHeap.SortSets` | rlinf/utils/data_iter_utils.py:332 | sorting the set objects in place moves objects only and gives the sequence of contents the value model's sort gives |
| `KarmarkarKarpHeap.State.constructor` | rlinf/utils/data_iter_utils.py:325-332 | a new state holds its items one per set, sorted, in fresh objects |
| `KarmarkarKarpHeap.State.Merge` | rlinf/utils/data_iter_utils.py:343-346 | the receiving state's sets hold what the value model's merge of both contents holds; the other state is left alone |
| `KarmarkarKarpHeap.PopLeast` | rlinf/utils/data_iter_utils.py:391-392 | popping removes the state that comes first in the heap order and leaves the others |
| `KarmarkarKarpHeap.Fill` | rlinf/utils/data_iter_utils.py:374-388 | the pushed states represent the starting heap of blocks of the sorted lengths |
| `KarmarkarKarpHeap.Turn` | rlinf/utils/data_iter_utils.py:390-395 | pop, pop, merge, push on objects is one step of the value model |
| `KarmarkarKarpHeap.Run` | rlinf/utils/data_iter_utils.py:374-404 | the loop over mutable states and sets computes the partition function |
| `KarmarkarKarpHeap.CheckAndSort` | rlinf/utils/data_iter_utils.py:429-439 | fails exactly when an assertion would fire, and otherwise returns every partition ascending |
| `KarmarkarKarpHeap.GetBalancedPartitions` | rlinf/utils/data_iter_utils.py:425-444 | the wrapper on objects gives exactly the result, or the failure, of the value model |
| `BalancedPartitions.PartitionCovers` | rlinf/utils/data_iter_utils.py:374-404 | the partitions contain every index exactly once |
| `BalancedPartitions.PartitionFilled` | rlinf/utils/data_iter_utils.py:328-331 | partition i is non-empty exactly when i is below the number of samples, zero lengths included |
| `BalancedPartitions.PartitionEqualSize` | rlinf/utils/data_iter_utils.py:399-403 | in equal-size mode every partition has n / k samples, so the assertion never fires |
| `BalancedPartitions.PartitionSpread` | rlinf/utils/data_iter_utils.py:374-398 | two partitions differ by at most any bound on the starting spreads: the longest sample, or the widest sorted block in equal-size mode |
| `BalancedPartitions.PartitionLoad` | rlinf/utils/data_iter_utils.py:374-398 | k times the heaviest partition is at most the total plus k - 1 times that bound |
| `BalancedPartitions.MaxLenCovers` | rlinf/utils/data_iter_utils.py:349-350 | without equal sizes the longest sample is such a bound |
| `BalancedPartitions.BalancedSucceeds` | rlinf/utils/data_iter_utils.py:425-444 | the wrapper succeeds if and only if 1 <= k <= n and, in equal-size mode, k divides n; no other assertion can fire |
| `BalancedPartitions.BalancedCovers` | rlinf/utils/data_iter_utils.py:429-444 | k non-empty ascending partitions that together hold every index once |
| `BalancedPartitions.BalancedLoads` | rlinf/utils/data_iter_utils.py:407-444 | the balance bounds for the partitions that are returned |
| `BalancedPartitions.BalancedEqualSize` | rlinf/utils/data_iter_utils.py:407-444 | in equal-size mode every returned partition has n / k samples |
| `BestFitDecreasing.BestBinIsTightest` | rlinf/utils/data_iter_utils.py:467-476 | the scan finds the first of the bins with the least room that still fits, and reports none only when none fits |
| `BestFitDecreasing.PlacesTightest` | rlinf/utils/data_iter_utils.py:465-483 | an item joins the fullest bin that still holds it, the first of those, and opens a bin exactly when none holds it |
| `BestFitDecreasing.PackedPartitions` | rlinf/utils/data_iter_utils.py:459-502 | every index once, no bin empty or over the cap, at most n bins: the assertions never fire |
| `BestFitDecreasing.OneBinIffFits` | rlinf/utils/data_iter_utils.py:465-483 | one bin is used exactly when the whole batch fits into one |
| `BestFitBound.ThreeForEveryTwo` | rlinf/utils/data_iter_utils.py:459-483 | against any packing of the batch within the cap, best-fit-decreasing opens at most three bins for every two |
| `BatchingCases.ThreeForTwo` | rlinf/utils/data_iter_utils.py:459-483 | the bound is met: on 3, 3, 2, 2, 2 and 2 tokens under a cap of 7 it opens three bins, and two would do |
| `BestFitDecreasing.FindBin` | rlinf/utils/data_iter_utils.py:467-476 | the loop over the remaining capacities returns the best bin |
| `BestFitDecreasing.AddItem` | rlinf/utils/data_iter_utils.py:478-483 | one item goes to that bin or opens a new one, and the remaining capacities stay right |
| `BestFitDecreasing.PackSequences` | rlinf/utils/data_iter_utils.py:447-502 | the loops compute the packing, or fail exactly when some sequence is longer than the cap |
| `Retrying.FirstFitStops` | rlinf/utils/data_iter_utils.py:553-593 | where the retry loop stops, every attempt ran, the last one fits and no earlier one did |
| `Retrying.FirstFitFinds` | rlinf/utils/data_iter_utils.py:553-593 | the loop stops no later than the first attempt known to fit |
| `DynamicBatching.SearchOutcome` | rlinf/utils/data_iter_utils.py:553-593 | the loop succeeds if and only if it can start and some number of retries fits on every rank |
| `DynamicBatching.ResultFitsAndCovers` | rlinf/utils/data_iter_utils.py:553-593 | on exit every micro-batch of every rank is within the cap and non-empty, and the rank's samples appear exactly once |
| `DynamicBatching.SearchReachesN` | rlinf/utils/data_iter_utils.py:536-593 | equal batch sizes, consistent columns and a common start between 1 and n: the loop ends with at most n micro-batches |
| `DynamicBatching.SearchStopsByBound` | rlinf/utils/data_iter_utils.py:553-593 | and no later than the first count k, from the start on, with total + (k - 1) * longest below k * (cap + 1) on every rank, so in particular at most k * cap |
| `DynamicBatching.StartIsCommon` | rlinf/utils/data_iter_utils.py:536-551 | the synchronised starting count is one number for all ranks, positive if there are samples, whatever is forced or rounded up |
| `DynamicBatching.StartIsLeast` | rlinf/utils/data_iter_utils.py:536-551 | the start is the least multiple of the divisor that is no smaller than the minimum and the packing count: of all ranks if the counts are synchronised, otherwise of the rank itself |
| `DynamicBatching.SucceedsIffStartFits` | rlinf/utils/data_iter_utils.py:524-593 | aligned, synchronised ranks of n samples, any forced count and divisor: the run succeeds if and only if the common start lies between 1 and n |
| `DynamicBatching.IteratorSucceeds` | rlinf/utils/data_iter_utils.py:524-593 | in addition, on success every rank gets the same number of micro-batches, at most n and at most the first count from the start on that the spread bound proves enough |
| `DynamicBatching.SucceedsWithin` | rlinf/utils/data_iter_utils.py:524-593 | ranks of any sizes, synchronised or not: the run succeeds within t retries if t retries keep each count between 1 and its number of samples and are proved to fit there, by the spread bound or with one sample each |
| `DynamicBatching.StartTooLarge` | rlinf/utils/data_iter_utils.py:541-560 | a rank of any kind that would start with more micro-batches than samples ends in the assertion; SucceedsIffStartFits gives the converse |
| `DynamicBatching.FullRankBlocksRetry` | rlinf/utils/data_iter_utils.py:544-593 | a rank that starts with as many micro-batches as samples makes any retry of another rank fail; UnsynchronisedRanksFail is such a run |
| `BatchingCases.UnsynchronisedRanksFail` | rlinf/utils/data_iter_utils.py:544-593 | consistent batches of five samples each, without synchronised counts, that start with 5 and 2 and end in the assertion |
| `BatchingCases.UnequalBatchesFail` | rlinf/utils/data_iter_utils.py:544-560 | consistent batches of one and two samples whose synchronised start ends in the assertion |
| `DynamicBatching.DivisibleWhenEnough` | rlinf/utils/data_iter_utils.py:548-593 | if the spread bound holds at the rounded-up start, the run ends with that start on every rank, so num_batches_divided_by divides it |
| `DynamicBatching.DivisibleIffStartFits` | rlinf/utils/data_iter_utils.py:548-593 | if fewer than d retries are sure to be enough, d divides the final count if and only if the first attempt fits on every rank |
| `BatchingCases.RetryBreaksDivisor` | rlinf/utils/data_iter_utils.py:548-593 | a consistent batch of 8, 7, 6, 5 and 4 tokens under a cap of 15 that must be divisible by two, starts with two and ends with three |
| `DynamicBatching.GatherOthers` | rlinf/utils/data_iter_utils.py:564-573 | a micro-batch has exactly the keys of the per-sample entries, and under each the rows of its partition, in order |
| `DynamicBatching.BuildMicroBatches` | rlinf/utils/data_iter_utils.py:564-588 | valid exactly when all partitions fit; every micro-batch then holds, in each column, one entry per index of its partition: the row with that index |
| `DynamicBatching.MicroBatchesRestore` | rlinf/utils/data_iter_utils.py:553-593 | from the partitions the iterator returns: no micro-batch is empty or over the cap by its own columns, and every column, concatenated over the micro-batches and gathered by the reverse of the concatenated partitions, is the column of the batch |
| `DynamicBatching.CountRanks` | rlinf/utils/data_iter_utils.py:536-551 | the starting counts on all ranks |
| `DynamicBatching.TryAll` | rlinf/utils/data_iter_utils.py:554-591 | one attempt on all ranks, with the reduced validity flag |
| `DynamicBatching.GetIteratorDynamic` | rlinf/utils/data_iter_utils.py:524-593 | the loops on all ranks return the partitions of the value model, and with them micro-batches that hold the rows of their partitions under every key, or fail when the model does |
| `Reordering.GetReverseIdx` | rlinf/utils/data_iter_utils.py:703-718 | the inverse map, built by overwriting a copy |
| `Reordering.ReverseRestores` | rlinf/utils/data_iter_utils.py:703-718 | selecting by a permutation and then by its reverse gives back every list |
| `Reordering.MicroBatchOutputsRestored` | rlinf/utils/data_iter_utils.py:429-444 | outputs computed micro-batch by micro-batch return to the original order |
| `Reordering.SplitListCuts` | rlinf/utils/data_iter_utils.py:98-103 | contiguous chunks that rebuild the list, longer ones first, sizes as divmod gives them, and equal to the split by sizes |
| `Reordering.SplitRunning` | rlinf/utils/nested_dict_process.py:84-93 | the loop with a running start index slices by the listed sizes |
| `Reordering.EnforcedSplitCount` | rlinf/utils/data_iter_utils.py:90-97 | the enforced split gives equal chunks that rebuild the list; the number of chunks is the requested one only if it divides the length |
| `Reordering.EnforcedSplitCountFails` | rlinf/utils/data_iter_utils.py:90-97 | six items in four chunks come back in six |
| `Redistribution.PadSizeIsLeast` | rlinf/utils/distributed.py:621-627 | the padding is the least amount that reaches a multiple of ranks times chunk |
| `Redistribution.MergedRows` | rlinf/utils/distributed.py:629-635 | the merged batch is the gathered rows rank after rank and then the pads, in every column alike |
| `Redistribution.SelectRows` | rlinf/utils/distributed.py:651-654 | a selection takes whole rows, so the columns stay aligned |
| `Redistribution.SharesAreEqual` | rlinf/utils/distributed.py:643-649 | the partitioner succeeds exactly when there is a sample, and gives every rank the same number of rows, a multiple of the chunk |
| `Redistribution.NothingLost` | rlinf/utils/distributed.py:617-656 | the rows of all selections together are the gathered rows and the pads, each as often as before |
| `Redistribution.RankLoadsBalanced` | rlinf/utils/distributed.py:643-654 | the prompt and response tokens of any two ranks differ by at most the widest block of the sorted lengths |
| `Redistribution.MergeColumns` | rlinf/utils/distributed.py:629-635 | the loop over the keys builds the merged columns |
| `Redistribution.Exchange` | rlinf/utils/distributed.py:605-656 | one rank's call returns its partition's rows, or fails when the partitioner does |
| `LossMask.MaskIsPrefix` | rlinf/utils/metric_utils.py:525-534 | the mask is true exactly before the first done, and its sum is the position of that done, or the number of steps |
| `LossMask.NormalizeIgnoresMasked` | rlinf/algorithms/utils.py:397-404 | entries outside the mask influence neither whether the result is defined nor the entries inside the mask |
| `LossMask.NormalizeCenters` | rlinf/algorithms/utils.py:397-404 | with two entries inside the mask the result is defined and those entries sum to zero |
| `LossMask.NormalizeScale` | rlinf/algorithms/utils.py:397-404 | each result times the standard deviation of the kept entries plus 1e-5 is the entry less their mean; nothing kept leaves the array as it is, one kept entry gives no number |
| `Gae.ClosedForm` | rlinf/algorithms/advantages.py:66-76 | the backward loop computes the sum of (gamma * lambda)^l * delta up to the next done |
| `Gae.Telescopes` | rlinf/algorithms/advantages.py:66-79 | at lambda = 1 it is discounted reward-to-go up to the next done, plus the discounted last value if there is none, minus the value |
| `Gae.IgnoresIntermediateValues` | rlinf/algorithms/advantages.py:66-79 | at lambda = 1 no other value has any influence |
| `Gae.CriticFreeRewardToGo` | rlinf/algorithms/advantages.py:61-79 | without values it is the undiscounted reward-to-go |
| `Gae.Isolation` | rlinf/algorithms/advantages.py:66-79 | changes at or after the first done do not reach the advantages before it |
| `Gae.KeptStepsIsolated` | rlinf/utils/metric_utils.py:525-527 | the mask keeps exactly the isolated steps and is itself unaffected |
| `Gae.NormalizedIsolation` | rlinf/algorithms/advantages.py:66-84 | the isolation survives masked normalization over the whole batch, in which environments that are left alone may never finish |
| `Gae.ScoreIsKeptSum` | rlinf/algorithms/utils.py:139-142 | for given flags, the score is the sum of the rewards the mask keeps for every reward list, if and only if the rollout does not start done (or has no step) |
| `Gae.ScoreOfStartedDone` | rlinf/algorithms/utils.py:139-142 | a rollout that starts done is scored although the mask keeps nothing |
| `Gae.ComputeGae` | rlinf/algorithms/advantages.py:56-79 | with a critic, the deltas of the given rewards, values and flags summed with powers of gamma * lambda up to the next done; without one, the rewards up to the next done; returns are that plus the value, or just that |
| `Gae.OutputsIsolated` | rlinf/algorithms/advantages.py:66-79 | outputs with these properties on two rollouts that agree before the first done of both agree before it |
| `Gae.CalculateScore` | rlinf/algorithms/utils.py:139-142 | the score loop: the rewards up to the first done after the start |
| `Chunks.FlattenTimeAt` | rlinf/algorithms/utils.py:100-107 | with K actions per chunk, time c * K + j of environment b is entry [c, b, j] |
| `Chunks.UnflattenInverts` | rlinf/algorithms/utils.py:167-172 | postprocessing undoes preprocessing |
| `Chunks.FlattenInverts` | rlinf/algorithms/utils.py:103-107 | and preprocessing undoes postprocessing |
| `Chunks.FlagRowAt` | rlinf/algorithms/utils.py:109-113 | row t + 1 of the sliced flags is chunk 1 + t / K, position t % K, for K actions per chunk |
| `Chunks.FlagRowFirst` | rlinf/algorithms/utils.py:109-113 | row 0 is the last flag of the initial chunk |
| `Chunks.ValueRowAt` | rlinf/algorithms/utils.py:115-119 | row t of the sliced values is chunk t / K, position t % K |
| `ChunkMask.MaskMatchesFlags` | rlinf/utils/metric_utils.py:516-532 | the flattened loss mask is, environment by environment, the mask of the flags the advantage loop gets |
| `TensorIsolation.EpisodeEntries` | rlinf/algorithms/utils.py:89-119 | the rewards, values and flags the loop gets for an environment, each located in the chunked tensors |
| `TensorIsolation.MaskOfEpisodes` | rlinf/algorithms/utils.py:105-113 | the flattened loss mask is the masks of all these episodes, time after time |
| `TensorIsolation.FlatMaskAt` | rlinf/utils/metric_utils.py:516-532 | entry [c, b, j] of the loss mask, K actions per chunk, keeps time c * K + j of environment b exactly before its first done |
| `TensorIsolation.EntryScale` | rlinf/algorithms/utils.py:89-172 | entry [c, b, j] of the postprocessed tensor times the deviation of the kept advantages plus 1e-5 is the advantage of environment b at time c * K + j less the mean of the kept ones; with nothing kept it is that advantage, with one kept entry there is no result |
| `TensorIsolation.KeptEntriesIsolated` | rlinf/algorithms/utils.py:89-172 | from tensors to tensors: changes at or after the first done of any environments leave the loss mask and every kept entry [c, b, j] of the postprocessed normalized advantages as they were |
| `ChunkMask.TensorChunk` | rlinf/utils/metric_utils.py:529-532 | chunk c of the mask tensor for an environment is that environment's mask of its chunk c |
| `ChunkMask.ReductionCommutes` | rlinf/algorithms/utils.py:79-87 | reducing the action mask over each chunk equals masking the reduced flags, on all chunks, if and only if a flag in the initial chunk implies one at its last position |
| `ChunkMask.ReductionFails` | rlinf/algorithms/utils.py:83-85 | a concrete flag early in the initial chunk on which the two differ |
| `ChunkMask.MaskSumIsFirstDone` | rlinf/utils/metric_utils.py:534-535 | the sum of the mask tensor over chunks and actions is, for each environment, the time of its first done, or the number of steps |
| `Grpo.StandardizedCentered` | rlinf/algorithms/advantages.py:107-117 | a group of at least two, normalized against itself, consists of numbers that sum to zero |
| `Grpo.StandardizedScale` | rlinf/algorithms/advantages.py:115-117 | each result times the standard deviation of the group plus 1e-6 is the entry less the mean of the group |
| `Grpo.DynamicScale` | rlinf/algorithms/advantages.py:198-244 | in both modes, which reward is compared with which group, and by which scale; a group of one gives no number |
| `Grpo.RewardTimesTurns` | rlinf/algorithms/advantages.py:192-196 | the reward of a trajectory times the number of its turns is the sum of their rewards, and 0 without turns |
| `Grpo.RewardBetween` | rlinf/algorithms/advantages.py:192-196 | it lies between any bounds on the rewards of its turns |
| `Grpo.EqualRewardsCancel` | rlinf/algorithms/advantages.py:192-219 | when all turns of a question have one reward, their advantages in trajectory mode are 0 exactly when every trajectory of the question has a turn or that reward is 0 |
| `Grpo.TrajectoriesCentered` | rlinf/algorithms/advantages.py:182-219 | trajectory mode: a question's trajectories sum to zero and every turn has its trajectory's advantage |
| `Grpo.TurnsCentered` | rlinf/algorithms/advantages.py:221-244 | turn mode: a question's turns sum to zero |
| `Grpo.QuestionsIndependent` | rlinf/algorithms/advantages.py:182-244 | in both modes the advantages of a question depend on its own rewards only |
| `Grpo.ModesAgree` | rlinf/algorithms/advantages.py:182-244 | if every trajectory has exactly one turn the two modes give the same result, failures included, in whatever order the turns come |
| `Grpo.IdentityIsPlain` | rlinf/algorithms/advantages.py:107-117 | with one trajectory per turn in order both modes are the plain group form, failures included |
| `Grpo.TrajectoryRewards` | rlinf/algorithms/advantages.py:184-196 | the accumulation loop and the clamped division give the average reward of each trajectory |
| `Grpo.TrajectoryAdvantages` | rlinf/algorithms/advantages.py:182-219 | the trajectory branch |
| `Grpo.WriteQuestion` | rlinf/algorithms/advantages.py:231-244 | one question's turns are overwritten with their normalized rewards, all other entries are kept |
| `Grpo.TurnAdvantages` | rlinf/algorithms/advantages.py:221-244 | the turn branch: every turn ends with the value of its own question |
| `Grpo.KeptTurnsCentered` | rlinf/algorithms/advantages.py:221-256 | at a position whose mask keeps all turns of a question, they still sum to zero after masking |
| `Grpo.ComputeMasked` | rlinf/algorithms/advantages.py:164-256 | the whole function: at every position of the mask the advantage of the turn if kept, zero if not, and not a number wherever that advantage is not one |
| `Grpo.ComputeDynamic` | rlinf/algorithms/advantages.py:164-249 | the turn advantages, with the four failures and the invalid mode |
| `LossScales.RecordedInOrder` | rlinf/algorithms/loss_scales.py:38-43 | whatever is called, the recorded stages are a prefix of group, agent, turn |
| `LossScales.NoneRefusedIff` | rlinf/algorithms/loss_scales.py:140-149 | a list of stages is accepted in full if and only if it is such a prefix |
| `LossWeights.FactorsCombine` | rlinf/algorithms/loss_scales.py:169-181 | after both stages a turn's factor is 1 / A times its share of its agent's tokens |
| `LossWeights.AgentTotal` | rlinf/algorithms/loss_scales.py:94-108 | the factors of each agent of a trajectory sum to 1 / A, after the agent stage and after the turn stage |
| `LossWeights.TrajectoryTotal` | rlinf/algorithms/loss_scales.py:94-108 | the factors of each trajectory sum to 1, after the agent stage and after the turn stage |
| `LossScales.GroupBy` | rlinf/algorithms/loss_scales.py:87-92 | the dictionary of index lists: each key once, with its indices in order |
| `LossScales.ScaleUniformly` | rlinf/algorithms/loss_scales.py:103-108 | each listed entry is multiplied once by the weight, all others are kept |
| `LossScales.NoneSilentIff` | rlinf/algorithms/loss_scales.py:168-181 | no division by zero exactly when every agent of every trajectory has a valid token in some turn |
| `LossScales.ScaleByTokens` | rlinf/algorithms/loss_scales.py:168-181 | each listed entry is multiplied by its token weight; fails exactly when the agent has no token |
| `LossScales.GroupScale` | rlinf/algorithms/loss_scales.py:38-51 | each advantage afterwards times the batch size is the advantage before times turns times ranks; refused or dividing by zero exactly when stated, and then unchanged |
| `LossScales.AgentScale` | rlinf/algorithms/loss_scales.py:79-109 | every turn's scale in place times 1 / A / T of its own agent; refused exactly when the order forbids it, and then unchanged |
| `LossScales.TurnScale` | rlinf/algorithms/loss_scales.py:140-182 | every turn's scale in place times its token weight; fails exactly when the order forbids it or some agent has no token |
| `LossScales.ApplyStages` | rlinf/workers/actor/ma_megatron_actor_worker.py:418-437 | a configured list of stages on a fresh context: applied in full exactly when it is a prefix and no divisor is zero; every trajectory then weighs 1 |
| `Statistics.MergeIsWhole` | rlinf/utils/distributed.py:942-954 | count, sum and square sum of shards add up to those of the whole, however it is split |
| `Statistics.ZeroedStats` | rlinf/utils/distributed.py:906-916 | multiplying by the mask and summing gives the statistics of the selected entries |
| `Statistics.OnePassIsTwoPass` | rlinf/utils/distributed.py:934-936 | mean square minus squared mean is the mean squared deviation, and is never negative |
| `Statistics.SquaresDominate` | rlinf/utils/distributed.py:942-954 | count times square sum is at least the squared sum |
| `Statistics.UnbiasedIsVariance` | rlinf/utils/distributed.py:937-938 | the corrected variance is the sample variance |
| `Statistics.MaskedSquaresAre` | rlinf/utils/distributed.py:979-994 | masking, subtracting the mean, squaring and masking again sums the squared deviations of the selected entries |
| `Statistics.OnePassAgreesAcrossRanks` | rlinf/utils/distributed.py:979-998 | the one-pass variance after the all-reduces equals the two-pass variance of masked_global_mean_var, for any spread over ranks |
| `Statistics.SplitDoesNotMatter` | rlinf/utils/distributed.py:918-939 | spreading a batch over ranks changes neither whether masked normalization is defined nor any of its values |
| `Statistics.DefinedIff` | rlinf/utils/distributed.py:934-939 | it is defined exactly when one entry is selected, two if unbiased |
| `Statistics.NormalizedSumsToZero` | rlinf/utils/distributed.py:934-939 | what the masks of all ranks select sums to zero afterwards, over all ranks together |
| `Statistics.NormalizedScale` | rlinf/utils/distributed.py:934-939 | each result times the root of the variance of all selected values plus eps is the masked value less their mean, with the variance over n, or n - 1 if unbiased; the squares add up accordingly |
| `Statistics.AllReduceSum` | rlinf/utils/distributed.py:918-933 | every rank ends with the sum of what all ranks held |
| `Statistics.LocalSums` | rlinf/utils/distributed.py:899-916 | what each rank contributes for one slice, with or without a mask |
| `Statistics.MaskedNormalization` | rlinf/utils/distributed.py:895-939 | local sums, three in-place all-reduces and the normalization on every rank, for each slice along the normalized dimensions, with or without a mask |
| `Statistics.ClampNeverActs` | rlinf/utils/distributed.py:957-962 | on statistics of actual values the clamp of the variance changes nothing |
| `Statistics.FromReducedStatsSumsToZero` | rlinf/utils/distributed.py:957-965 | normalizing by the reduced statistics is always defined and what is kept sums to zero |
| `Statistics.FromReducedStatsScale` | rlinf/utils/distributed.py:957-965 | each result times the root of the variance plus 1e-5 is the value less the mean, for any values, and with nothing selected |
| `ExplainedVariance.ExplainedMeans` | rlinf/utils/metric_utils.py:273-290 | computed from five sums, it is 1 minus the ratio of the squared deviations of errors and returns |
| `ExplainedVariance.ExplainedBounds` | rlinf/utils/metric_utils.py:279-290 | defined if and only if there are two returns that are not all equal; then at most 1, and 1 exactly when all errors are equal |
| `ExplainedVariance.TotalIsTogether` | rlinf/utils/metric_utils.py:250-258 | sums added over micro-batches give the explained variance of all of them together |
| `ExplainedVariance.Metrics.Pop` | rlinf/utils/metric_utils.py:313-319 | exactly the five statistics leave the metrics, summed, and the shown value with them if there were any |
| `ExplainedVariance.PoppedIsTogether` | rlinf/utils/metric_utils.py:293-319 | what is popped from metrics recorded per micro-batch gives the explained variance of the whole |
| `Rot6d.DecodeIsRotation` | rlinf/utils/rot6d.py:66-90 | whatever decodes, decodes to orthonormal columns with determinant 1 |
| `Rot6d.DecodeSpans` | rlinf/utils/rot6d.py:69-90 | the first column is a positive multiple of the first vector, and the second vector is a combination of the first two columns with a positive part of the second |
| `Rot6d.SpansUnique` | rlinf/utils/rot6d.py:69-90 | no other rotation has these directions, so they determine what is decoded |
| `Rot6d.DecodeInvertsEncode` | rlinf/utils/rot6d.py:38-90 | decoding the encoding of a rotation gives the rotation |
| `Rot6d.DecodeFailsIff` | rlinf/utils/rot6d.py:69-84 | decoding fails exactly when the squared norm of the first vector, or of the second less its component along the first, is below 1e-16 |
| `Rot6d.PackInvertsUnpack` | rlinf/utils/rot6d.py:146-177 | unpacking a rigid transform and packing it gives it back |
| `Rot6d.UnpackInvertsPack` | rlinf/utils/rot6d.py:146-177 | packing a pose and unpacking it gives its position and the orthonormal form of its rotation, which then stays fixed |
| `Rot6d.InverseUnique` | rlinf/utils/rot6d.py:189 | there is at most one inverse, so the delta does not depend on how it is computed |
| `Rot6d.ComposeInvertsDelta` | rlinf/utils/rot6d.py:180-197 | composing an invertible transform with its delta to a target gives the target, and the delta of a composition is the delta |
| `Rot6d.PosesHaveDeltas` | rlinf/utils/rot6d.py:146-197 | every transform packed from a pose is invertible by the transposed rotation and the rotated-back translation, so its deltas round-trip |
| `NestedDict.SplitSucceedsIff` | rlinf/utils/nested_dict_process.py:218-248 | a nested batch splits along a dimension exactly when every tensor and list in it has the total length there, lists only along dimension 0 |
| `NestedDict.SplitPart` | rlinf/utils/nested_dict_process.py:222-243 | part i holds sizes[i] rows of every tensor and list, nested ones included, from the sum of the earlier sizes on, and copies of all other values under the same keys |
| `NestedDict.SplitThenCat` | rlinf/utils/nested_dict_process.py:172-248 | what concatenating the parts returns for every batch: missing values vanish, arrays copied whole multiply, other values fail |
| `NestedDict.CatRows` | rlinf/utils/nested_dict_process.py:175-197 | for any parts: under each key of the first part with a value, the result is the rows of all parts one after the other, skipping parts in which an array or list is missing; nested dictionaries alike, lists along dimension 0 only |
| `NestedDict.CatInvertsSplit` | rlinf/utils/nested_dict_process.py:172-248 | it is the original batch if and only if all leaves are tensors or lists, or arrays that are empty or go to a single part; parts of size zero included |
| `NestedDict.MissingValueLost` | rlinf/utils/nested_dict_process.py:180-181 | a concrete batch whose missing value does not come back |
| `NestedDict.SplitDict` | rlinf/utils/nested_dict_process.py:218-248 | the loops that fill the parts key by key along any dimension, recursing into dictionaries |
| `NestedDict.CatDicts` | rlinf/utils/nested_dict_process.py:172-197 | the whole concatenation along any dimension, an empty list of parts included |
| `NestedDict.CatKeys` | rlinf/utils/nested_dict_process.py:175-197 | the loop over the keys of the first part, recursing into dictionaries |
| `DownSampling.ChoosesN` | rlinf/utils/down_sampling.py:113-144 | whatever the quotas and the rounding come to, exactly N different members of an oversized group are chosen |
| `DownSampling.ChoosesMildest` | rlinf/utils/down_sampling.py:113-145 | the weights of the penalties switched on add up; of two members with a positive reward the one chosen has the smaller sum, or is the earlier of two with the same; of two without, the earlier if the quotas give N members; if they do not, the sum decides among all, then a positive reward, then the order |
| `DownSampling.ChosenCounts` | rlinf/utils/down_sampling.py:126-138 | how many positive members are chosen: their rounded share, or what the minimum of the others leaves, or their own minimum, which decides last |
| `DownSampling.QuotasMeetIff` | rlinf/utils/down_sampling.py:126-139 | with a rounding and minima that are not negative: exactly when the quotas give N members, written out in shares and minima |
| `DownSampling.MinimaKept` | rlinf/utils/down_sampling.py:128-134 | quotas that give N members keep the minimum of positive members, and the minimum of the others exactly when both together are at most N |
| `DownSampling.GroupsKeepNoneOrN` | rlinf/utils/down_sampling.py:98-163 | after both masks every original group keeps none or exactly N members |
| `DownSampling.KeptIff` | rlinf/utils/down_sampling.py:24-163 | a sequence is kept exactly when the rewards of its block of group_size consecutive sequences are not rejected as close and, when sampling to N, the block has N members, or more and the sequence is chosen |
| `DownSampling.RegroupsCorrectly` | rlinf/utils/down_sampling.py:149-203 | the kept sequences are in original order, their number is a multiple of N, every block of N is one original group and later blocks are later groups |
| `DownSampling.WeightedGroupChoice` | rlinf/utils/down_sampling.py:77-147 | the loop over groups writes the mask, or fails exactly when an oversized group meets a penalty that is a plain number |
| `DownSampling.RejectEqualReward` | rlinf/utils/down_sampling.py:27-43 | the loop over groups clears the mask of groups whose rewards are close |
| `DownSampling.FilterFields` | rlinf/utils/down_sampling.py:165-198 | every field is reduced to the same kept indices |
| `DownSampling.NumberStaysRight` | rlinf/utils/down_sampling.py:163-203 | the kept sequences are as many as the stored number if and only if no group is rejected and, when sampling to N, every group has exactly N members |
| `DownSampling.NumberGoesStale` | rlinf/utils/down_sampling.py:163-203 | one group of four sampled to two keeps another number of sequences than is stored |
| `DownSampling.RolloutResult.DownSample` | rlinf/utils/down_sampling.py:149-203 | all fields are filtered alike and group_size is replaced; the stored num_sequence is not, so the result is consistent if and only if there was nothing to drop |

## Left out

- The list branch of `get_iterator_dynamic` (rlinf/utils/data_iter_utils.py:594-670): it indexes a Python list with
  string keys; only the dictionary branch is modelled.
- `get_iterator_k_split`, `split_dict_to_chunk`, `rebalance_nd_tensor` and the static-batch constructors of the same
  files: slicing of divisible batches, or sizes that differ between tensors and lists.
- `compute_reinpp_advantages` (rlinf/algorithms/advantages.py:259-310): it flips the batch axis where its comment speaks
  of time.
- Rounding, NaN propagation and dtype casts of floating point; a group, mask or shard too small for a deviation is an
  explicit "not a number" outcome instead.
- Sequence lengths and attention-mask sums are non-negative; negative lengths do not occur.
- heapq's array layout: popping is extract-minimum under the state order. `HeapRuns.FirstPopIsForced` and
  `SecondPopIsForced` show that neither pop of a turn has another choice, and `AnyQueueAgrees` that no layout changes the
  result; the source's sorts are a specified stable sort.
- DynamicBatching.DivisibleWhenEnough: one direction only. Below the spread bound, whether an attempt fits depends on how
  the lengths combine in the differencing, not on their total and longest; `DivisibleIffStartFits` is exact when fewer
  retries than the divisor are sure to be enough, and beyond that nothing simpler than running the attempts decides.
- DynamicBatching.SucceedsWithin: one direction only, for the same reason; without the bound the exact statement is
  `SearchOutcome`.
- DownSampling.WeightedGroupChoice: the penalty weights, the closeness test and Python's rounding are arbitrary inputs,
  so the regular expressions on response texts are not modelled; a batch without rewards is not part of this model.
- LossScales.TurnScale: the contents of `loss_scales` after a division by zero, where some agents were scaled already.
- LossScales.AgentScale: `loss_scales` is one number per turn; the source repeats it over the valid tokens of the turn.
- LossScales.GroupScale: `data_parallel_world_size` is always given, its default of 1 is not modelled.
- Gae.ComputeGae: one environment at a time; the source's loop handles all columns of a tensor alike.
- Grpo.ComputeMasked: negative trajectory indices, and masks whose rows do not have one entry per turn.
- Statistics.MaskedNormalization: a mask whose shape does not fit its values, which the source rejects by an assertion.
- Rot6d.DecodeIsRotation: batched arrays (each element is treated alone), float32 rounding, and quaternions.
- NestedDict.SplitDict: a tensor or an array is its slices along the split dimension; one that lacks that dimension is not
  modelled.
- NestedDict.CatKeys: where the parts hold values of different types under one key, the model returns an error, while the
  source may join some of them (any iterable after a list, lists and tensors after an array). The parts of a split never mix
  types under a key, so the round trips are not affected.
- NestedDict.CatDicts: as for `CatKeys`.
- Redistribution.Exchange: dtype and shape checks; the gathered columns are integers.
- `safe_normalize` after `compute_gae_advantages_and_returns` on returns (`normalize_returns`): the same function as on
  advantages.
- Autograd, losses, log-probabilities, FLOPs formulas, runners, channels, configuration, logging and robot I/O.
