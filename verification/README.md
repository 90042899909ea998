# Verified model of Stratumind's exact retrieval and cluster logic

Stratumind is a vector search engine forked from Qdrant. This project models, in
Dafny, the parts whose correctness is hardest to see from the code, and proves
what they promise for all inputs, all runs or all reachable states. `dafny verify
dfyconfig.toml` checks everything.

## What is modelled

**Exact hybrid retrieval.** Several ranked channels are fused by weighted
reciprocal rank fusion, and the executor stops pulling them as soon as a
certificate shows that the first ranks cannot change any more.

* `RrfScoring` defines the fused order. Scores use an arithmetic given by any
  monotone, idempotent rounding with a largest value, so the theorems hold for
  the single-precision sums of the source, including overflow to infinity.
  `RrfMeaning` says what the scores are in numbers: weighted reciprocal ranks and
  their sums wherever nothing is rounded.
* `RrfCertificate` proves the certificate sound: a certified list is a prefix of
  the fused order of every completion of the channels. `RrfTightness` proves when
  the certificate declines a settled result, as an if-and-only-if.
* `RrfExhaustive` proves that the exhaustive scorer computes the fused order.
* `RrfFairness` is the rule by which either scheduler picks a source, with the
  exact largest wait over all runs.
* `RrfState`, `RrfRounds`, `RrfSession` and `RrfExecutor` are the incremental
  state, the rounds of a session as a state machine, the session that performs
  them, and the one-shot executor: under every policy, cost vector, batching and
  source behaviour a returned result is exact for what the sources said, and with
  sources that deliver their channels the session ends with it.
* `KWayMerge` and `KWayStream` are the merge of locally ranked streams into a
  channel, `ShardMerge` is the merge of the segments of one shard, which drops
  copies of a point, `ExactHybrid` puts merge and fusion together, and
  `HybridSearch` goes from the vectors and postings stored in the segments of all
  shards to the fused result.
* `Frontier` is the theory of emitting in exact order from bounded groups.
  `DenseRank` (quantised bounds, `ScalarCertificate` proves the interval) and
  `SparsePlan` / `SparseRank` (block-max ranges, with the rounding of
  `RrfScoring`) are its two uses, `SparseMeaning` says what sparse scores, bounds
  and ranges are in numbers. `CompressedPosting` proves the bounds that
  compressed postings report from their chunks.
  `SegmentStream` regroups ties by external identity and `LocalStream` carries a
  dense segment from its bounds and a sparse one from its postings to the replies
  it gives the merge, pull by pull and up to a failure.

**Cluster logic.**

* `HashRing` and `HashRingRouter`: the consistent hash ring and the router that
  holds two rings while a collection is resharded.
* `MessageSender` and `MessageBroker`: the per-peer sender of Raft messages as a
  state machine over every interleaving, and the broker that restarts it.
* `ConsensusStore`, `ConsensusEffects`, `ConsensusReady` and `ConsensusLoop`: the
  order of store writes, sends and applications with a crash between any two, what
  it sends and leaves on disk, the steps that produce it, and the loop that hands
  requests to the Raft node.
* `Health`: quorum reading of the commit index and the readiness checker.
* `Placement`: even placement of replicas and the least loaded peer.
* `ProcessWalk`: the walk over child processes.

**Embeddings.** `Bm25` (query and document embedding) and `Vocabulary`
(compaction of a sparse vocabulary) over the reals. `Sorting`, `RankOrder` and
`Common` hold shared definitions.

## Where code and documentation disagree

* The documentation says the executor returns as soon as the first ranks are
  fixed. The certificate declines a settled Top-K in exactly two situations
  (`RrfTightness.LateExactly`), both with some channel live: a live channel can
  still contribute and the Top-K is settled by a tie with the bound on unseen
  points that only smaller, already seen identities could win (`TieDeclines`), or
  no live channel can contribute and fewer points than asked for have a positive
  score (`ZeroWeightDeclines`).
* The fairness setting is documented as the largest number of actions a source
  waits, as a multiple of the number of sources. The largest wait is that window
  plus the number of sources minus two, and under either scheduler some run of a
  valid fusion attains it (`RrfFairness.RunBound`, `BoundIsAttained`); the
  documented maximum holds exactly for one or two sources (`DocumentedMaximum`).
* The sender's comment explains why messages are not lost between queue and
  heartbeat cell. An ordinary message can be skipped when the producer runs
  between the poll and the read of the cell (`MessageSender.SkipHappens`).
* Aborting a resharding is meant to restore the ring. It does so exactly if the
  aborted shard was absent before a scale-up or present before a scale-down; an
  abort in the wrong direction commits (`HashRingRouter.EndOfResharding`).
* The quorum comment assumes that a committed entry's index is known to a
  majority. A majority that has only stored the entry is not enough
  (`Health.StoredIsNotEnough`); `Health.ReadingCanMiss` says exactly when a
  reading can miss an index.
* A comment at startup says that Raft will not return entries up to the applied
  index. That index is read before the stored queue is replayed, so the first
  Ready delivers entries again exactly if something was left to replay
  (`ConsensusStore.AppliedTwice`, `TwiceHappens`).
* While a snapshot has been saved and the log it outran is not cleared yet, the
  stored commit index exceeds the last log index. This happens at exactly one
  write of a Ready, the snapshot save over a shorter non-empty log
  (`ConsensusStore.WindowExactly`, `WindowHappens`); opening the store repairs it
  (`SafeRecovers`).

## Model

| member | source | states |
|---|---|---|
| `RrfScoring.PositionScoreAntitone` | lib/segment/src/common/reciprocal_rank_fusion/scoring.rs:13-20 | for every rounding, a later rank never contributes more, and contributions are representable and non-negative; RrfMeaning ties them to k and the weight |
| `RrfMeaning.ContributionLaw` | lib/segment/src/common/reciprocal_rank_fusion/scoring.rs:13-20 | where nothing is rounded, the contribution of weight w at position p times (p + 1 + w (k - 1)) is w |
| `RrfMeaning.ContributionFallsWithK` | lib/segment/src/common/reciprocal_rank_fusion/scoring.rs:13-20 | for every rounding a larger k never contributes more |
| `RrfMeaning.ContributionGrowsWithWeight` | lib/segment/src/common/reciprocal_rank_fusion/scoring.rs:13-20 | for every rounding a larger weight never contributes less |
| `RrfMeaning.Overflow` | lib/segment/src/common/reciprocal_rank_fusion/scoring.rs:13-31 | for every rounding a rank that overflows contributes nothing and a sum that overflowed stays so |
| `RrfMeaning.FusedIsPlain` | lib/segment/src/common/reciprocal_rank_fusion/scoring.rs:22-31 | where nothing is rounded the fused score is the sum of w / (p + 1 + w (k - 1)) over the channels that list the point |
| `RrfMeaning.TopKIsPlain` | lib/segment/src/common/reciprocal_rank_fusion/scoring.rs:110-119 | and a list is the exact Top-K exactly if it is the Top-K by those sums, smaller identities first among equals |
| `RrfScoring.TopKUnique` | lib/segment/src/common/reciprocal_rank_fusion/scoring.rs:22-31 | the exact Top-K of given channels is unique |
| `RrfScoring.TakeIsTopK` | lib/segment/src/common/reciprocal_rank_fusion/scoring.rs:110-119 | cutting the complete fused order gives the Top-K for every limit |
| `RrfCertificate.ScoreBounds` | lib/segment/src/common/reciprocal_rank_fusion/state.rs:259-298 | in every completion of the channels a point's fused score lies between its known score and its upper bound |
| `RrfCertificate.CertifiedIsExact` | lib/segment/src/common/reciprocal_rank_fusion/state.rs:259-324 | a certified list is a prefix of the fused order of every completion |
| `RrfTightness.CertifiedIsDetermined` | lib/segment/src/common/reciprocal_rank_fusion/state.rs:259-324 | no two completions disagree on a certified Top-K |
| `RrfTightness.AcceptsIsCertified` | lib/segment/src/common/reciprocal_rank_fusion/state.rs:261-324 | the loop accepts exactly if a certified list of the asked length exists |
| `RrfTightness.SettledIsRelaxed` | lib/segment/src/common/reciprocal_rank_fusion/state.rs:261-324 | while a live channel can contribute, all completions agree exactly if a list exists that beats the unseen bound or ties with it when every smaller identity is seen |
| `RrfTightness.DeclinedThoughSettled` | lib/segment/src/common/reciprocal_rank_fusion/state.rs:293-310 | in that case a settled Top-K is declined exactly if such a list contains a tie |
| `RrfTightness.LateExactly` | lib/segment/src/common/reciprocal_rank_fusion/state.rs:261-324 | in every state: exactly when a Top-K on which all completions agree goes unanswered, which needs a live channel in either case |
| `RrfTightness.NothingLeftIsDetermined` | lib/segment/src/common/reciprocal_rank_fusion/state.rs:261-324 | when no live channel can contribute, all completions have the same Top-K |
| `RrfTightness.NothingLeftAcceptance` | lib/segment/src/common/reciprocal_rank_fusion/state.rs:261-324 | in that case the certificate declines exactly if fewer points than asked for have a positive score |
| `RrfTightness.TieDeclines` | lib/segment/src/common/reciprocal_rank_fusion/state.rs:293-310 | a concrete settled tie that the certificate declines |
| `RrfTightness.TieIsOpenForTwo` | lib/segment/src/common/reciprocal_rank_fusion/state.rs:293-310 | the same state asked for two ranks is declined rightly |
| `RrfTightness.ZeroWeightDeclines` | lib/segment/src/common/reciprocal_rank_fusion/state.rs:293-310 | a concrete settled state with a weightless live channel that the certificate declines |
| `RrfExhaustive.ScoringIsFusedOrder` | lib/segment/src/common/reciprocal_rank_fusion/scoring.rs:56-119 | for responses without repeats the accumulated, sorted result is the complete fused order with the fused scores |
| `RrfExhaustive.RrfScores` | lib/segment/src/common/reciprocal_rank_fusion/scoring.rs:56-101 | the map of running scores equals the per-identity fold over all responses, repeats included |
| `RrfExhaustive.ExactRrfScoring` | lib/segment/src/common/reciprocal_rank_fusion/scoring.rs:110-119 | the result holds exactly the identities of positive score, ranked, for every k including zero; a weight count mismatch is an error |
| `RrfState.DynamicRrfState.New` | lib/segment/src/common/reciprocal_rank_fusion/state.rs:32-77 | succeeds exactly for a valid configuration and then knows nothing |
| `RrfState.DynamicRrfState.ObserveBatch` | lib/segment/src/common/reciprocal_rank_fusion/state.rs:110-168 | accepts exactly the batches that continue their channel without repeats, appends them, and changes nothing otherwise |
| `RrfState.DynamicRrfState.FixedTopK` | lib/segment/src/common/reciprocal_rank_fusion/state.rs:261-324 | a returned list is the Top-K of every completion; none is returned exactly if some channel is live and the certificate declines |
| `RrfState.DynamicRrfState.CompleteOrder` | lib/segment/src/common/reciprocal_rank_fusion/state.rs:326-342 | the complete fused order of what was observed |
| `RrfFairness.FairBound` | lib/segment/src/common/reciprocal_rank_fusion/session.rs:381-442 | under the fairness invariant no live source has waited more than window plus number of sources minus two actions |
| `RrfFairness.FairStep` | lib/segment/src/common/reciprocal_rank_fusion/session.rs:381-442 | advancing the longest waiting overdue source keeps the fairness invariant |
| `RrfFairness.RunBound` | lib/segment/src/common/reciprocal_rank_fusion/session.rs:381-442 | that bound for every live source in every run from the start, under either scheduler, whatever the ranks, costs and counts and whenever sources end |
| `RrfFairness.BoundIsAttained` | lib/segment/src/common/reciprocal_rank_fusion/session.rs:381-442 | for either scheduler, every number of sources from two on and every window, a valid fusion and a run of it in which a source waits exactly that long |
| `RrfFairness.DocumentedMaximum` | lib/segment/src/common/reciprocal_rank_fusion/types.rs:82-85 | under either scheduler and every setting the documented maximum wait holds in all runs exactly for one or two sources |
| `RrfFairness.LongestWaiting` | lib/segment/src/common/reciprocal_rank_fusion/session.rs:381-410 | the overdue source that waited longest |
| `RrfFairness.HighestPriority` | lib/segment/src/common/reciprocal_rank_fusion/session.rs:410-442 | an eligible source of highest priority |
| `RrfFairness.Choose` | lib/segment/src/common/reciprocal_rank_fusion/session.rs:381-442 | the whole rule: the longest waiting overdue source, and with none overdue one of highest priority, the lowest index among equals |
| `RrfRounds.CallIsHonest` | lib/segment/src/common/reciprocal_rank_fusion/session.rs:243-370 | a whole call on honest sources, round by round, does not fail and keeps its place in their channels |
| `RrfRounds.CallIsFair` | lib/segment/src/common/reciprocal_rank_fusion/session.rs:381-442 | in a call without targets fairness is kept and at no moment has a live source waited longer than the bound |
| `RrfRounds.RoundIsHonest` | lib/segment/src/common/reciprocal_rank_fusion/session.rs:334-368 | a round on honest sources succeeds, and a round that succeeds leaves strictly less to read |
| `RrfSession.DynamicRrfSession.New` | lib/segment/src/common/reciprocal_rank_fusion/session.rs:87-150 | succeeds exactly for valid sources, costs, weights and policy, and then has read nothing, owes a certification and has the warm-up of twice the limit for every source; fair when fairness is set |
| `RrfSession.DynamicRrfSession.SelectSource` | lib/segment/src/common/reciprocal_rank_fusion/session.rs:381-442 | the session picks by exactly that rule from what it knows: which sources are live and below target, how long each waited, and their priorities as numbers |
| `RrfSession.DynamicRrfSession.PullSource` | lib/segment/src/common/reciprocal_rank_fusion/session.rs:334-368 | one pull records exactly the reply, or fails without recording; counters, schedule and the wish for a certification follow |
| `RrfSession.DynamicRrfSession.AdvanceUntilEach` | lib/segment/src/common/reciprocal_rank_fusion/session.rs:243-370 | the whole call, round by round: it certifies exactly when due, reads one source by the rule only while there is no answer and no reason to pause, and ends with the answer, paused because every target was reached without one, or with the failed read; a settled result is exact; honest sources never fail |
| `RrfSession.DynamicRrfSession.CheckIfDue` | lib/segment/src/common/reciprocal_rank_fusion/session.rs:256-299 | certifies exactly at the end, or below the exhaustive budget on demand and once an interval, which is the warm-up setting and later an eighth of all pulls between 64 and 1024; an answer exactly if the state has one |
| `RrfSession.DynamicRrfSession.RunToCompletion` | lib/segment/src/common/reciprocal_rank_fusion/session.rs:372-379 | such a call without targets; with honest sources returns the exact Top-K of their channels; in a fair session no source waited longer than the bound at any moment |
| `RrfSession.DynamicRrfSession.ExtendTopK` | lib/segment/src/common/reciprocal_rank_fusion/session.rs:171-184 | a longer prefix is accepted, a shorter one refused, and exactly the limit, the warm-up and the wish for a certification change |
| `RrfSession.DynamicRrfSession.RunToPrefix` | lib/segment/src/common/reciprocal_rank_fusion/session.rs:186-208 | a longer prefix is exact too, by a further call or, exactly once every source has ended in an earlier one, from the cached complete order without reading |
| `RrfSession.DynamicRrfSession.ReplaceSource` | lib/segment/src/common/reciprocal_rank_fusion/session.rs:210-239 | a replacement is accepted exactly if its source is live and it replays what was read, and goes on after that |
| `RrfExecutor.ExecuteDynamicRrf` | lib/segment/src/common/reciprocal_rank_fusion/executor.rs:8-38 | for every policy, cost vector and batching the result is the exact Top-K; a bad configuration is an error; whatever the sources are, a result is the Top-K of every continuation of what they said before any failure |
| `RrfExecutor.CallSays` | lib/segment/src/common/reciprocal_rank_fusion/session.rs:334-368 | a call that succeeds skipped no failure: what it read of each source is what its replies said, and it counts as ended only if it said so |
| `RrfExecutor.DynamicMatchesExhaustive` | lib/segment/src/common/reciprocal_rank_fusion/tests.rs:684-743 | the dynamic result is the exhaustive one cut to the limit |
| `KWayMerge.Emit` | lib/segment/src/index/exact_rank_stream.rs:287-304 | emitting the best head keeps the merged order and loses no point |
| `KWayMerge.EmittedIsPrefix` | lib/segment/src/index/exact_rank_stream.rs:210-304 | what was emitted from honest sources is a prefix of the merged order |
| `KWayStream.KWayExactScoreStream.New` | lib/segment/src/index/exact_rank_stream.rs:105-154 | opens with one point of every source; honest sources never fail |
| `KWayStream.KWayExactScoreStream.Refill` | lib/segment/src/index/exact_rank_stream.rs:210-285 | loads the next point of a source or notes its end and touches no other source; honest sources never fail |
| `KWayStream.Accept` | lib/segment/src/index/exact_rank_stream.rs:218-262 | accepts a reply exactly if it is not oversized, not empty without end, in order and free of identities already emitted |
| `KWayStream.KWayExactScoreStream.NextInner` | lib/segment/src/index/exact_rank_stream.rs:287-304 | emits the best loaded head; the end is reported only when all sources ended and everything they delivered is out |
| `KWayStream.KWayExactScoreStream.NextRankBatch` | lib/segment/src/index/exact_rank_stream.rs:164-208 | contiguous ranks, explicit end, and a failure that is final |
| `KWayStream.EndIsTold` | lib/segment/src/index/exact_rank_stream.rs:79-85 | fail closed: at a reported end every source had replied without a failure up to its own end, and the emission is the merged order of exactly these points |
| `KWayStream.DeliveredOrder` | lib/segment/src/index/exact_rank_stream.rs:164-304 | the channel delivers the score-then-identity order of all local lists |
| `KWayStream.ReplyIsNextStretch` | lib/segment/src/index/exact_rank_stream.rs:164-195 | each reply is the next stretch of that order, whatever the batching below |
| `ShardMerge.Pop` | lib/shard/src/exact_shard_stream.rs:140-193 | the next point of a segment, after the checks of a fresh batch; a segment that delivers its ranking never fails |
| `ShardMerge.MergeOne` | lib/shard/src/exact_shard_stream.rs:309-349 | taking the best head with all its copies keeps the emission the ranked union of what was taken |
| `ShardMerge.EndAgrees` | lib/shard/src/exact_shard_stream.rs:309-349 | a merge that ends without a conflict shows that all copies agree in score and version |
| `ShardMerge.ExactShardStream.Open` | lib/shard/src/exact_shard_stream.rs:239-281 | opens with the head of every segment; delivering segments never fail |
| `ShardMerge.ExactShardStream.NextInner` | lib/shard/src/exact_shard_stream.rs:309-349 | the best head goes out together with its copies; with agreeing copies never an error; an end means every segment replied without a failure up to its own |
| `ShardMerge.EndIsTold` | lib/shard/src/exact_shard_stream.rs:309-349 | no failure of a segment is mistaken for an end: at the end exactly the points its segments told are out |
| `ShardMerge.ExactShardStream.NextBatch` | lib/shard/src/exact_shard_stream.rs:283-307 | as many points as asked for, fewer only at the end; an error is final |
| `ShardMerge.ShardReplies` | lib/shard/src/exact_shard_stream.rs:76-112 | over delivering segments the stream ends without failure exactly if copies agree, and is then the ranking of all points, each once; whatever the segments do, an end without failure holds exactly the points they told |
| `ExactHybrid.PullReplies` | lib/collection/src/collection/exact_rrf/source.rs:60-69 | the replies of a merged channel to successive pulls, failing ones included: stretches of one ranked order, whose end is told only if no shard failed; over delivering shards exactly the stretches of its order |
| `ExactHybrid.ExecuteHybrid` | lib/collection/src/collection/exact_rrf/session.rs:48-149 | a bad configuration is refused; over shards that deliver the call succeeds and the result is the exact Top-K, that is the exhaustive fusion of the complete channels cut to the limit; whatever the shards do, a result is exact for what was read, and a channel ended only if none of its shards failed |
| `HybridSearch.BoundsCertify` | lib/segment/src/index/dense_rank_state/plans.rs:96-124 | bounds computed from quantised vectors and recorded norms are accepted and hold for every eligible point |
| `HybridSearch.SparseShowsDot` | lib/sparse/src/index/posting_batch.rs:13-44 | without negative impacts and rounding a sparse query shows exactly the visible points whose dot product with the query is not zero, with that score |
| `HybridSearch.MergeShard` | lib/shard/src/exact_shard_stream.rs:76-112 | segments whose copies agree in score and version become one honest source that shows each point once, and otherwise the source fails before its end |
| `HybridSearch.DenseChannel` | lib/collection/src/collection/exact_rrf/session.rs:102-128 | every shard becomes an honest source of the points its segments hold, each once, by exact score; none fails if norms are right and copies agree |
| `HybridSearch.SparseChannel` | lib/collection/src/collection/exact_rrf/session.rs:68-101 | every shard becomes an honest source of the visible points of its segments that surface, each once; none fails if nothing stops it and copies agree |
| `HybridSearch.Search` | lib/collection/src/collection/exact_rrf/session.rs:48-149 | from the vectors and postings of all segments of all shards to the exact Top-K of fusing the ranking of all eligible points by exact dot product with that of all surfacing points by sparse score; sound shards and an acceptable request never fail, a bad request is refused |
| `Frontier.Resolve` | lib/segment/src/index/dense_rank_state/core.rs:270-300 | scoring a group within its bound keeps emission exact |
| `Frontier.Emit` | lib/segment/src/index/dense_rank_state/core.rs:270-300 | emitting a point that beats every group keeps emission exact |
| `Frontier.EmittedIsPrefix` | lib/segment/src/index/dense_rank_state/core.rs:224-311 | with right bounds the emission is a prefix of the complete ranking |
| `Frontier.ExhaustedIsWhole` | lib/segment/src/index/dense_rank_state/core.rs:224-311 | a stream that ends without error is the complete ranking whatever the bounds were |
| `DenseRank.DenseRankState.FromCertificateBounds` | lib/segment/src/index/dense_rank_state/core.rs:121-175 | accepts exactly bounds for each eligible point once with lower not above upper |
| `DenseRank.DenseRankState.RefineBounds` | lib/segment/src/index/dense_rank_state/core.rs:325-364 | keeps emission exact or reports a violated certificate; hands only points of the taken bounds to the scorer, each once |
| `DenseRank.DenseRankState.TakeBounds` | lib/segment/src/index/dense_rank_state/core.rs:290-299 | the highest bounds, a refinement batch of them or all there are |
| `DenseRank.DenseRankState.FixedPoint` | lib/segment/src/index/dense_rank_state/core.rs:280-289 | a point leaves exactly if it comes before all scored points and all bounds |
| `DenseRank.DenseRankState.NextPoint` | lib/segment/src/index/dense_rank_state/core.rs:276-301 | emits the next rank; nothing is left when none comes; nothing is scored if a point is fixed already, and otherwise fewer points than a refinement batch have bounds that the emitted point beats |
| `DenseRank.DenseRankState.NextBatch` | lib/segment/src/index/dense_rank_state/core.rs:227-311 | as many ranks as asked for, fewer only at the end; an error only for a violated certificate |
| `DenseRank.DenseRankState.EmissionIsExact` | lib/segment/src/index/dense_rank_state/core.rs:109-118 | the emission is a prefix of the exact ranking, the whole of it at the end, and no point is scored twice |
| `ScalarCertificate.CauchySchwarz` | lib/segment/src/index/dense_rank_state/plans.rs:98-117 | the inequality behind the error term, for vectors of every dimension |
| `ScalarCertificate.IntervalContainsScore` | lib/segment/src/index/dense_rank_state/plans.rs:98-117 | the exact dot product lies in the interval around the quantised one |
| `SparsePlan.ScoreBelowBound` | lib/sparse/src/index/posting_block_max/kernel.rs:226-234 | for every rounding no point of a range scores above its bound, even with negative impacts and with maxima that are too large |
| `SparsePlan.BoundSign` | lib/sparse/src/index/posting_list.rs:260-272 | with exact maxima a bound is positive exactly if some impact of the range contributes |
| `SparsePlan.Span` | lib/sparse/src/index/posting_block_max/kernel.rs:214-222 | the least and one after the largest identity any term stores |
| `SparsePlan.PlanBatches` | lib/sparse/src/index/posting_block_max/kernel.rs:206-256 | consecutive ranges of the batch width with their bounds that cover exactly the identities whose range has a positive bound |
| `SparsePlan.PlanBatchesNative` | lib/sparse/src/index/posting_block_max/kernel.rs:258-310 | the planner that sums the maxima of all ranges term by term makes such a plan too |
| `SparseMeaning.PlanIsCut` | lib/sparse/src/index/posting_block_max/kernel.rs:206-256 | every batch starts a multiple of the width after the least identity and is as wide, up to the last identity |
| `SparseMeaning.RangeStartIsMultiple` | lib/sparse/src/index/posting_block_max/kernel.rs:206-256 | the range of an identity in numbers |
| `SparseMeaning.BoundIsDot` | lib/sparse/src/index/posting_block_max/kernel.rs:226-234 | where nothing is rounded a bound is the dot product of the reported maxima with the query weights |
| `SparsePlan.KeptExactly` | lib/sparse/src/index/posting_list.rs:260-272 | with exact maxima the covered identities are those whose range has a contributing impact |
| `CompressedPosting.BlocksBound` | lib/sparse/src/index/compressed_posting_list.rs:725-830 | what a compressed posting reports for a range, by either way, is at least zero and at least every impact in it |
| `CompressedPosting.BlockBoundAttained` | lib/sparse/src/index/compressed_posting_list.rs:725-830 | and no looser than its chunks: zero, or the impact of an element in the range or in a chunk that reaches into it |
| `CompressedPosting.PostingHolds` | lib/sparse/src/index/compressed_posting_list.rs:650-715 | the posting has exactly the stored impacts |
| `CompressedPosting.MaxWeightTillId` | lib/sparse/src/index/compressed_posting_list.rs:725-757 | from a cursor at the first element of the range, the largest impact over the chunks that meet the range and the remainders in it |
| `CompressedPosting.FillBlockMaxRanges` | lib/sparse/src/index/compressed_posting_list.rs:792-830 | every range gets the largest impact over the chunks that may meet it, without unpacking identities, and the remainders in it |
| `CompressedPosting.FilledIsPlanned` | lib/sparse/src/index/posting_block_max/kernel.rs:258-310 | the filled bounds are the maxima of the planner, range by range, also for the cut last one |
| `CompressedPosting.ForEachInIdRange` | lib/sparse/src/index/compressed_posting_list.rs:650-715 | reads exactly the elements of a range, in order |
| `SparsePlan.LeftOutScores` | lib/sparse/src/index/posting_block_max/kernel.rs:237-246 | whatever is left out scores at most zero, and zero without negative impacts |
| `SparsePlan.NonNegativePlanIsComplete` | lib/sparse/src/index/posting_block_max/kernel.rs:206-256 | without negative impacts every point that scores is in a batch |
| `SparsePlan.NegativeIsLost` | lib/sparse/src/index/posting_block_max/kernel.rs:237-246 | a concrete point with a negative score that no batch covers |
| `SparseRank.ScoreRange` | lib/sparse/src/index/posting_batch.rs:13-44 | the buffer holds every point's score after all postings, by SparseMeaning the dot product of its impacts with the query weights |
| `SparseMeaning.BufferIsDot` | lib/sparse/src/index/posting_batch.rs:13-44 | where nothing is rounded that buffer holds the dot products of impacts and query weights |
| `SparseMeaning.ScoreIsDot` | lib/sparse/src/index/posting_batch.rs:13-44 | so is every score |
| `SparseMeaning.TermGrowsWithWeight` | lib/sparse/src/index/posting_batch.rs:13-44 | for every rounding a larger query weight never lowers the term of a non-negative impact |
| `SparseRank.CollectScoredPoints` | lib/sparse/src/index/posting_block_max/kernel.rs:331-358 | keeps exactly the points that score; stops at the first look that finds the flag set and fails otherwise only if the bound is wrong |
| `SparseRank.ScoreBatch` | lib/sparse/src/index/posting_block_max/kernel.rs:130-149 | a planned batch is never refused: score and bound are rounded alike |
| `SparseRank.PostingBlockMaxState.Expand` | lib/sparse/src/index/posting_block_max/kernel.rs:130-174 | scores the best batch; for every rounding the certificate is never violated |
| `SparseRank.PostingBlockMaxState.NextBatch` | lib/sparse/src/index/posting_block_max/mod.rs:166-236 | emits fixed points, none only at the end; scores a batch only while no point is fixed, and none that its first point beats; an error is final, and a running stream fails exactly at the first look that finds the stop flag set |
| `SparseRank.PostingBlockMaxState.EmissionIsExact` | lib/sparse/src/index/posting_block_max/mod.rs:133-155 | the emission is a prefix of the ranking of all planned points that score, the whole of it at the end |
| `SegmentStream.GroupComesFirst` | lib/segment/src/segment/read_view/search.rs:197-222 | sorting the leading ties by identity and the rest later is sorting everything |
| `SegmentStream.SegmentRankState.PullVisible` | lib/segment/src/segment/read_view/search.rs:313-345 | the next visible point under its external identity; an unmapped one is always an error |
| `SegmentStream.SegmentRankState.NextBatch` | lib/segment/src/segment/read_view/search.rs:147-228 | the next stretch of the ranking by score and external identity, shorter only at the end |
| `LocalStream.PullRanks` | lib/segment/src/index/dense_rank_state/core.rs:227-311 | what a dense state delivers is always ranked in order; without a failure it is the exact ranking, and a failure means a violated certificate |
| `LocalStream.PullSparseRanks` | lib/sparse/src/index/posting_block_max/mod.rs:166-236 | what a sparse state delivers is always ranked in order; without a failure it is the ranking of all planned points that score, and a failure means that a look found the stop flag set |
| `LocalStream.SegmentReplies` | lib/segment/src/segment/read_view/search.rs:125-228 | the replies of a segment to successive pulls: stretches of the external ranking of what its state delivers, up to the end or a failing reply; they fail exactly if the state does or a visible point is unmapped |
| `LocalStream.DenseReplies` | lib/segment/src/segment/read_view/search.rs:125-228 | mismatched bounds are refused; each reply is the next stretch of the external ranking of some of the eligible points by exact score; bounds that hold leave out none and, with every point mapped, no reply fails; if no reply fails, none was left out and all are mapped |
| `LocalStream.SparseReplies` | lib/segment/src/segment/read_view/search.rs:230-385 | each reply is the next stretch of the external ranking of visible points that surface; unless a look finds the stop flag set all do, and with every point mapped no reply fails; if no reply fails, none was left out and all are mapped |
| `LocalStream.ScoringSurface` | lib/sparse/src/index/posting_block_max/kernel.rs:206-256 | without negative impacts exactly the points that score surface |
| `HashRing.RingIsCanonical` | lib/collection/src/hash_ring.rs:195-226 | nodes and scale alone determine the ring, whatever additions and removals led to it |
| `HashRing.LibGetIsClosest` | lib/collection/src/hash_ring.rs:270-276 | lookup finds the entry closest clockwise from the key |
| `HashRing.OwnerIsNode` | lib/collection/src/hash_ring.rs:268-276 | every key of a non-empty ring has an owner among the nodes, an empty ring has none |
| `HashRing.OwnerExactly` | lib/collection/src/hash_ring.rs:195-276 | the owner of a key is the shard of the virtual node met first going up from the key and around, among one node a shard, or as many as the scale |
| `HashRing.RingHolds` | lib/collection/src/hash_ring.rs:195-226 | the ring holds exactly these virtual nodes at their hashes |
| `HashRing.MinimalDisruption` | lib/collection/src/hash_ring.rs:228-266 | with one shard more every key keeps its owner or moves to that shard |
| `HashRing.Ring.Add` | lib/collection/src/hash_ring.rs:228-246 | the ring of the larger node set; false and no change for a present shard |
| `HashRing.Ring.Remove` | lib/collection/src/hash_ring.rs:248-266 | the ring of the smaller node set; false and no change for an absent shard |
| `HashRingRouter.Router.Add` | lib/collection/src/hash_ring.rs:35-55 | adds to the single ring, or to both rings while resharding if it is in neither; exactly which shards are in each ring afterwards and when it refuses |
| `HashRingRouter.Router.StartResharding` | lib/collection/src/hash_ring.rs:57-80 | the two node sets after a start, also when a resharding is already running |
| `HashRingRouter.Router.CommitResharding` | lib/collection/src/hash_ring.rs:82-90 | the new ring remains |
| `HashRingRouter.Router.AbortResharding` | lib/collection/src/hash_ring.rs:92-138 | the node sets after the abort, and whether they became one ring |
| `HashRingRouter.StartMembership` | lib/collection/src/hash_ring.rs:57-80 | shard by shard, who is in which ring after a start |
| `HashRingRouter.AbortMembership` | lib/collection/src/hash_ring.rs:92-138 | shard by shard, who is in the ring that an abort leaves, and exactly when it leaves one |
| `HashRingRouter.Router.Perform` | lib/collection/src/hash_ring.rs:35-138 | every operation does to the rings what the run says |
| `HashRingRouter.RefusedExactly` | lib/collection/src/hash_ring.rs:57-80 | only a start can be refused, exactly a second one for something else and one that would take the last shard |
| `HashRingRouter.AddedStays` | lib/collection/src/hash_ring.rs:35-138 | in every run a shard added to a single ring, or during a resharding in neither ring, stays routed to and is in whatever ring commit or abort leaves, unless it is resharded itself |
| `HashRingRouter.Router.Get` | lib/collection/src/hash_ring.rs:140-151 | the owners in the canonical rings of the node sets, without repetition |
| `HashRingRouter.RunConsistent` | lib/collection/src/hash_ring.rs:17-138 | in every run the two rings differ by exactly the shard being resharded |
| `HashRingRouter.EndOfResharding` | lib/collection/src/hash_ring.rs:82-138 | what commit and every abort restore, with the exact condition for each |
| `HashRingRouter.AbortUndoesStart` | lib/collection/src/hash_ring.rs:57-138 | abort after start restores the node set exactly if the shard was absent for up, present for down |
| `HashRingRouter.ReshardingCoversBoth` | lib/collection/src/hash_ring.rs:140-151 | while resharding a key is routed to its old owner and then, if another, its new one, and only keys of the target have two |
| `HashRingRouter.Router.IsInShard` | lib/collection/src/hash_ring.rs:156-163 | a point is in a shard exactly if the filter over the ring that will remain accepts it |
| `HashRingRouter.FiltersPartition` | lib/collection/src/hash_ring.rs:305-333 | every point passes the filter of exactly one shard |
| `HashRingRouter.TargetFilterIsMigration` | lib/collection/src/hash_ring.rs:156-163 | on scale-up the target's filter accepts exactly the points whose owner changes |
| `MessageSender.RunKeeps` | src/consensus.rs:1224-1337 | the invariant of queue, heartbeat cell and sender holds in every interleaving |
| `MessageSender.DeliveredInOrder` | src/consensus.rs:1231-1336 | delivered indices strictly increase: nothing twice, nothing reordered |
| `MessageSender.DrainedSendsLast` | src/consensus.rs:1302-1336 | with queue and cell drained the last delivered message is the last accepted one |
| `MessageSender.PostAccepts` | src/consensus.rs:1231-1252 | in every run the handle takes a heartbeat while the sender runs and any other message while fewer than 128 wait, numbers it and puts it where the sender looks |
| `MessageSender.Drains` | src/consensus.rs:1302-1336 | from every run on, left alone, the sender empties queue and cell |
| `MessageSender.LastIsSent` | src/consensus.rs:1302-1336 | so after every run the last accepted message is delivered last |
| `MessageSender.Stops` | src/consensus.rs:1322-1336 | and once the handle is gone the sender stops |
| `MessageSender.StoppedIsDrained` | src/consensus.rs:1322-1336 | the sender stops only after everything accepted was looked at |
| `MessageSender.OrdinaryMessages` | src/consensus.rs:1302-1336 | in a drained state an ordinary message was skipped exactly if a newer heartbeat overtook it, and delivered otherwise |
| `MessageSender.AtomicSkipsNothing` | src/consensus.rs:1302-1320 | if poll and read of the cell are one step no ordinary message is skipped |
| `MessageSender.SkipHappens` | src/consensus.rs:1302-1336 | a concrete interleaving in which an ordinary message is skipped |
| `MessageBroker.RaftMessageBroker.Send` | src/consensus.rs:1136-1197 | under every fate of the senders between attempts: without a sender one is spawned, a dead one is replaced and the message tried once more; each message is forwarded once to its peer or dropped, and dropped exactly if it is no heartbeat and its running sender has no room |
| `MessageBroker.RaftMessageBroker.Attempt` | src/consensus.rs:1136-1197 | one attempt: exactly when it finds a dead task or a full queue, and the senders it leaves |
| `MessageBroker.ForwardedKeepsOrder` | src/consensus.rs:1136-1197 | each peer's forwarded messages are all its forwarded ones in batch order |
| `ConsensusStore.SafeRecovers` | lib/storage/src/content_manager/consensus_manager.rs:116-133 | a safe store opens with its indices in order, and unchanged if they were |
| `ConsensusStore.OpenSafe` | src/consensus.rs:206-262 | opening, replay of the stored queue and compaction are safe after every single write and end in order, with exactly the replayed entries applied |
| `ConsensusStore.AppendInOrder` | lib/storage/src/content_manager/consensus/consensus_wal.rs:160-260 | every intermediate log while entries overwrite a tail is in order |
| `ConsensusStore.ReadySafe` | src/consensus.rs:926-1007 | after every single write of a Ready the snapshot, applied, queued, commit and last index are in order or in the snapshot window |
| `ConsensusStore.WindowExactly` | src/consensus.rs:926-1007 | a write of a Ready is out of order exactly if it is the snapshot save and the non-empty log ends before the snapshot |
| `ConsensusStore.WindowHappens` | src/consensus.rs:926-1007 | a concrete Ready that writes such a state |
| `ConsensusStore.AppliedTwice` | src/consensus.rs:206-262 | after opening, the first Ready with committed entries applies one again exactly if the stored queue was not empty |
| `ConsensusStore.TwiceHappens` | src/consensus.rs:206-262 | a concrete store and Ready that apply an entry twice |
| `ConsensusStore.OpenIsOrderly` | src/consensus.rs:253-262 | no write of the startup is out of order |
| `ConsensusStore.OpenApplies` | lib/storage/src/content_manager/consensus_manager.rs:338-405 | the startup applies exactly the queued entries up to the one that removes the own peer |
| `ConsensusStore.ReadyApplies` | src/consensus.rs:926-1007 | a Ready applies exactly its committed entries |
| `ConsensusStore.LightSafe` | src/consensus.rs:1015-1050 | the same for a LightReady |
| `ConsensusStore.CompactInOrder` | lib/storage/src/content_manager/consensus_manager.rs:887-915 | compaction keeps the order and the last index |
| `ConsensusStore.CompactKeeps` | lib/storage/src/content_manager/consensus_manager.rs:887-915 | compaction keeps every entry from the last applied one on, and does nothing exactly below the minimum number of entries |
| `ConsensusStore.ReopenedIsSafe` | lib/storage/src/content_manager/consensus/consensus_wal.rs:264-310 | entries below the log that come back at a reopening, because a compaction was not on disk, are in front of it again and change neither the order nor where the log ends |
| `ConsensusStore.FinishSafe` | src/consensus.rs:877-902 | a LightReady, stopped at any of its entries or not, and the compaction that follows either way are safe after every write and end in order |
| `ConsensusStore.RunSafe` | src/consensus.rs:206-262 | in every run of openings and passes with crashes anywhere, also during the replay, stops at entries that remove the own peer, and compactions lost at a reopening, every state ever written recovers, every pass starts in order, and an entry is applied only as the next one, committed and still in the log |
| `ConsensusStore.PersistedBeforeSend` | src/consensus.rs:955-991 | when persisted messages go out all entries and the hard state of the same Ready are on disk |
| `ConsensusEffects.ReadySends` | src/consensus.rs:926-1007 | a Ready, stopped or not, sends its messages and then its persisted messages, nothing else |
| `ConsensusEffects.PersistedOnce` | src/consensus.rs:955-991 | exactly one event sends the persisted messages |
| `ConsensusEffects.LightSends` | src/consensus.rs:1015-1050 | a LightReady, stopped or not, sends exactly its messages |
| `ConsensusEffects.PassSends` | src/consensus.rs:877-902 | a pass sends all messages of both, in order |
| `ConsensusEffects.ReadyLog` | src/consensus.rs:926-1007 | the log after a Ready: its entries, and unless a snapshot came the old ones before the first of them |
| `ConsensusEffects.ReadyLeaves` | src/consensus.rs:926-1007 | snapshot, hard state, applied and queued index after a Ready |
| `ConsensusEffects.LightLeaves` | src/consensus.rs:1015-1050 | the whole disk after a LightReady |
| `ConsensusEffects.StoppedLeaves` | src/consensus.rs:1015-1050 | and after one that an entry stops |
| `ConsensusEffects.CompactExactly` | lib/storage/src/content_manager/consensus_manager.rs:887-915 | compaction forgets exactly the entries below the last applied one, or nothing, and exactly when |
| `ConsensusEffects.OpenLeaves` | src/consensus.rs:206-262 | the applied index after an opening; nothing else changes but the log |
| `ConsensusEffects.OpenLog` | src/consensus.rs:206-262 | an opening keeps every entry from the last applied one on and adds none |
| `ConsensusEffects.SinceExactly` | src/consensus.rs:877-902 | what the node has been handed after a pass: up to the last committed entry of the LightReady or of the Ready, or up to the snapshot |
| `ConsensusReady.Consensus.AppendEntries` | lib/storage/src/content_manager/consensus/consensus_wal.rs:160-260 | the writes and the log of the specification |
| `ConsensusReady.Consensus.ApplyEntries` | lib/storage/src/content_manager/consensus_manager.rs:338-405 | drains the queue, saving progress after each entry |
| `ConsensusReady.Consensus.ProcessReady` | src/consensus.rs:926-1007 | produces exactly the specified events, also up to the entry that stops it, and leaves the store in order |
| `ConsensusReady.Consensus.ProcessLightReady` | src/consensus.rs:1015-1050 | the same for a LightReady, also when an entry stops it |
| `ConsensusReady.Consensus.OnReady` | src/consensus.rs:877-902 | one pass writes exactly the events of a pass of the run, with the compaction also after a stop in the LightReady; a stop in the Ready leaves exactly its events up to that entry |
| `ConsensusReady.Consensus.Replay` | lib/storage/src/content_manager/consensus_manager.rs:338-405 | replays the stored queue entry by entry, up to the removal of the own peer |
| `ConsensusReady.Consensus.Open` | src/consensus.rs:253-262 | startup on any safe store, with or without the last compaction, writes exactly the specified events and leaves the store in order |
| `ConsensusLoop.Consensus.FindLearnerToPromote` | src/consensus.rs:857-872 | a learner whose matched index is the commit index, none only if there is none |
| `ConsensusLoop.Consensus.TryPromoteLearner` | src/consensus.rs:824-855 | proposes only as leader with nothing in flight; exactly when it does nothing |
| `ConsensusLoop.Consensus.HandleBatch` | src/consensus.rs:572-630 | offers the requests in order to the node until 128 were taken or one changed the membership; the node and the record of accepted requests are exactly those of the offers the node took, and the Raft messages among them are counted |
| `ConsensusLoop.Consensus.AdvanceNode` | src/consensus.rs:564-630 | a promotable learner is promoted in place of the batch, otherwise the batch is handled, with exactly these effects; it fails exactly if the node refuses the promotion |
| `ConsensusLoop.BatchLimits` | src/consensus.rs:572-630 | a batch takes at most 128 requests and at most one membership change, the last |
| `ConsensusLoop.Consensus.Offer` | src/consensus.rs:643-736 | a request is taken exactly if the node takes it |
| `ConsensusLoop.Consensus.Pass` | src/consensus.rs:499-561 | one pass: promotion or batch, then the reported ticks, then on_ready |
| `ConsensusLoop.ReportTicks` | src/consensus.rs:501-531 | exactly the ticks elapsed, or, when peers were heard from, as many as stay below an election |
| `ConsensusLoop.Consensus.Start` | src/consensus.rs:499-561 | every run is passes one after another, each a promotion or batch, its ticks and on_ready; membership changes are separated by on_ready, and a node that stays leader promotes again only after its last promotion is committed |
| `Health.QuorumReading` | src/common/health.rs:235-292 | half of the other peers answering is enough to see any index a majority holds |
| `Health.ReadingThreshold` | src/common/health.rs:235-265 | exactly how many holders every such reading needs |
| `Health.ReadingCanMiss` | src/common/health.rs:235-292 | for all commit indices, exactly when a reading with the asked number of answers can miss an index |
| `Health.StoredIsNotEnough` | src/common/health.rs:235-246 | a concrete committed index, stored by every peer, that a full reading misses |
| `Health.HealthChecker.ClusterCommitIndex` | src/common/health.rs:209-293 | the highest answer, zero without any, none for a single peer |
| `Health.HealthChecker.CatchUp` | src/common/health.rs:159-182 | ends only once a repeated reading was reached by the own commit index, or alone, and does so once things settle |
| `Health.HealthChecker.AwaitShards` | src/common/health.rs:184-200 | ends exactly when every initially unhealthy shard was seen healthy |
| `Health.HealthChecker.Follow` | src/common/health.rs:159-200 | from the first reading on: caught up and healed, alone, or still waiting for a stated reason |
| `Health.HealthChecker.ExecImpl` | src/common/health.rs:136-203 | ready only on these grounds, with the bootstrap awaited where asked for, never taken back, and reached three wake-ups after things settle; exactly why not otherwise |
| `Health.ReadyIsCaughtUp` | src/common/health.rs:159-182 | with a quorum answering, everything a majority held at the deciding reading was applied |
| `Placement.GenerateEvenPlacement` | src/common/collections.rs:141-166 | for any shuffle replica r of shard s is peer (s times replicas + r) modulo the pool; every shard has its replicas on distinct peers and loads differ by at most one |
| `Placement.LeastLoadedPeer` | src/common/collections.rs:743-762 | a peer of least load among replica holders and registered peers, a least element of every load table of the collection |
| `Placement.PickAddsShard` | src/common/collections.rs:743-762 | adding a shard on a peer is one pick in the loads |
| `Placement.PicksKeepLevel` | src/common/collections.rs:743-762 | any number of picks keeps level loads level |
| `Placement.PicksFillUp` | src/common/collections.rs:743-762 | from any loads picks never exceed the highest load before loads are level |
| `ProcessWalk.Walk.Collect` | src/common/metrics.rs:1263-1276 | ends for any relation, cycles included; adds only descendants and leaves none out |
| `ProcessWalk.ChildProcesses` | src/common/metrics.rs:1252-1260 | exactly the descendants; an error exactly if some listing below fails |
| `ProcessWalk.RootIsExcluded` | src/common/metrics.rs:1252-1260 | where every child starts after its parent the root is not counted |
| `ProcessWalk.SumFaults` | src/common/metrics.rs:1236-1249 | sums over a set, each member once, skipping processes that are gone; succeeds only if none is unreadable |
| `ProcessWalk.FaultsForAllChildren` | src/common/metrics.rs:1234-1249 | the totals over all descendants, none of them unreadable, or the error of one that cannot be read |
| `Bm25.Validate` | lib/bm25/src/lib.rs:36-47 | succeeds exactly for parameters in range and reports the first that is not, with its value |
| `Bm25.WeightBounds` | lib/bm25/src/lib.rs:146-165 | weights lie in (0, k1 + 1], and reach the top exactly for k1 = 0 |
| `Bm25.WeightGrows` | lib/bm25/src/lib.rs:146-165 | with k1 > 0 more occurrences weigh strictly more |
| `Bm25.WeightExactly` | lib/bm25/src/lib.rs:146-165 | a weight times k1 ((1 - b) avg + b n) + c avg is c (k1 + 1) avg, for c occurrences in n tokens |
| `Bm25.WeightFalls` | lib/bm25/src/lib.rs:146-165 | with k1 and b positive the same occurrences weigh strictly less in a longer document |
| `Bm25.EmbedQuery` | lib/bm25/src/lib.rs:122-133 | the strictly increasing list of token hashes, all with weight one |
| `Bm25.EmbedDocument` | lib/bm25/src/lib.rs:136-165 | the same index list, each weight that of some token with the hash, and the token's own if no other token collides with it |
| `Bm25.EmbedBoth` | lib/bm25/src/lib.rs:122-165 | query and document embedding have the same index list |
| `Vocabulary.NormalisationKeepsDot` | tools/spectra/prepare_beir_fastembed.py:381-389 | dropping zeros and sorting changes no dot product |
| `Vocabulary.NormalizedIsOrdered` | tools/spectra/prepare_beir_fastembed.py:381-389 | with unique indices a normalised vector is strictly ordered |
| `Vocabulary.NormalizedTerms` | tools/spectra/prepare_beir_fastembed.py:381-389 | a normalised vector holds exactly the given terms other than zero, as often as given, by index and then value |
| `Vocabulary.DocumentFrequency` | tools/spectra/prepare_beir_fastembed.py:167-169 | for every dimension the number of terms that use it |
| `Vocabulary.Compact` | tools/spectra/prepare_beir_fastembed.py:167-183 | the vocabulary lists exactly the occurring dimensions in order, the mapping is its inverse |
| `Vocabulary.RemapOrdered` | tools/spectra/prepare_beir_fastembed.py:392-402 | remapped indices stay strictly increasing and below the vocabulary size |
| `Vocabulary.CompactionKeepsScores` | tools/spectra/prepare_beir_fastembed.py:167-191 | no query's score against any document changes, although unseen terms are dropped |

## Left out

- Machine integers: ranks, indices and counters are unbounded naturals; saturating and wrapping arithmetic at the largest values is not modelled.
- Non-finite scores: single-precision fusion and sparse scores are modelled with rounding and a largest value, dense scores are reals; rejection of non-finite values by validation is not modelled.
- The point-by-point observation functions of the fusion state, which only its own unit tests use.
- RrfSession.DynamicRrfSession.AdvanceUntilEach: the advisory count of competitive points is any snapshot, since it influences only the choice of source.
- KWayStream.KWayExactScoreStream.New: only sources that reply in batches, since point-by-point ones are opened by unit tests alone; the heap of heads is one slot a source.
- HybridSearch.Search: a stream is the sequence of its replies to successive pulls of one size, a failing pull being a failing reply; a segment that changes while it is read is not modelled.
- ExactHybrid.ExecuteHybrid: conflicting point versions between channels are not modelled.
- SparseRank.PostingBlockMaxState.NextBatch: points of all scored ranges share one heap; failures of the posting reader are not modelled.
- CompressedPosting.MaxWeightTillId: bit packing of identities and decoding of quantised weights are not modelled; elements hold decoded values.
- HybridSearch.BoundsCertify: quantised and exact dot products, norms and guard are reals.
- ScalarCertificate.IntervalContainsScore: over the reals; that the floating-point guard covers rounding is not proved.
- The exhaustive scan plan of the dense state, which sorts everything, and the per-vector scalar index.
- Payloads, filters and deletion flags beyond one visibility set a segment.
- HashRing: hash values of virtual nodes are assumed distinct; the hash functions are not modelled.
- MessageSender: delivery over the network and its retries; an attempt counts as delivered.
- ConsensusStore.ReadySafe: under the stated contract of the raft crate; snapshot application succeeds, because the loop only logs its inner error; terms of entries play no part.
- ConsensusStore.RunSafe: startup that clears the log or initialises a new deployment is not part of it.
- ConsensusLoop.Consensus.Start: begins after startup, with nothing proposed; the proposal of the origin peer before the loop is not part of it. A request counts as accepted when the node takes it, also if raft then replaces it by an empty entry.
- Raft elections, replication and quorum commit inside the raft crate.
- Health.HealthChecker.ExecImpl: what is read between two wake-ups is one snapshot; restarts after a panic are not modelled.
- ProcessWalk.Walk.Collect: the process tree does not change during the walk; page fault sums do not overflow.
- Bm25.EmbedDocument: weights are reals, not rounded to single precision; tokenisation and the hash are not modelled.
- Vocabulary.Compact: inverse document frequencies are part of the query values.
- Transport, telemetry, metrics formatting, wall-clock time and configuration parsing.
