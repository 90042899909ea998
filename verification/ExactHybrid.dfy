// The production composition: per-shard score streams are merged into one order
// a channel, the channel orders are fused in rank batches.
//
// Sources: lib/collection/src/collection/exact_rrf/session.rs, source.rs
module ExactHybrid {
  import opened Common
  import opened RankOrder
  import opened RrfScoring
  import opened RrfExhaustive
  import opened RrfFairness
  import opened RrfRounds
  import opened RrfSession
  import opened RrfExecutor
  import opened KWayMerge
  import opened KWayStream

  const EXACT_FUSION_BATCH_SIZE: nat := 16

  // The successive replies of a merged channel to pulls of at most max ranks.
  function Replies(order: seq<PointId>, start: nat, max: nat): seq<Result<RankBatch, Error>>
    requires max > 0 && start <= |order|
    decreases |order| - start
  {
    var batch := RankReply(order, start, max);
    [Ok(batch)] + if batch.exhausted then [] else Replies(order, start + max, max)
  }

  lemma {:induction false} RepliesAreHonest(order: seq<PointId>, start: nat, max: nat)
    requires max > 0 && start <= |order|
    ensures HonestReplies(Replies(order, start, max), start, order, max)
    decreases |order| - start
  {
    var batch, replies := RankReply(order, start, max), Replies(order, start, max);
    assert replies[0] == Ok(batch);
    if !batch.exhausted {
      RepliesAreHonest(order, start + max, max);
      assert replies[1..] == Replies(order, start + max, max);
    }
  }

  lemma MergedIsDistinct(lists: seq<seq<Scored>>, merged: seq<Scored>)
    requires Universe(lists) && IsMerged(lists, merged)
    ensures Distinct(Ids(merged))
  {
    forall i, j | 0 <= i < j < |merged|
      ensures merged[i].id != merged[j].id
    {
      assert merged[i] in merged && merged[j] in merged;
      var s :| 0 <= s < |lists| && merged[i] in lists[s];
      var t :| 0 <= t < |lists| && merged[j] in lists[t];
      var k :| 0 <= k < |lists[s]| && lists[s][k] == merged[i];
      var l :| 0 <= l < |lists[t]| && lists[t][l] == merged[j];
      assert Precedes(merged[i], merged[j]);
    }
  }

  lemma OneReplyMore(order: seq<PointId>, start: nat, next: nat, max: nat,
                     replies: seq<Result<RankBatch, Error>>, batch: RankBatch)
    requires max > 0 && start <= next <= |order| && batch == RankReply(order, start, max)
    requires !batch.exhausted ==> next == start + max
    requires replies + Replies(order, start, max) == Replies(order, 0, max)
    ensures batch.exhausted ==> replies + [Ok(batch)] == Replies(order, 0, max)
    ensures !batch.exhausted ==> replies + [Ok(batch)] + Replies(order, next, max) == Replies(order, 0, max)
  {
    var rest := if batch.exhausted then [] else Replies(order, next, max);
    assert replies + ([Ok(batch)] + rest) == (replies + [Ok(batch)]) + rest;
  }

  // ---------------------------------------------------------------------
  // Channels of shards that may fail

  // The replies tell a ranked order up to a failure, if there is one; the end is
  // told only if all shards told theirs.
  ghost predicate Represents(channel: seq<Result<RankBatch, Error>>, shards: seq<seq<Result<ScoreBatch, Error>>>,
                             order: seq<Scored>, n: nat, whole: bool) {
    && Ranked(order) && n <= |channel| && SaidReplies(channel, n, Ids(order), whole)
    && (forall i :: n <= i < |channel| ==> channel[i].Err?)
    && (whole ==> AllTold(shards, order))
  }

  // What was read of a channel comes from its shards.
  ghost predicate Origin(shards: seq<seq<Result<ScoreBatch, Error>>>, order: seq<Scored>, ids: seq<PointId>,
                         ended: bool) {
    Ranked(order) && ids <= Ids(order) && (ended ==> ids == Ids(order) && AllTold(shards, order))
  }

  // Fewer replies tell less.
  lemma {:induction false} FewerIds(replies: seq<Result<RankBatch, Error>>, k: nat, n: nat)
    requires k <= n <= |replies|
    ensures IdsOf(replies, k) <= IdsOf(replies, n)
    decreases n
  {
    if k < n { FewerIds(replies, k, n - 1); }
  }

  lemma ReadFromShards(channel: seq<Result<RankBatch, Error>>, shards: seq<seq<Result<ScoreBatch, Error>>>,
                       order: seq<Scored>, n: nat, whole: bool, rest: Source, ids: seq<PointId>, ended: bool)
    requires Represents(channel, shards, order, n, whole) && Said(BatchStream(channel), rest, ids, ended)
    ensures Origin(shards, order, ids, ended)
  {
    var k: nat :| k <= |channel| && SaidReplies(channel, k, ids, ended);
    assert k <= n;
    FewerIds(channel, k, n);
  }

  lemma OneMoreReply(replies: seq<Result<RankBatch, Error>>, batch: RankBatch, before: seq<Scored>, after: seq<Scored>)
    requires SaidReplies(replies, |replies|, Ids(before), false)
    requires before <= after && batch.ids == Ids(after[|before|..])
    ensures SaidReplies(replies + [Ok(batch)], |replies| + 1, Ids(after), batch.exhausted)
  {
    SameIds(replies, [Ok(batch)], |replies|);
    assert after == before + after[|before|..];
    assert Ids(after) == Ids(before) + batch.ids;
  }

  lemma {:induction false} SameIds(replies: seq<Result<RankBatch, Error>>, more: seq<Result<RankBatch, Error>>, k: nat)
    requires k <= |replies|
    ensures IdsOf(replies + more, k) == IdsOf(replies, k)
  {
    if k > 0 { SameIds(replies, more, k - 1); }
  }

  // The replies of a merged channel to successive pulls, the last of which ends it
  // or fails. They do not depend on when they are pulled, so they stand for the
  // channel in the fusion session.
  method PullReplies(stream: KWayExactScoreStream, max: nat, ghost lists: seq<seq<Scored>>, ghost merged: seq<Scored>)
      returns (replies: seq<Result<RankBatch, Error>>, ghost order: seq<Scored>, ghost n: nat, ghost whole: bool)
    requires max > 0 && stream.Valid() && stream.Ready() && stream.Pooled() && stream.emitted == []
    modifies stream
    ensures Represents(replies, stream.given, order, n, whole)
    ensures old(stream.Delivers(lists)) && IsMerged(lists, merged) ==> replies == Replies(Ids(merged), 0, max)
  {
    replies, order, n, whole := [], [], 0, false;
    var done := false;
    ghost var honest := stream.Delivers(lists) && IsMerged(lists, merged);
    assert stream.emitted == merged[..0];
    while !done
      invariant !done ==> stream.Valid() && stream.Ready() && stream.Pooled()
      invariant !done ==> order == stream.emitted && n == |replies| && !whole
      invariant Represents(replies, stream.given, order, n, whole)
      invariant !done && honest ==> stream.Delivers(lists) && stream.emitted <= merged
      invariant honest ==>
        if done then replies == Replies(Ids(merged), 0, max)
        else replies + Replies(Ids(merged), |stream.emitted|, max) == Replies(Ids(merged), 0, max)
      decreases !done, |stream.pool| - |stream.emitted|
    {
      ghost var before := stream.emitted;
      var reply := PullOne(stream, max, honest, lists, merged);
      if honest { OneReplyMore(Ids(merged), |before|, |stream.emitted|, max, replies, reply.value); }
      if reply.Ok? {
        OneMoreReply(replies, reply.value, before, stream.emitted);
        order, n, whole := stream.emitted, |replies| + 1, reply.value.exhausted;
      } else {
        SameIds(replies, [reply], n);
      }
      replies := replies + [reply];
      done := reply.Err? || reply.value.exhausted;
    }
  }

  method PullOne(stream: KWayExactScoreStream, max: nat, ghost honest: bool, ghost lists: seq<seq<Scored>>,
                 ghost merged: seq<Scored>)
      returns (reply: Result<RankBatch, Error>)
    requires max > 0 && stream.Valid() && stream.Ready() && stream.Pooled()
    requires honest ==> stream.Delivers(lists) && IsMerged(lists, merged) && stream.emitted <= merged
    modifies stream
    ensures reply.Ok? ==> stream.Valid() && stream.Ready() && stream.Pooled() && |stream.emitted| <= |stream.pool|
    ensures reply.Ok? ==>
      && old(stream.emitted) <= stream.emitted && reply.value.ids == Ids(stream.emitted[|old(stream.emitted)|..])
      && Ranked(stream.emitted) && (reply.value.exhausted ==> AllTold(stream.given, stream.emitted))
    ensures reply.Ok? && !reply.value.exhausted ==> |stream.emitted| == |old(stream.emitted)| + max
    ensures honest ==>
      && reply.Ok? && stream.Delivers(lists) && old(stream.emitted) <= stream.emitted <= merged
      && reply.value == RankReply(Ids(merged), |old(stream.emitted)|, max)
  {
    reply := stream.NextRankBatch(max, lists);
    if reply.Ok? {
      EmittedFits(stream.Book(), stream.pool);
      if reply.value.exhausted { EndIsTold(stream.Book(), stream.given); }
    }
    if honest {
      DeliveredOrder(stream.Book(), lists, stream.refillSize, stream.refillSource, merged);
      ReplyIsNextStretch(merged, old(stream.emitted), stream.emitted, reply.value, max);
    }
  }

  // The shards of a channel hold ranked lists over disjoint identities and
  // answer in batches of production size.
  ghost predicate ShardsDeliver(replies: seq<seq<seq<Result<ScoreBatch, Error>>>>, shards: seq<seq<seq<Scored>>>) {
    && |replies| == |shards|
    && forall c :: 0 <= c < |shards| ==> replies[c] != [] && HonestAll(replies[c], shards[c], EXACT_FUSION_BATCH_SIZE)
  }

  // The orders the merges have to restore.
  ghost predicate AllMerged(shards: seq<seq<seq<Scored>>>, merged: seq<seq<Scored>>) {
    |shards| == |merged| && forall c :: 0 <= c < |shards| ==> IsMerged(shards[c], merged[c])
  }

  // A channel as a source of the fusion.
  method OpenChannel(replies: seq<seq<Result<ScoreBatch, Error>>>, ghost lists: seq<seq<Scored>>,
                     ghost merged: seq<Scored>)
      returns (r: Result<seq<Result<RankBatch, Error>>, Error>, ghost order: seq<Scored>, ghost n: nat,
               ghost whole: bool)
    ensures replies == [] ==> r.Err?
    ensures r.Ok? ==> Represents(r.value, replies, order, n, whole)
    ensures replies != [] && HonestAll(replies, lists, EXACT_FUSION_BATCH_SIZE) && IsMerged(lists, merged) ==>
      r == Ok(Replies(Ids(merged), 0, EXACT_FUSION_BATCH_SIZE))
  {
    var stream := KWayExactScoreStream.New(replies, EXACT_FUSION_BATCH_SIZE, lists);
    if stream.Err? { return Err(stream.error), [], 0, false; }
    var channel;
    channel, order, n, whole := PullReplies(stream.value, EXACT_FUSION_BATCH_SIZE, lists, merged);
    r := Ok(channel);
  }

  // A bad configuration is refused. If the shards deliver ranked lists over
  // disjoint identities, each channel is the score-then-identity order of all
  // points its shards hold, the call succeeds, and the result is exactly the
  // exhaustive fusion of those channels, cut to the requested limit. Whatever the
  // shards do, a result is exact for what they said, and a channel counts as ended
  // only if none of its shards failed.
  method ExecuteHybrid(arith: Arithmetic, replies: seq<seq<seq<Result<ScoreBatch, Error>>>>,
                       limit: nat, rrfK: nat, weights: seq<real>,
                       ghost shards: seq<seq<seq<Scored>>>, ghost merged: seq<seq<Scored>>)
      returns (r: Result<Execution, Error>, ghost read: Channels, ghost orders: seq<seq<Scored>>)
    requires Faithful(arith)
    ensures r.Ok? ==> Accepted(replies, rrfK, weights)
    ensures r.Ok? ==>
      && Settles(Fusion(arith, rrfK, weights), read, r.value.sourceExhausted, limit, r.value.ids)
      && Origins(replies, orders, read, r.value.sourceExhausted)
    ensures Accepted(replies, rrfK, weights) && ShardsDeliver(replies, shards) && AllMerged(shards, merged) ==>
      && r.Ok? && IsTopK(Fusion(arith, rrfK, weights), Orders(merged), limit, r.value.ids)
      && forall scored :: IsScoring(Fusion(arith, rrfK, weights), Orders(merged), scored) ==>
           r.value.ids == Take(Ids(scored), limit)
  {
    ghost var honest := ShardsDeliver(replies, shards) && AllMerged(shards, merged);
    ghost var ns, wholes;
    read := [];
    var sourced;
    sourced, orders, ns, wholes := OpenChannels(replies, honest, shards, merged);
    if sourced.Err? { return Err(sourced.error), [], []; }
    var sources := sourced.value;
    ghost var channels := Orders(merged);
    if honest { SourcesDeliver(sources, shards, merged, EXACT_FUSION_BATCH_SIZE); }
    var costs := seq(|replies|, _ => 1.0);
    var policy := Policy(None, None, MaxNextContribution, Some(8));
    assert forall c :: c in costs ==> c == 1.0;
    ghost var rest;
    r, rest, read := ExecuteDynamicRrf(arith, sources, EXACT_FUSION_BATCH_SIZE, limit, rrfK, Some(weights), costs,
                                       policy, channels);
    if r.Ok? { ReadAllFromShards(sources, replies, orders, ns, wholes, rest, read, r.value.sourceExhausted); }
    if honest && r.Ok? { MatchesExhaustive(Fusion(arith, rrfK, weights), channels, limit, r.value.ids); }
  }

  ghost predicate RepresentsAt(sources: seq<Source>, replies: seq<seq<seq<Result<ScoreBatch, Error>>>>,
                               orders: seq<seq<Scored>>, ns: seq<nat>, wholes: seq<bool>, c: nat)
    requires c < |sources| == |orders| == |ns| == |wholes| <= |replies|
  {
    sources[c].BatchStream? && Represents(sources[c].replies, replies[c], orders[c], ns[c], wholes[c])
  }

  ghost predicate RepresentsAll(sources: seq<Source>, replies: seq<seq<seq<Result<ScoreBatch, Error>>>>,
                                orders: seq<seq<Scored>>, ns: seq<nat>, wholes: seq<bool>) {
    && |sources| == |orders| == |ns| == |wholes| <= |replies|
    && forall c :: 0 <= c < |sources| ==> RepresentsAt(sources, replies, orders, ns, wholes, c)
  }

  lemma RepresentsMore(sources: seq<Source>, replies: seq<seq<seq<Result<ScoreBatch, Error>>>>,
                       orders: seq<seq<Scored>>, ns: seq<nat>, wholes: seq<bool>,
                       channel: seq<Result<RankBatch, Error>>, order: seq<Scored>, n: nat, whole: bool)
    requires RepresentsAll(sources, replies, orders, ns, wholes) && |sources| < |replies|
    requires Represents(channel, replies[|sources|], order, n, whole)
    ensures RepresentsAll(sources + [BatchStream(channel)], replies, orders + [order], ns + [n], wholes + [whole])
  {
    forall c | 0 <= c <= |sources|
      ensures RepresentsAt(sources + [BatchStream(channel)], replies, orders + [order], ns + [n], wholes + [whole], c)
    {
      if c < |sources| { assert RepresentsAt(sources, replies, orders, ns, wholes, c); }
    }
  }

  // Every channel as a source of the fusion.
  method OpenChannels(replies: seq<seq<seq<Result<ScoreBatch, Error>>>>, ghost honest: bool,
                      ghost shards: seq<seq<seq<Scored>>>, ghost merged: seq<seq<Scored>>)
      returns (r: Result<seq<Source>, Error>, ghost orders: seq<seq<Scored>>, ghost ns: seq<nat>,
               ghost wholes: seq<bool>)
    requires honest ==> ShardsDeliver(replies, shards) && AllMerged(shards, merged)
    ensures r.Ok? ==> |r.value| == |replies| && RepresentsAll(r.value, replies, orders, ns, wholes)
    ensures r.Ok? ==> forall c :: 0 <= c < |replies| ==> replies[c] != []
    ensures honest ==> r.Ok? && forall c :: 0 <= c < |replies| ==>
      r.value[c] == BatchStream(Replies(Orders(merged)[c], 0, EXACT_FUSION_BATCH_SIZE))
  {
    var sources: seq<Source> := [];
    orders, ns, wholes := [], [], [];
    for c := 0 to |replies|
      invariant |sources| == c && RepresentsAll(sources, replies, orders, ns, wholes)
      invariant forall d :: 0 <= d < c ==> replies[d] != []
      invariant honest ==> forall d :: 0 <= d < c ==>
        sources[d] == BatchStream(Replies(Orders(merged)[d], 0, EXACT_FUSION_BATCH_SIZE))
    {
      var channel;
      ghost var order, n, whole;
      channel, order, n, whole :=
        OpenChannel(replies[c], if honest then shards[c] else [], if honest then merged[c] else []);
      if channel.Err? { return Err(channel.error), orders, ns, wholes; }
      RepresentsMore(sources, replies, orders, ns, wholes, channel.value, order, n, whole);
      sources := sources + [BatchStream(channel.value)];
      orders, ns, wholes := orders + [order], ns + [n], wholes + [whole];
    }
    r := Ok(sources);
  }

  ghost predicate Origins(replies: seq<seq<seq<Result<ScoreBatch, Error>>>>, orders: seq<seq<Scored>>, read: Channels,
                          ended: seq<bool>) {
    && |replies| == |orders| == |read| == |ended|
    && forall c :: 0 <= c < |replies| ==> Origin(replies[c], orders[c], read[c], ended[c])
  }

  lemma ReadAllFromShards(sources: seq<Source>, replies: seq<seq<seq<Result<ScoreBatch, Error>>>>,
                          orders: seq<seq<Scored>>, ns: seq<nat>, wholes: seq<bool>, rest: seq<Source>, read: Channels,
                          ended: seq<bool>)
    requires RepresentsAll(sources, replies, orders, ns, wholes) && |sources| == |replies|
    requires SaidAll(sources, rest, read, ended)
    ensures Origins(replies, orders, read, ended)
  {
    forall c | 0 <= c < |replies|
      ensures Origin(replies[c], orders[c], read[c], ended[c])
    {
      assert RepresentsAt(sources, replies, orders, ns, wholes, c);
      ReadFromShards(sources[c].replies, replies[c], orders[c], ns[c], wholes[c], rest[c], read[c], ended[c]);
    }
  }

  ghost predicate Accepted(replies: seq<seq<seq<Result<ScoreBatch, Error>>>>, rrfK: nat, weights: seq<real>) {
    replies != [] && rrfK > 0 && |weights| == |replies| && forall w :: w in weights ==> w >= 0.0
  }

  lemma SourcesDeliver(sources: seq<Source>, shards: seq<seq<seq<Scored>>>, merged: seq<seq<Scored>>, max: nat)
    requires max > 0 && |sources| == |merged| && AllMerged(shards, merged)
    requires forall c :: 0 <= c < |shards| ==> Universe(shards[c])
    requires forall c :: 0 <= c < |sources| ==> sources[c] == BatchStream(Replies(Orders(merged)[c], 0, max))
    ensures RrfExecutor.Deliver(sources, Orders(merged), max)
  {
    var channels := Orders(merged);
    forall c | 0 <= c < |channels|
      ensures Distinct(channels[c]) && HonestSource(sources[c], 0, channels[c], max)
    {
      MergedIsDistinct(shards[c], merged[c]);
      RepliesAreHonest(channels[c], 0, max);
    }
  }

  lemma MatchesExhaustive(f: Fusion, channels: Channels, limit: nat, ids: seq<PointId>)
    requires Faithful(f.arith) && f.k > 0 && ValidChannels(f, channels) && IsTopK(f, channels, limit, ids)
    ensures forall scored :: IsScoring(f, channels, scored) ==> ids == Take(Ids(scored), limit)
  {
    forall scored | IsScoring(f, channels, scored) ensures ids == Take(Ids(scored), limit) {
      DynamicMatchesExhaustive(f, channels, limit, ids, scored);
    }
  }

  ghost function Orders(merged: seq<seq<Scored>>): (channels: Channels)
    ensures |channels| == |merged| && forall c :: 0 <= c < |merged| ==> channels[c] == Ids(merged[c])
  {
    seq(|merged|, c requires 0 <= c < |merged| => Ids(merged[c]))
  }
}
