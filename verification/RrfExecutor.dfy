// The one-shot executor, and its agreement with exhaustive fusion.
//
// Sources: lib/segment/src/common/reciprocal_rank_fusion/executor.rs, tests.rs
module RrfExecutor {
  import opened Common
  import opened RankOrder
  import opened RrfScoring
  import opened RrfCertificate
  import opened RrfExhaustive
  import opened RrfFairness
  import opened RrfRounds
  import opened RrfSession

  // Every completion of what was read has this Top-K.
  ghost predicate Settles(f: Fusion, read: Channels, ended: seq<bool>, topK: nat, ids: seq<PointId>) {
    && Knowledge(f, read, ended)
    && forall channels :: Completes(f, read, ended, channels) ==> IsTopK(f, channels, topK, ids)
  }

  // Fresh sources that deliver exactly these channels, in batches or by point.
  ghost predicate Deliver(sources: seq<Source>, channels: Channels, batchSize: nat) {
    && |sources| == |channels|
    && forall s :: 0 <= s < |sources| ==>
         Distinct(channels[s]) && HonestSource(sources[s], 0, channels[s], batchSize)
  }

  ghost predicate Configured(sources: seq<Source>, batchSize: nat, rrfK: nat, weights: Option<seq<real>>,
                             costs: seq<real>, policy: Policy) {
    && batchSize > 0 && sources != [] && rrfK > 0
    && policy.warmupCheckInterval != Some(0) && policy.exhaustiveAfterPullsPerSource != Some(0)
    && policy.fairnessAfterActionsPerSource != Some(0)
    && |costs| == |sources| && (forall c :: c in costs ==> c > 0.0)
    && (weights.Some? ==> |weights.value| == |sources| && forall w :: w in weights.value ==> w >= 0.0)
  }

  // ---------------------------------------------------------------------
  // What sources have said, whatever they are

  // The identities of the first k replies.
  ghost function IdsOf(replies: seq<Result<RankBatch, Error>>, k: nat): seq<PointId>
    requires k <= |replies|
  {
    if k == 0 then [] else
    IdsOf(replies, k - 1) + if replies[k - 1].Ok? then replies[k - 1].value.ids else []
  }

  // The first k replies succeeded, hold these identities in this order, and only the
  // last of them may have reported the end.
  ghost predicate SaidReplies(replies: seq<Result<RankBatch, Error>>, k: nat, ids: seq<PointId>, ended: bool)
    requires k <= |replies|
  {
    && (forall i :: 0 <= i < k ==> replies[i].Ok?)
    && (forall i :: 0 <= i < k - 1 ==> !replies[i].value.exhausted)
    && ids == IdsOf(replies, k) && ended == (k > 0 && replies[k - 1].value.exhausted)
  }

  // A source has said these identities, and whether that was all, up to what is left.
  ghost predicate Said(source: Source, rest: Source, ids: seq<PointId>, ended: bool) {
    match source
    case PointStream(items) =>
      && |ids| <= |items| && rest == PointStream(items[|ids|..]) && (ended ==> |ids| == |items|)
      && forall i :: 0 <= i < |ids| ==> items[i] == Ok(ids[i])
    case BatchStream(replies) =>
      exists k: nat :: k <= |replies| && SaidReplies(replies, k, ids, ended) && rest == BatchStream(replies[k..])
  }

  lemma SaidMore(source: Source, rest: Source, ids: seq<PointId>)
    requires Said(source, rest, ids, false)
    ensures
      var (next, reply) := Pull(rest, |ids|);
      reply.Ok? ==> Said(source, next, ids + reply.value.ids, reply.value.exhausted)
  {
    var (next, reply) := Pull(rest, |ids|);
    if source.BatchStream? && reply.Ok? {
      var k: nat :| k <= |source.replies| && SaidReplies(source.replies, k, ids, false)
        && rest == BatchStream(source.replies[k..]);
      assert source.replies[k] == reply && source.replies[k..][1..] == source.replies[k + 1..];
      assert SaidReplies(source.replies, k + 1, ids + reply.value.ids, reply.value.exhausted);
    }
  }

  ghost predicate SaidAll(sources: seq<Source>, rest: seq<Source>, read: Channels, ended: seq<bool>) {
    && |sources| == |rest| == |read| == |ended|
    && forall s :: 0 <= s < |sources| ==> Said(sources[s], rest[s], read[s], ended[s])
  }

  lemma RoundSays(w: Setting, m: Moment, t: Moment, sources: seq<Source>)
    requires Round(w, m, t, None) && SaidAll(sources, m.sources, m.history, m.exhausted)
    ensures SaidAll(sources, t.sources, t.history, t.exhausted)
  {
    var s: nat, missing: seq<nat>, v: View :| Reads(w, m, t, s, missing, v, None);
    ChosenIsLive(w, m, missing, v, s);
    SaidMore(sources[s], m.sources[s], m.history[s]);
  }

  lemma {:induction false} RoundsSay(w: Setting, moments: seq<Moment>, k: nat, sources: seq<Source>)
    requires Rounds(w, moments) && k < |moments|
    requires SaidAll(sources, moments[0].sources, moments[0].history, moments[0].exhausted)
    ensures SaidAll(sources, moments[k].sources, moments[k].history, moments[k].exhausted)
  {
    if k > 0 {
      RoundsSay(w, moments, k - 1, sources);
      assert RoundAt(w, moments, k - 1);
      RoundSays(w, moments[k - 1], moments[k], sources);
    }
  }

  // A call that succeeds skipped no failure: what it read is what its sources said.
  lemma CallSays(w: Setting, moments: seq<Moment>, start: Moment, r: Result<Advance, Error>, end: Moment)
    requires Call(w, moments, start, r, end) && r.Ok? && Unread(start)
    ensures SaidAll(start.sources, end.sources, end.history, end.exhausted)
  {
    assert SaidAll(start.sources, start.sources, start.history, start.exhausted) by {
      forall s | 0 <= s < |start.sources|
        ensures Said(start.sources[s], start.sources[s], [], false)
      {
        SaidNothing(start.sources[s]);
      }
    }
    RoundsSay(w, moments, |moments| - 1, start.sources);
  }

  lemma SaidNothing(source: Source)
    ensures Said(source, source, [], false)
  {
    if source.BatchStream? {
      assert SaidReplies(source.replies, 0, [], false) && source.replies[0..] == source.replies;
    }
  }

  // Under every policy, scheduler, cost vector and batching, fusing exact
  // channels returns the exact Top-K; a bad configuration is an error. Whatever the
  // sources are, a result is the exact Top-K of every continuation of what they said.
  method ExecuteDynamicRrf(arith: Arithmetic, sources: seq<Source>, batchSize: nat, topK: nat, rrfK: nat,
                           weights: Option<seq<real>>, costs: seq<real>, policy: Policy, ghost channels: Channels)
      returns (r: Result<Execution, Error>, ghost rest: seq<Source>, ghost read: Channels)
    requires Faithful(arith)
    ensures !Configured(sources, batchSize, rrfK, weights, costs, policy) ==> r.Err?
    ensures Configured(sources, batchSize, rrfK, weights, costs, policy) && Deliver(sources, channels, batchSize) ==>
      r.Ok? && IsTopK(Fusion(arith, rrfK, Weights(|sources|, weights)), channels, topK, r.value.ids)
    ensures r.Ok? ==>
      && SaidAll(sources, rest, read, r.value.sourceExhausted)
      && Settles(Fusion(arith, rrfK, Weights(|sources|, weights)), read, r.value.sourceExhausted, topK, r.value.ids)
      && |r.value.sourcePulls| == |read| && forall s :: 0 <= s < |read| ==> r.value.sourcePulls[s] == |read[s]|
  {
    var session := DynamicRrfSession.New(arith, sources, batchSize, topK, rrfK, weights, costs, policy);
    if session.Err? {
      return Err(session.error), [], [];
    }
    if Deliver(sources, channels, batchSize) { session.value.StartsHonest(channels); }
    r, rest, read := Complete(session.value, channels);
  }

  // Runs a fresh session to its end.
  method Complete(session: DynamicRrfSession, ghost channels: Channels)
      returns (r: Result<Execution, Error>, ghost rest: seq<Source>, ghost read: Channels)
    requires session.Valid() && Unread(session.Now())
    modifies session, session.state
    ensures r.Ok? ==> SaidAll(old(session.sources), rest, read, r.value.sourceExhausted)
    ensures r.Ok? ==>
      && Settles(session.state.F(), read, r.value.sourceExhausted, old(session.state.topK), r.value.ids)
      && |r.value.sourcePulls| == |read| && forall s :: 0 <= s < |read| ==> r.value.sourcePulls[s] == |read[s]|
    ensures old(session.Honest(channels)) ==>
      r.Ok? && IsTopK(session.state.F(), channels, old(session.state.topK), r.value.ids)
  {
    ghost var w, start, moments := session.Given(session.Untargeted()), session.Now(), [];
    r, moments := session.RunToCompletion(channels);
    rest, read := session.sources, session.history;
    if r.Ok? { CallSays(w, moments, start, Ok(Fixed(r.value)), session.Now()); }
  }

  ghost predicate Unread(m: Moment) {
    && |m.history| == |m.exhausted| == |m.sources|
    && forall s :: 0 <= s < |m.sources| ==> m.history[s] == [] && !m.exhausted[s]
  }

  // The certified result is the exhaustive one, cut to topK.
  lemma DynamicMatchesExhaustive(f: Fusion, channels: Channels, topK: nat, ids: seq<PointId>, scored: seq<Scored>)
    requires Faithful(f.arith) && f.k > 0 && ValidChannels(f, channels)
    requires IsTopK(f, channels, topK, ids) && IsScoring(f, channels, scored)
    ensures ids == Take(Ids(scored), topK)
  {
    ScoringIsFusedOrder(f, channels, scored);
    TakeIsTopK(f, channels, topK, Ids(scored));
    TopKUnique(f, channels, topK, ids, topK, Take(Ids(scored), topK));
  }
}
