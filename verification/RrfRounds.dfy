// The rounds of a fusion session: what its sources answer, when it certifies, when
// it stops and which source it reads, and what every round keeps.
//
// Sources: lib/segment/src/common/reciprocal_rank_fusion/session.rs, types.rs
module RrfRounds {
  import opened Common
  import opened RrfScoring
  import opened RrfCertificate
  import opened RrfState
  import opened RrfTightness
  import opened RrfFairness

  // A channel as the session sees it: the replies it will give. A point stream
  // that runs out of items reports its end; a batch stream reports its end only
  // inside a batch, so running out of replies is a failure.
  datatype Source =
    | PointStream(items: seq<Result<PointId, Error>>)
    | BatchStream(replies: seq<Result<RankBatch, Error>>)

  // What is left of a source after its next reply, and the reply.
  ghost function Pull(source: Source, pulls: nat): (Source, Result<RankBatch, Error>) {
    match source
    case PointStream(items) =>
      if items == [] then (source, Ok(RankBatch(pulls, [], true)))
      else (PointStream(items[1..]),
            if items[0].Ok? then Ok(RankBatch(pulls, [items[0].value], false)) else Err(items[0].error))
    case BatchStream(replies) =>
      if replies == [] then (source, Err(Producer)) else (BatchStream(replies[1..]), replies[0])
  }

  method Fetch(source: Source, pulls: nat) returns (rest: Source, reply: Result<RankBatch, Error>)
    ensures (rest, reply) == Pull(source, pulls)
  {
    match source {
      case PointStream(items) =>
        if items == [] {
          return source, Ok(RankBatch(pulls, [], true));
        }
        rest := PointStream(items[1..]);
        match items[0] {
          case Ok(id) => reply := Ok(RankBatch(pulls, [id], false));
          case Err(error) => reply := Err(error);
        }
      case BatchStream(replies) =>
        if replies == [] {
          return source, Err(Producer);
        }
        rest, reply := BatchStream(replies[1..]), replies[0];
    }
  }

  // ---------------------------------------------------------------------
  // Sources that deliver one fixed channel

  ghost predicate HonestReplies(replies: seq<Result<RankBatch, Error>>, start: nat,
                                channel: seq<PointId>, batchSize: nat)
    decreases |replies|
  {
    && replies != [] && replies[0].Ok?
    && var batch := replies[0].value;
       var end := start + |batch.ids|;
       && batch.startRank == start && end <= |channel|
       && batch.ids == channel[start..end] && |batch.ids| <= batchSize
       && (batch.ids == [] ==> batch.exhausted)
       && (if batch.exhausted then end == |channel|
           else HonestReplies(replies[1..], end, channel, batchSize))
  }

  ghost predicate HonestSource(source: Source, start: nat, channel: seq<PointId>, batchSize: nat) {
    match source
    case PointStream(items) =>
      start + |items| == |channel| && forall i :: 0 <= i < |items| ==> items[i] == Ok(channel[start + i])
    case BatchStream(replies) => HonestReplies(replies, start, channel, batchSize)
  }

  // An honest source answers with the next stretch of its channel and stays honest.
  lemma HonestPull(source: Source, observed: seq<PointId>, channel: seq<PointId>, batchSize: nat)
    requires batchSize > 0 && observed <= channel
    requires HonestSource(source, |observed|, channel, batchSize)
    ensures
      var (rest, reply) := Pull(source, |observed|);
      && reply.Ok?
      && var batch := reply.value;
         && batch.startRank == |observed| && |batch.ids| <= batchSize
         && (batch.ids == [] ==> batch.exhausted)
         && observed + batch.ids <= channel
         && (if batch.exhausted then observed + batch.ids == channel
             else HonestSource(rest, |observed + batch.ids|, channel, batchSize))
  {
    var (rest, reply) := Pull(source, |observed|);
    if reply.Ok? {
      var end := |observed| + |reply.value.ids|;
      assert reply.value.ids == channel[|observed|..end];
      assert observed + reply.value.ids == channel[..end];
    }
  }

  ghost predicate HonestSources(f: Fusion, sources: seq<Source>, observed: Channels, exhausted: seq<bool>,
                                channels: Channels, batchSize: nat)
    requires Knowledge(f, observed, exhausted) && |sources| == |observed|
  {
    && Completes(f, observed, exhausted, channels)
    && forall s :: 0 <= s < |sources| && !exhausted[s] ==>
         HonestSource(sources[s], |observed[s]|, channels[s], batchSize)
  }

  // The reply of an honest source is accepted and the sources stay honest.
  lemma HonestStep(f: Fusion, sources: seq<Source>, observed: Channels, exhausted: seq<bool>,
                   channels: Channels, batchSize: nat, source: nat)
    requires Knowledge(f, observed, exhausted) && |sources| == |observed| && batchSize > 0
    requires HonestSources(f, sources, observed, exhausted, channels, batchSize)
    requires source < |sources| && !exhausted[source]
    ensures
      var (rest, reply) := Pull(sources[source], |observed[source]|);
      && reply.Ok? && |reply.value.ids| <= batchSize
      && Acceptable(observed, exhausted, source, reply.value)
      && var more, ended := Append(observed, source, reply.value.ids), exhausted[source := reply.value.exhausted];
         && Knowledge(f, more, ended)
         && HonestSources(f, sources[source := rest], more, ended, channels, batchSize)
  {
    HonestPull(sources[source], observed[source], channels[source], batchSize);
    var (rest, reply) := Pull(sources[source], |observed[source]|);
    HonestIsAcceptable(observed, exhausted, source, reply.value, channels[source]);
    assert Distinct(observed[source] + reply.value.ids) by {
      DistinctPrefix(channels[source], |observed[source] + reply.value.ids|);
    }
  }

  // ---------------------------------------------------------------------
  // Remaining work, for termination

  function Work(source: Source, exhausted: bool): nat {
    if exhausted then 0 else
    1 + match source case PointStream(items) => |items| case BatchStream(replies) => |replies|
  }

  function TotalWork(sources: seq<Source>, exhausted: seq<bool>, n: nat): nat
    requires n <= |sources| == |exhausted|
  {
    if n == 0 then 0 else TotalWork(sources, exhausted, n - 1) + Work(sources[n - 1], exhausted[n - 1])
  }

  lemma {:induction false} WorkUpdated(sources: seq<Source>, exhausted: seq<bool>, s: nat,
                                       source: Source, ended: bool, n: nat)
    requires s < |sources| == |exhausted| && n <= |sources|
    ensures TotalWork(sources[s := source], exhausted[s := ended], n) ==
            TotalWork(sources, exhausted, n) +
            if s < n then Work(source, ended) - Work(sources[s], exhausted[s]) else 0
    decreases n
  {
    if n > 0 { WorkUpdated(sources, exhausted, s, source, ended, n - 1); }
  }

  // What one pull does to the sources and to what has been read.
  ghost predicate PullEffect(batchSize: nat, s: nat,
                             sources0: seq<Source>, history0: Channels, exhausted0: seq<bool>,
                             sources1: seq<Source>, history1: Channels, exhausted1: seq<bool>, ok: bool)
    requires s < |sources0| == |history0| == |exhausted0|
  {
    var (rest, reply) := Pull(sources0[s], |history0[s]|);
    && sources1 == sources0[s := rest]
    && (ok <==> reply.Ok? && |reply.value.ids| <= batchSize && Acceptable(history0, exhausted0, s, reply.value))
    && history1 == (if ok then Append(history0, s, reply.value.ids) else history0)
    && exhausted1 == (if ok then exhausted0[s := reply.value.exhausted] else exhausted0)
  }

  // A source that answers has less left to say.
  lemma PullWork(sources: seq<Source>, exhausted: seq<bool>, s: nat, pulls: nat)
    requires s < |sources| == |exhausted| && !exhausted[s]
    ensures
      var (rest, reply) := Pull(sources[s], pulls);
      reply.Ok? ==> TotalWork(sources[s := rest], exhausted[s := reply.value.exhausted], |sources|) <
                    TotalWork(sources, exhausted, |sources|)
  {
    var (rest, reply) := Pull(sources[s], pulls);
    if reply.Ok? {
      WorkUpdated(sources, exhausted, s, rest, reply.value.exhausted, |sources|);
    }
  }

  // A pull keeps honest sources honest, succeeds on them, and uses up work.
  lemma AfterPull(f: Fusion, batchSize: nat, s: nat,
                  sources0: seq<Source>, history0: Channels, exhausted0: seq<bool>,
                  sources1: seq<Source>, history1: Channels, exhausted1: seq<bool>, ok: bool, channels: Channels)
    requires Knowledge(f, history0, exhausted0) && Knowledge(f, history1, exhausted1)
    requires s < |sources0| == |history0| && |sources1| == |history1| && !exhausted0[s] && batchSize > 0
    requires PullEffect(batchSize, s, sources0, history0, exhausted0, sources1, history1, exhausted1, ok)
    ensures HonestSources(f, sources0, history0, exhausted0, channels, batchSize) ==>
      ok && HonestSources(f, sources1, history1, exhausted1, channels, batchSize)
    ensures ok ==> TotalWork(sources1, exhausted1, |sources1|) < TotalWork(sources0, exhausted0, |sources0|)
    ensures forall t :: 0 <= t < |exhausted0| ==> exhausted0[t] ==> exhausted1[t]
  {
    PullWork(sources0, exhausted0, s, |history0[s]|);
    if HonestSources(f, sources0, history0, exhausted0, channels, batchSize) {
      HonestStep(f, sources0, history0, exhausted0, channels, batchSize, s);
    }
  }

  // ---------------------------------------------------------------------
  // Rounds

  // All of a session that a round looks at.
  datatype Moment = Moment(
    sources: seq<Source>, history: Channels, exhausted: seq<bool>, last: seq<nat>, actions: nat,
    total: nat, since: nat, force: bool, checks: nat)

  // What stays the same during a call: pulls between two certifications during the
  // warm-up and how long that lasts, pulls after which only the end is certified,
  // actions after which a waiting source is overdue.
  datatype Setting = Setting(
    fusion: Fusion, topK: nat, batchSize: nat, costs: seq<real>, scheduler: Scheduler, interval: nat, warmup: nat,
    budget: Option<nat>, window: Option<nat>, targets: seq<Option<nat>>)

  ghost predicate Shaped(w: Setting, m: Moment) {
    var n := |w.targets|;
    && Knowledge(w.fusion, m.history, m.exhausted)
    && |m.sources| == |m.history| == |m.last| == |w.costs| == n
    && forall s :: 0 <= s < n ==> m.last[s] <= m.actions && w.costs[s] > 0.0
  }

  // A certification is due: at the end, or, unless the session is past its budget,
  // on demand and once an interval.
  ghost predicate Due(w: Setting, m: Moment) {
    var interval :=
      if m.total <= w.warmup then w.interval
      else if m.total < 8 * 64 then 64 else if m.total >= 8 * 1024 then 1024 else m.total / 8;
    || (forall s :: 0 <= s < |m.exhausted| ==> m.exhausted[s])
    || ((w.budget.Some? ==> m.total < w.budget.value) && (m.force || m.since >= interval))
  }

  // There are targets, and every source that has one has reached it or its end.
  ghost predicate Reached(w: Setting, m: Moment)
    requires Shaped(w, m)
  {
    && (exists s :: 0 <= s < |w.targets| && w.targets[s].Some?)
    && forall s :: 0 <= s < |w.targets| && w.targets[s].Some? ==>
         |m.history[s]| >= w.targets[s].value || m.exhausted[s]
  }

  ghost predicate Answers(w: Setting, m: Moment)
    requires Shaped(w, m)
  {
    !Unanswered(w.fusion, m.history, m.exhausted, w.topK)
  }

  // The call ends here without reading on.
  ghost predicate Ends(w: Setting, m: Moment)
    requires Shaped(w, m)
  {
    (Due(w, m) && Answers(w, m)) || Reached(w, m)
  }

  // What the scheduler sees: the sources that are live and below their targets, how
  // long each has waited, which have waited for the window, and their ranks.
  ghost predicate Sees(w: Setting, m: Moment, missing: seq<nat>, v: View)
    requires Shaped(w, m) && |missing| == |w.targets|
  {
    && |v.overdue| == |v.waits| == |v.eligible| == |v.ranks| == |w.targets|
    && (forall s :: 0 <= s < |w.targets| ==> SeesWait(w, m, v, s))
    && forall s :: 0 <= s < |w.targets| ==> SeesRank(w, m, missing, v, s)
  }

  ghost predicate SeesWait(w: Setting, m: Moment, v: View, s: nat)
    requires Shaped(w, m) && s < |w.targets| == |v.overdue| == |v.waits| == |v.eligible|
  {
    && v.waits[s] == m.actions - m.last[s]
    && (v.eligible[s] <==> !m.exhausted[s] && (w.targets[s].Some? ==> |m.history[s]| < w.targets[s].value))
    && (v.overdue[s] <==> v.eligible[s] && w.window.Some? && v.waits[s] >= w.window.value)
  }

  ghost predicate SeesRank(w: Setting, m: Moment, missing: seq<nat>, v: View, s: nat)
    requires Shaped(w, m) && s < |w.targets| == |missing| == |v.ranks|
  {
    Ranks(w, s, |m.history[s]|, missing[s], v.ranks[s])
  }

  // A source ranks by its next contribution or by what the rank after takes away
  // from it for each competitor and unit of cost; then by its next contribution.
  ghost predicate Ranks(w: Setting, s: nat, position: nat, missing: nat, rank: (real, real))
    requires s < |w.costs| && s < |w.fusion.weights| && w.costs[s] > 0.0
  {
    var bound := PositionScore(w.fusion.arith, position, w.fusion.k, w.fusion.weights[s]);
    var after := PositionScore(w.fusion.arith, position + 1, w.fusion.k, w.fusion.weights[s]);
    && rank.1 == bound
    && rank.0 == if w.scheduler.MaxNextContribution? then bound else
                 (if bound < after then 0.0 else bound - after)
                 * (if missing < 1 then 1 else missing) as real / w.costs[s]
  }

  // Why a read fails: with the error of the reply, or because it is not acceptable.
  ghost function FailureOf(source: Source, pulls: nat): Error {
    var reply := Pull(source, pulls).1;
    if reply.Err? then reply.error else Validation
  }

  // What one read does, failed or not.
  ghost predicate Fetched(m: Moment, t: Moment, batchSize: nat, s: nat, failed: Option<Error>)
    requires s < |m.sources| == |m.history| == |m.exhausted| == |m.last|
  {
    && PullEffect(batchSize, s, m.sources, m.history, m.exhausted, t.sources, t.history, t.exhausted, failed.None?)
    && (failed.Some? ==> failed.value == FailureOf(m.sources[s], |m.history[s]|))
    && t.actions == m.actions + 1 && t.last == m.last[s := m.actions + 1] && t.checks == m.checks
    && t.total - m.total == t.since - m.since == |t.history[s]| - |m.history[s]|
    && (t.force <==> m.force || t.exhausted[s])
  }

  // The books after a certification without an answer, if one was due.
  ghost function Checked(w: Setting, m: Moment): Moment {
    if Due(w, m) then m.(since := 0, force := false, checks := m.checks + 1) else m
  }

  // One source is read, the one that the rule chooses, after a certification that
  // was due. The advisory counts of competitors may be anything.
  ghost predicate Reads(w: Setting, m: Moment, t: Moment, s: nat, missing: seq<nat>, v: View, failed: Option<Error>)
    requires Shaped(w, m)
  {
    && |missing| == |w.targets| && Sees(w, m, missing, v) && Chosen(v, s) && s < |m.sources|
    && Fetched(Checked(w, m), t, w.batchSize, s, failed)
  }

  ghost predicate Round(w: Setting, m: Moment, t: Moment, failed: Option<Error>) {
    Shaped(w, m) && !Ends(w, m) && exists s, missing, v :: Reads(w, m, t, s, missing, v, failed)
  }

  // How a call concludes: with the answer if there is one, or else paused; or with
  // the failure of a read.
  ghost predicate Concludes(w: Setting, m: Moment, r: Result<Advance, Error>, t: Moment) {
    && Shaped(w, m)
    && if !Ends(w, m) then r.Err? && Round(w, m, t, Some(r.error)) else
       && r.Ok? && (r.value.Fixed? <==> Answers(w, m))
       && t == if Due(w, m) && Answers(w, m) then m.(checks := m.checks + 1)
               else Checked(w, m).(checks := Checked(w, m).checks + 1)
  }

  ghost predicate RoundAt(w: Setting, moments: seq<Moment>, i: nat)
    requires i < |moments| - 1
  {
    Round(w, moments[i], moments[i + 1], None)
  }

  // Round after round, up to here.
  ghost predicate Rounds(w: Setting, moments: seq<Moment>) {
    forall i: nat :: i < |moments| - 1 ==> RoundAt(w, moments, i)
  }

  // A whole call: it reads only while there is no answer and no reason to pause.
  ghost predicate Call(w: Setting, moments: seq<Moment>, start: Moment, r: Result<Advance, Error>, end: Moment) {
    && moments != [] && moments[0] == start && Rounds(w, moments)
    && Concludes(w, moments[|moments| - 1], r, end)
  }

  lemma OneMoreRound(w: Setting, moments: seq<Moment>, t: Moment)
    requires moments != [] && Rounds(w, moments) && Round(w, moments[|moments| - 1], t, None)
    ensures Rounds(w, moments + [t])
  {
    var longer := moments + [t];
    forall i: nat | i < |moments|
      ensures RoundAt(w, longer, i)
    {
      assert i < |moments| - 1 ==> RoundAt(w, moments, i);
    }
  }

  // A certification does not change what the scheduler sees.
  lemma SameSight(w: Setting, m: Moment, checked: Moment, missing: seq<nat>, v: View)
    requires Shaped(w, m) && Shaped(w, checked) && |missing| == |w.targets| && Sees(w, checked, missing, v)
    requires m.history == checked.history && m.exhausted == checked.exhausted
    requires m.last == checked.last && m.actions == checked.actions
    ensures Sees(w, m, missing, v)
  {
    forall s | 0 <= s < |w.targets|
      ensures SeesWait(w, m, v, s) && SeesRank(w, m, missing, v, s)
    {
      assert SeesWait(w, checked, v, s) && SeesRank(w, checked, missing, v, s);
    }
  }

  lemma OneRound(w: Setting, m: Moment, checked: Moment, t: Moment, s: nat, missing: seq<nat>, v: View,
                 failed: Option<Error>)
    requires Shaped(w, m) && !Ends(w, m) && checked == Checked(w, m) && |missing| == |w.targets|
    requires Sees(w, checked, missing, v) && Chosen(v, s) && s < |m.sources|
    requires Fetched(checked, t, w.batchSize, s, failed)
    ensures Round(w, m, t, failed)
  {
    SameSight(w, m, checked, missing, v);
    assert Reads(w, m, t, s, missing, v, failed);
  }

  lemma RankAtRanks(w: Setting, s: nat, position: nat, missing: nat)
    requires s < |w.costs| && s < |w.fusion.weights| && w.costs[s] > 0.0
    ensures Ranks(w, s, position, missing,
                  RankAt(w.fusion.arith, w.fusion.k, w.scheduler, position, w.fusion.weights[s], missing, w.costs[s]))
  {
  }

  // The flags and ranks of the rule are what it is said to see.
  lemma ViewSees(w: Setting, m: Moment, missing: seq<nat>, pulls: seq<nat>)
    requires Shaped(w, m) && |missing| == |pulls| == |w.targets|
    requires forall s :: 0 <= s < |pulls| ==> pulls[s] == |m.history[s]|
    ensures Sees(w, m, missing,
                 ViewOf(Standing(w.fusion.arith, w.fusion.k, w.fusion.weights, w.costs, pulls, missing),
                        w.scheduler, w.window, EligibleFlags(m.exhausted, pulls, w.targets),
                        WaitsSince(m.last, m.actions)))
  {
    var v := ViewOf(Standing(w.fusion.arith, w.fusion.k, w.fusion.weights, w.costs, pulls, missing), w.scheduler,
                    w.window, EligibleFlags(m.exhausted, pulls, w.targets), WaitsSince(m.last, m.actions));
    forall s | 0 <= s < |w.targets|
      ensures SeesRank(w, m, missing, v, s)
    {
      RankAtRanks(w, s, pulls[s], missing[s]);
    }
  }

  // ---------------------------------------------------------------------
  // What every round keeps

  // The sources still to be read deliver exactly these channels.
  ghost predicate HonestAt(w: Setting, m: Moment, channels: Channels)
    requires Shaped(w, m)
  {
    HonestSources(w.fusion, m.sources, m.history, m.exhausted, channels, w.batchSize)
  }

  ghost predicate SomeLive(w: Setting, m: Moment)
    requires Shaped(w, m)
  {
    exists s :: 0 <= s < |w.targets| && Live(w, m, s)
  }

  ghost predicate Live(w: Setting, m: Moment, s: nat)
    requires Shaped(w, m) && s < |w.targets|
  {
    !m.exhausted[s] && (w.targets[s].Some? ==> |m.history[s]| < w.targets[s].value)
  }

  // The scheduler always has a source to advance.
  lemma SomeIsLive(w: Setting, m: Moment)
    requires Shaped(w, m) && !Reached(w, m) && exists s :: 0 <= s < |m.exhausted| && !m.exhausted[s]
    ensures SomeLive(w, m)
  {
    if s :| 0 <= s < |w.targets| && w.targets[s].Some? && |m.history[s]| < w.targets[s].value && !m.exhausted[s] {
      assert Live(w, m, s);
    } else {
      var s :| 0 <= s < |m.exhausted| && !m.exhausted[s];
      assert Live(w, m, s);
    }
  }

  lemma SomeIsSeen(w: Setting, m: Moment, missing: seq<nat>, v: View)
    requires Shaped(w, m) && |missing| == |w.targets| && Sees(w, m, missing, v) && SomeLive(w, m)
    ensures AnyFlag(v.eligible)
  {
    var s :| 0 <= s < |w.targets| && Live(w, m, s);
    assert SeesWait(w, m, v, s);
    assert v.eligible[s];
  }

  // A chosen source is live.
  lemma ChosenIsLive(w: Setting, m: Moment, missing: seq<nat>, v: View, s: nat)
    requires Shaped(w, m) && |missing| == |w.targets| && Sees(w, m, missing, v) && Chosen(v, s)
    ensures s < |m.sources| && !m.exhausted[s]
  {
    forall i | 0 <= i < |w.targets|
      ensures (v.overdue[i] ==> v.eligible[i]) && (v.eligible[i] ==> !m.exhausted[i])
    {
      assert SeesWait(w, m, v, i);
    }
    ChosenIsEligible(v, s);
  }

  // A round on honest sources succeeds and keeps them honest; a round that succeeds
  // leaves less to read.
  lemma RoundIsHonest(w: Setting, m: Moment, t: Moment, failed: Option<Error>, channels: Channels)
    requires Round(w, m, t, failed) && Shaped(w, t) && w.batchSize > 0
    ensures HonestAt(w, m, channels) ==> failed.None? && HonestAt(w, t, channels)
    ensures failed.None? ==>
      TotalWork(t.sources, t.exhausted, |t.sources|) < TotalWork(m.sources, m.exhausted, |m.sources|)
  {
    var s: nat, missing: seq<nat>, v: View :| Reads(w, m, t, s, missing, v, failed);
    ChosenIsLive(w, m, missing, v, s);
    AfterPull(w.fusion, w.batchSize, s, m.sources, m.history, m.exhausted, t.sources, t.history, t.exhausted,
              failed.None?, channels);
  }

  ghost predicate HasWindow(w: Setting) {
    w.window.Some? && w.window.value > 0
  }

  ghost predicate FairAt(w: Setting, m: Moment)
    requires Shaped(w, m) && HasWindow(w)
  {
    Fair(m.last, m.actions, m.exhausted, w.window.value)
  }

  ghost predicate NoTargets(targets: seq<Option<nat>>) {
    forall s :: 0 <= s < |targets| ==> targets[s].None?
  }

  lemma ChosenIsOldest(w: Setting, m: Moment, missing: seq<nat>, v: View, p: nat, s: nat)
    requires Shaped(w, m) && |missing| == |w.targets| && Sees(w, m, missing, v) && Chosen(v, p)
    requires NoTargets(w.targets) && HasWindow(w) && p < |m.last|
    requires s < |m.last| && !m.exhausted[s] && m.actions - m.last[s] >= w.window.value
    ensures m.last[p] <= m.last[s]
  {
    assert SeesWait(w, m, v, s) && SeesWait(w, m, v, p);
    assert v.overdue[s];
    assert v.waits[s] <= v.waits[p];
  }

  lemma RoundIsFair(w: Setting, m: Moment, t: Moment, failed: Option<Error>)
    requires Round(w, m, t, failed) && Shaped(w, t) && NoTargets(w.targets) && HasWindow(w) && FairAt(w, m)
    ensures FairAt(w, t)
  {
    var p: nat, missing: seq<nat>, v: View :| Reads(w, m, t, p, missing, v, failed);
    ChosenIsLive(w, m, missing, v, p);
    forall s | 0 <= s < |m.last| && !m.exhausted[s] && m.actions - m.last[s] >= w.window.value
      ensures m.last[p] <= m.last[s]
    {
      ChosenIsOldest(w, m, missing, v, p, s);
    }
    FairStep(m.last, m.actions, m.exhausted, t.exhausted, w.window.value, p);
  }

  // A call on honest sources does not fail and keeps its place in them.
  lemma {:induction false} CallIsHonest(w: Setting, moments: seq<Moment>, start: Moment, r: Result<Advance, Error>,
                                        end: Moment, channels: Channels)
    requires Call(w, moments, start, r, end) && Shaped(w, start) && Shaped(w, end) && w.batchSize > 0
    requires HonestAt(w, start, channels)
    ensures r.Ok? && HonestAt(w, end, channels)
  {
    var last := moments[|moments| - 1];
    CallIsShaped(w, moments, start, r, end);
    RoundsAreHonest(w, moments, |moments| - 1, channels);
    if !Ends(w, last) { RoundIsHonest(w, last, end, Some(r.error), channels); }
  }

  lemma {:induction false} RoundsAreHonest(w: Setting, moments: seq<Moment>, k: nat, channels: Channels)
    requires Rounds(w, moments) && k < |moments| && w.batchSize > 0
    requires forall m :: m in moments ==> Shaped(w, m)
    requires HonestAt(w, moments[0], channels)
    ensures HonestAt(w, moments[k], channels)
  {
    if k > 0 {
      RoundsAreHonest(w, moments, k - 1, channels);
      assert RoundAt(w, moments, k - 1);
      RoundIsHonest(w, moments[k - 1], moments[k], None, channels);
    }
  }

  // No live source has waited for more than the window plus the number of other
  // sources minus one.
  ghost predicate WaitsWithin(w: Setting, m: Moment)
    requires Shaped(w, m) && HasWindow(w)
  {
    forall s :: 0 <= s < |m.last| && !m.exhausted[s] ==> m.actions - m.last[s] <= w.window.value + |m.last| - 2
  }

  lemma FairWaits(w: Setting, m: Moment)
    requires Shaped(w, m) && HasWindow(w) && FairAt(w, m)
    ensures WaitsWithin(w, m)
  {
    forall s | 0 <= s < |m.last| && !m.exhausted[s]
      ensures m.actions - m.last[s] <= w.window.value + |m.last| - 2
    {
      FairBound(m.last, m.actions, m.exhausted, w.window.value, s);
    }
  }

  // In a call without targets fairness is kept, and at no time has a live source
  // waited too long.
  lemma {:induction false} RoundsAreFair(w: Setting, moments: seq<Moment>, k: nat)
    requires Rounds(w, moments) && k < |moments| && forall m :: m in moments ==> Shaped(w, m)
    requires NoTargets(w.targets) && HasWindow(w) && FairAt(w, moments[0])
    ensures FairAt(w, moments[k])
  {
    if k > 0 {
      RoundsAreFair(w, moments, k - 1);
      assert RoundAt(w, moments, k - 1);
      RoundIsFair(w, moments[k - 1], moments[k], None);
    }
  }

  lemma CallIsShaped(w: Setting, moments: seq<Moment>, start: Moment, r: Result<Advance, Error>, end: Moment)
    requires Call(w, moments, start, r, end)
    ensures forall m :: m in moments ==> Shaped(w, m)
  {
    forall m | m in moments
      ensures Shaped(w, m)
    {
      var i: nat :| i < |moments| && moments[i] == m;
      assert i < |moments| - 1 ==> RoundAt(w, moments, i);
    }
  }

  // At no time of a call has a live source waited too long.
  ghost predicate AllWait(w: Setting, moments: seq<Moment>) {
    HasWindow(w) && forall m :: m in moments ==> Shaped(w, m) && WaitsWithin(w, m)
  }

  lemma CallIsFair(w: Setting, moments: seq<Moment>, start: Moment, r: Result<Advance, Error>, end: Moment)
    requires Call(w, moments, start, r, end) && Shaped(w, start) && Shaped(w, end)
    requires NoTargets(w.targets) && HasWindow(w) && FairAt(w, start)
    ensures FairAt(w, end) && AllWait(w, moments)
  {
    var last := moments[|moments| - 1];
    CallIsShaped(w, moments, start, r, end);
    RoundsAreFair(w, moments, |moments| - 1);
    if !Ends(w, last) { RoundIsFair(w, last, end, Some(r.error)); }
    forall m | m in moments
      ensures WaitsWithin(w, m)
    {
      var i: nat :| i < |moments| && moments[i] == m;
      RoundsAreFair(w, moments, i);
      FairWaits(w, m);
    }
  }

  ghost function Max(x: nat, y: nat): nat {
    if x < y then y else x
  }

  datatype StopReason = TopKFixed | AllSourcesExhausted

  datatype Execution = Execution(
    ids: seq<PointId>, sourcePulls: seq<nat>, sourceExhausted: seq<bool>,
    certificationChecks: nat, stopReason: StopReason)

  datatype Advance = Fixed(execution: Execution) | Paused

  lemma HonestIsAcceptable(observed: Channels, exhausted: seq<bool>, source: nat, batch: RankBatch,
                           channel: seq<PointId>)
    requires source < |observed| == |exhausted| && !exhausted[source] && Distinct(channel)
    requires batch.startRank == |observed[source]| && (batch.ids == [] ==> batch.exhausted)
    requires observed[source] + batch.ids <= channel
    ensures Acceptable(observed, exhausted, source, batch)
  {
    var n := |observed[source]|;
    assert forall i :: 0 <= i < |batch.ids| ==> batch.ids[i] == channel[n + i];
    assert forall i :: 0 <= i < n ==> observed[source][i] == channel[i];
  }
}
