// The exhaustive fusion that defines an exact answer: read every channel to its
// end, add the contributions up and sort.
//
// Source: lib/segment/src/common/reciprocal_rank_fusion/scoring.rs
module RrfExhaustive {
  import opened Common
  import opened RankOrder
  import opened RrfScoring

  // The score entry of `id` after the first n positions of one response.
  function AfterChannel(a: Arithmetic, k: nat, weight: real, channel: seq<PointId>,
                        id: PointId, n: nat, entry: Option<real>): Option<real>
    requires n <= |channel|
  {
    if n == 0 then entry else
    var before := AfterChannel(a, k, weight, channel, id, n - 1, entry);
    if channel[n - 1] != id then before else
    var c := PositionScore(a, n - 1, k, weight);
    Some(if before.Some? then Plus(a, before.value, c) else c)
  }

  // The score entry of `id` after the first s responses.
  function AfterAll(f: Fusion, channels: Channels, id: PointId, s: nat): Option<real>
    requires s <= |channels| == |f.weights|
  {
    if s == 0 then None else
    AfterChannel(f.arith, f.k, f.weights[s - 1], channels[s - 1], id, |channels[s - 1]|,
                 AfterAll(f, channels, id, s - 1))
  }

  function Lookup(points: map<PointId, real>, id: PointId): Option<real> {
    if id in points then Some(points[id]) else None
  }

  lemma {:induction false} DistinctChannel(a: Arithmetic, k: nat, weight: real, channel: seq<PointId>,
                                           id: PointId, n: nat, entry: Option<real>)
    requires Distinct(channel) && n <= |channel|
    ensures AfterChannel(a, k, weight, channel, id, n, entry) ==
            if id in channel && IndexOf(channel, id) < n then
              var c := PositionScore(a, IndexOf(channel, id), k, weight);
              Some(if entry.Some? then Plus(a, entry.value, c) else c)
            else entry
  {
    if n > 0 {
      DistinctChannel(a, k, weight, channel, id, n - 1, entry);
    }
  }

  // A running entry and the running sum it stands for.
  predicate Agrees(entry: Option<real>, sum: real) {
    match entry
    case None => sum == 0.0
    case Some(score) => score == sum
  }

  function Combine(a: Arithmetic, entry: Option<real>, c: Option<real>): Option<real> {
    if c.None? then entry
    else if entry.Some? then Some(Plus(a, entry.value, c.value)) else c
  }

  lemma CombineAgrees(a: Arithmetic, entry: Option<real>, sum: real, c: Option<real>)
    requires Faithful(a) && Agrees(entry, sum) && a.round(sum) == sum
    requires c.Some? ==> a.round(c.value) == c.value >= 0.0
    ensures Agrees(Combine(a, entry, c), a.round(sum + if c.Some? then c.value else 0.0))
  {
    if c.Some? { PlusIsRounded(a, sum, c.value); }
  }

  lemma KnownRepresentable(f: Fusion, channels: Channels, id: PointId, s: nat)
    requires Faithful(f.arith) && f.k > 0 && ValidChannels(f, channels) && s < |channels|
    ensures var c := Known(f, channels, id, s);
      c.Some? ==> 0.0 <= c.value && f.arith.round(c.value) == c.value
  {
    if id in channels[s] {
      var i := IndexOf(channels[s], id);
      PositionScoreAntitone(f.arith, i, i, f.k, f.weights[s]);
    }
  }

  lemma SumRepresentable(f: Fusion, channels: Channels, id: PointId, s: nat)
    requires Faithful(f.arith) && f.k > 0 && ValidChannels(f, channels) && s <= |channels|
    ensures var sum := Accumulate(f.arith, Filled(Row(f, channels, id), Zeros(|f.weights|)), s);
      f.arith.round(sum) == sum
  {
    var terms := Filled(Row(f, channels, id), Zeros(|f.weights|));
    forall t | 0 <= t < s
      ensures 0.0 <= terms[t]
    {
      KnownRepresentable(f, channels, id, t);
    }
    AccumulateFixed(f.arith, terms, s);
  }

  ghost predicate RunningAgrees(f: Fusion, channels: Channels, id: PointId, s: nat)
    requires s <= |channels| == |f.weights|
  {
    Agrees(AfterAll(f, channels, id, s),
           Accumulate(f.arith, Filled(Row(f, channels, id), Zeros(|f.weights|)), s))
  }

  lemma RunningStep(f: Fusion, channels: Channels, id: PointId, s: nat)
    requires Faithful(f.arith) && f.k > 0 && ValidChannels(f, channels) && s < |channels|
    requires RunningAgrees(f, channels, id, s)
    ensures RunningAgrees(f, channels, id, s + 1)
  {
    var entry, channel := AfterAll(f, channels, id, s), channels[s];
    var terms := Filled(Row(f, channels, id), Zeros(|f.weights|));
    var c := Known(f, channels, id, s);
    SumRepresentable(f, channels, id, s);
    KnownRepresentable(f, channels, id, s);
    DistinctChannel(f.arith, f.k, f.weights[s], channel, id, |channel|, entry);
    CombineAgrees(f.arith, entry, Accumulate(f.arith, terms, s), c);
  }

  // Without repeats inside a response, the running score is the fused score.
  lemma RunningScore(f: Fusion, channels: Channels, id: PointId, s: nat)
    requires Faithful(f.arith) && f.k > 0 && ValidChannels(f, channels) && s <= |channels|
    ensures RunningAgrees(f, channels, id, s)
  {
    forall t: nat | t < s && RunningAgrees(f, channels, id, t) ensures RunningAgrees(f, channels, id, t + 1) {
      RunningStep(f, channels, id, t);
    }
    Climb((t: nat) => t <= s && RunningAgrees(f, channels, id, t), s);
  }

  // What the sorted result has to be.
  ghost predicate IsScoring(f: Fusion, channels: Channels, scored: seq<Scored>)
    requires |channels| == |f.weights|
  {
    && Ranked(scored)
    && forall x :: x in scored <==> x.score > 0.0 && AfterAll(f, channels, x.id, |channels|) == Some(x.score)
  }

  // For responses without repeats the result is the whole fused order.
  lemma ScoringIsFusedOrder(f: Fusion, channels: Channels, scored: seq<Scored>)
    requires Faithful(f.arith) && f.k > 0 && ValidChannels(f, channels) && IsScoring(f, channels, scored)
    ensures IsFusedPrefix(f, channels, Ids(scored)) && IsComplete(f, channels, Ids(scored))
    ensures forall i :: 0 <= i < |scored| ==> scored[i].score == FusedScore(f, channels, scored[i].id)
  {
    forall x: Scored
      ensures x in scored <==> x.score == FusedScore(f, channels, x.id) > 0.0
    {
      RunningScore(f, channels, x.id, |channels|);
    }
    assert forall i :: 0 <= i < |scored| ==> scored[i] in scored;
    RankedIsFusedOrder(f, channels, scored);
  }

  // Accumulates the score of every identity, response by response.
  method RrfScores(f: Fusion, responses: Channels) returns (points: map<PointId, real>)
    requires |responses| == |f.weights|
    ensures forall id: PointId :: Lookup(points, id) == AfterAll(f, responses, id, |responses|)
  {
    points := map[];
    for s := 0 to |responses|
      invariant forall id: PointId :: Lookup(points, id) == AfterAll(f, responses, id, s)
    {
      var response, w := responses[s], f.weights[s];
      for pos := 0 to |response|
        invariant forall id: PointId ::
          Lookup(points, id) == AfterChannel(f.arith, f.k, w, response, id, pos, AfterAll(f, responses, id, s))
      {
        var id, c := response[pos], PositionScore(f.arith, pos, f.k, w);
        if id in points {
          points := points[id := Plus(f.arith, points[id], c)];
        } else {
          points := points[id := c];
        }
      }
    }
  }

  // Keeps the identities of positive score, in no particular order.
  method PositiveScores(points: map<PointId, real>) returns (scores: seq<Scored>)
    ensures Distinct(scores)
    ensures forall x :: x in PositiveEntries(points) <==> x in scores
  {
    scores := [];
    var left := points.Keys;
    while left != {}
      invariant left <= points.Keys
      invariant Distinct(scores)
      invariant forall x :: x in scores <==>
        x.id in points && x.id !in left && points[x.id] == x.score && x.score > 0.0
    {
      var id :| id in left;
      left := left - {id};
      if points[id] > 0.0 {
        scores := scores + [Scored(id, points[id])];
      }
    }
  }

  ghost function PositiveEntries(points: map<PointId, real>): set<Scored> {
    set id | id in points && points[id] > 0.0 :: Scored(id, points[id])
  }

  // The deterministic positive-score order. Weights default to one.
  method ExactRrfScoring(a: Arithmetic, responses: Channels, k: nat, weights: Option<seq<real>>)
      returns (r: Result<seq<Scored>, string>)
    requires Faithful(a)
    ensures r.Err? <==> weights.Some? && |weights.value| != |responses|
    ensures r.Ok? ==> IsScoring(Fusion(a, k, Weights(|responses|, weights)), responses, r.value)
  {
    if weights.Some? && |weights.value| != |responses| {
      return Err("number of weights should match number of responses");
    }
    var f := Fusion(a, k, Weights(|responses|, weights));
    var points := RrfScores(f, responses);
    var scores := PositiveScores(points);
    r := Ok(RankSort(scores));
    forall x: Scored
      ensures x in PositiveEntries(points) <==>
        x.score > 0.0 && AfterAll(f, responses, x.id, |responses|) == Some(x.score)
    {
      assert Lookup(points, x.id) == AfterAll(f, responses, x.id, |responses|);
    }
  }

  function Weights(n: nat, weights: Option<seq<real>>): (ws: seq<real>)
    requires weights.Some? ==> |weights.value| == n
    ensures |ws| == n && (weights.None? ==> forall i :: 0 <= i < n ==> ws[i] == 1.0)
  {
    if weights.Some? then weights.value else seq(n, i => 1.0)
  }
}
