// Incremental fusion state over exact, rank-ordered channels.
//
// Source: lib/segment/src/common/reciprocal_rank_fusion/state.rs
module RrfState {
  import opened Common
  import opened RankOrder
  import opened RrfScoring
  import opened RrfCertificate
  import opened RrfTightness

  // What the state has to know of an identity it has seen: its contributions.
  ghost function Table(f: Fusion, observed: Channels): map<PointId, seq<Option<real>>>
    requires |observed| == |f.weights|
  {
    map id | id in Seen(observed) :: Row(f, observed, id)
  }

  function Append(observed: Channels, source: nat, ids: seq<PointId>): Channels
    requires source < |observed|
  {
    observed[source := observed[source] + ids]
  }

  // A batch is accepted exactly when it extends a live channel contiguously,
  // makes progress, and repeats no identity of that channel.
  ghost predicate Acceptable(observed: Channels, exhausted: seq<bool>, source: nat, batch: RankBatch)
    requires |observed| == |exhausted|
  {
    && source < |observed| && !exhausted[source]
    && batch.startRank == |observed[source]|
    && (batch.ids == [] ==> batch.exhausted)
    && Distinct(batch.ids)
    && forall id :: id in batch.ids ==> id !in observed[source]
  }

  lemma AppendTwice(observed: Channels, source: nat, ids: seq<PointId>, id: PointId)
    requires source < |observed|
    ensures Append(Append(observed, source, ids), source, [id]) == Append(observed, source, ids + [id])
  {
    assert observed[source] + ids + [id] == observed[source] + (ids + [id]);
  }

  lemma AppendOne(f: Fusion, observed: Channels, source: nat, id: PointId)
    requires ValidChannels(f, observed) && source < |observed| && id !in observed[source]
    ensures
      var more := Append(observed, source, [id]);
      var c := PositionScore(f.arith, |observed[source]|, f.k, f.weights[source]);
      && ValidChannels(f, more)
      && Seen(more) == Seen(observed) + {id}
      && Row(f, more, id) == Row(f, observed, id)[source := Some(c)]
      && forall y :: y != id ==> Row(f, more, y) == Row(f, observed, y)
  {
    var more := Append(observed, source, [id]);
    AppendSeen(observed, source, id);
    forall y: PointId, s | 0 <= s < |observed| && (y != id || s != source)
      ensures Known(f, more, y, s) == Known(f, observed, y, s)
    {
      if s == source && y in observed[s] {
        IndexInPrefix(observed[s], more[s], y);
      }
    }
    assert more[source][|observed[source]|] == id;
    assert Row(f, more, id) == Row(f, observed, id)[source :=
      Some(PositionScore(f.arith, |observed[source]|, f.k, f.weights[source]))];
    forall y | y != id
      ensures Row(f, more, y) == Row(f, observed, y)
    {
      assert forall s :: 0 <= s < |observed| ==> Known(f, more, y, s) == Known(f, observed, y, s);
    }
  }

  lemma ChannelsAppend(f: Fusion, observed: Channels, source: nat, id: PointId)
    requires ValidChannels(f, observed) && source < |observed| && id !in observed[source]
    ensures ValidChannels(f, Append(observed, source, [id]))
  {
  }

  lemma AppendSeen(observed: Channels, source: nat, id: PointId)
    requires source < |observed|
    ensures Seen(Append(observed, source, [id])) == Seen(observed) + {id}
  {
    var more := Append(observed, source, [id]);
    assert more[source][|observed[source]|] == id;
    forall y | y in Seen(observed)
      ensures y in Seen(more)
    {
      var s, i :| 0 <= s < |observed| && 0 <= i < |observed[s]| && observed[s][i] == y;
      assert more[s][i] == y;
    }
  }

  function NoneRow(n: nat): (row: seq<Option<real>>)
    ensures |row| == n && forall s :: 0 <= s < n ==> row[s].None?
  {
    seq(n, _ => None)
  }

  // Recording one more rank of a channel updates one entry of one row.
  lemma TableAppend(f: Fusion, observed: Channels, source: nat, id: PointId)
    requires ValidChannels(f, observed) && source < |observed| && id !in observed[source]
    ensures
      var table := Table(f, observed);
      var row := if id in table then table[id] else NoneRow(|f.weights|);
      var c := PositionScore(f.arith, |observed[source]|, f.k, f.weights[source]);
      Table(f, Append(observed, source, [id])) == table[id := row[source := Some(c)]]
  {
    AppendOne(f, observed, source, id);
    var table := Table(f, observed);
    if id !in table {
      assert forall s :: 0 <= s < |observed| ==> id !in observed[s];
      assert Row(f, observed, id) == NoneRow(|f.weights|);
    }
  }

  // An identity under certification, with the bounds of its final score.
  datatype Candidate = Candidate(id: PointId, lower: real, upper: real)

  // The list of candidates is exactly the seen identities outside `fixed`.
  ghost predicate Covers(f: Fusion, observed: Channels, exhausted: seq<bool>,
                         remaining: seq<Candidate>, fixed: seq<PointId>)
    requires Knowledge(f, observed, exhausted)
  {
    && Lists(f, observed, exhausted, remaining)
    && (forall i :: 0 <= i < |remaining| ==> remaining[i].id !in fixed)
    && (forall id :: id in Seen(observed) && id !in fixed ==> Listed(remaining, id))
  }

  ghost predicate Lists(f: Fusion, observed: Channels, exhausted: seq<bool>, remaining: seq<Candidate>)
    requires Knowledge(f, observed, exhausted)
  {
    && (forall i, j :: 0 <= i < j < |remaining| ==> remaining[i].id != remaining[j].id)
    && (forall i :: 0 <= i < |remaining| ==> IsCandidate(f, observed, exhausted, remaining[i]))
  }

  ghost predicate Listed(remaining: seq<Candidate>, id: PointId) {
    exists i :: 0 <= i < |remaining| && remaining[i].id == id
  }

  lemma ListMore(f: Fusion, observed: Channels, exhausted: seq<bool>, remaining: seq<Candidate>, c: Candidate)
    requires Knowledge(f, observed, exhausted) && Lists(f, observed, exhausted, remaining)
    requires IsCandidate(f, observed, exhausted, c) && !Listed(remaining, c.id)
    ensures Lists(f, observed, exhausted, remaining + [c])
    ensures forall id :: Listed(remaining + [c], id) <==> Listed(remaining, id) || id == c.id
  {
    var more := remaining + [c];
    assert more[|remaining|] == c;
    forall id | Listed(remaining, id)
      ensures Listed(more, id)
    {
      var i :| 0 <= i < |remaining| && remaining[i].id == id;
      assert more[i].id == id;
    }
  }

  ghost predicate IsCandidate(f: Fusion, observed: Channels, exhausted: seq<bool>, c: Candidate)
    requires Knowledge(f, observed, exhausted)
  {
    && c.id in Seen(observed)
    && c.lower == FusedScore(f, observed, c.id)
    && c.upper == Upper(f, observed, exhausted, c.id)
  }

  // Index of the candidate with the best lower bound.
  method BestIndex(remaining: seq<Candidate>) returns (w: nat)
    requires remaining != []
    requires forall i, j :: 0 <= i < j < |remaining| ==> remaining[i].id != remaining[j].id
    ensures w < |remaining|
    ensures forall j :: 0 <= j < |remaining| && j != w ==>
      Before(remaining[w].id, remaining[w].lower, remaining[j].id, remaining[j].lower)
  {
    w := 0;
    for i := 1 to |remaining|
      invariant w < i
      invariant forall j :: 0 <= j < i && j != w ==>
        Before(remaining[w].id, remaining[w].lower, remaining[j].id, remaining[j].lower)
    {
      if Before(remaining[i].id, remaining[i].lower, remaining[w].id, remaining[w].lower) {
        w := i;
      }
    }
  }

  function SwapRemove<T>(xs: seq<T>, i: nat): (ys: seq<T>)
    requires i < |xs|
    ensures |ys| == |xs| - 1
    ensures forall j :: 0 <= j < |ys| ==> ys[j] == if j == i then xs[|xs| - 1] else xs[j]
  {
    xs[i := xs[|xs| - 1]][..|xs| - 1]
  }

  lemma SwapRemoveListed(remaining: seq<Candidate>, w: nat, id: PointId)
    requires w < |remaining|
    requires forall i, j :: 0 <= i < j < |remaining| ==> remaining[i].id != remaining[j].id
    ensures Listed(SwapRemove(remaining, w), id) <==> Listed(remaining, id) && id != remaining[w].id
  {
    var rest := SwapRemove(remaining, w);
    if Listed(remaining, id) && id != remaining[w].id {
      var i :| 0 <= i < |remaining| && remaining[i].id == id;
      assert rest[if i == |remaining| - 1 then w else i].id == id;
    }
    if Listed(rest, id) {
      var j :| 0 <= j < |rest| && rest[j].id == id;
      assert remaining[if j == w then |remaining| - 1 else j].id == id;
    }
  }

  lemma SwapRemoveLists(f: Fusion, observed: Channels, exhausted: seq<bool>, remaining: seq<Candidate>, w: nat)
    requires Knowledge(f, observed, exhausted) && w < |remaining| && Lists(f, observed, exhausted, remaining)
    ensures Lists(f, observed, exhausted, SwapRemove(remaining, w))
  {
  }

  lemma SwapRemoveCovers(f: Fusion, observed: Channels, exhausted: seq<bool>,
                         remaining: seq<Candidate>, fixed: seq<PointId>, w: nat)
    requires Knowledge(f, observed, exhausted) && w < |remaining|
    requires Covers(f, observed, exhausted, remaining, fixed)
    ensures Covers(f, observed, exhausted, SwapRemove(remaining, w), fixed + [remaining[w].id])
  {
    var rest, more := SwapRemove(remaining, w), fixed + [remaining[w].id];
    SwapRemoveLists(f, observed, exhausted, remaining, w);
    assert forall x :: x in more <==> x in fixed || x == remaining[w].id;
    forall id | id in Seen(observed) && id !in more ensures Listed(rest, id) {
      SwapRemoveListed(remaining, w, id);
    }
    forall i | 0 <= i < |rest| ensures rest[i].id !in more {
      assert Listed(rest, rest[i].id);
      SwapRemoveListed(remaining, w, rest[i].id);
    }
  }

  lemma CertifyWinner(f: Fusion, observed: Channels, exhausted: seq<bool>,
                      remaining: seq<Candidate>, fixed: seq<PointId>, w: nat)
    requires Knowledge(f, observed, exhausted) && w < |remaining|
    requires Covers(f, observed, exhausted, remaining, fixed)
    requires Certified(f, observed, exhausted, fixed)
    requires remaining[w].lower > UnseenUpper(f, observed, exhausted)
    requires forall j :: 0 <= j < |remaining| && j != w ==>
      Before(remaining[w].id, remaining[w].lower, remaining[j].id, remaining[j].upper)
    ensures Certified(f, observed, exhausted, fixed + [remaining[w].id])
  {
    var more, winner := fixed + [remaining[w].id], remaining[w].id;
    assert IsCandidate(f, observed, exhausted, remaining[w]);
    assert forall x :: x in fixed ==> x in more;
    assert more[|fixed|] == winner;
    forall i, id | 0 <= i < |more| && id in Seen(observed) && id !in more
      ensures SurelyBefore(f, observed, exhausted, more[i], id)
    {
      if i == |fixed| {
        WinnerIsBefore(f, observed, exhausted, remaining, fixed, w, id);
      } else {
        assert more[i] == fixed[i];
      }
    }
  }

  lemma WinnerIsBefore(f: Fusion, observed: Channels, exhausted: seq<bool>,
                       remaining: seq<Candidate>, fixed: seq<PointId>, w: nat, id: PointId)
    requires Knowledge(f, observed, exhausted) && w < |remaining|
    requires Covers(f, observed, exhausted, remaining, fixed)
    requires forall j :: 0 <= j < |remaining| && j != w ==>
      Before(remaining[w].id, remaining[w].lower, remaining[j].id, remaining[j].upper)
    requires id in Seen(observed) && id !in fixed && id != remaining[w].id
    ensures SurelyBefore(f, observed, exhausted, remaining[w].id, id)
  {
    assert IsCandidate(f, observed, exhausted, remaining[w]);
    var j :| 0 <= j < |remaining| && remaining[j].id == id;
    assert IsCandidate(f, observed, exhausted, remaining[j]);
  }

  lemma WinnerStuck(f: Fusion, observed: Channels, exhausted: seq<bool>, topK: nat,
                    remaining: seq<Candidate>, fixed: seq<PointId>, w: nat)
    requires Knowledge(f, observed, exhausted) && w < |remaining| && |fixed| < topK
    requires Covers(f, observed, exhausted, remaining, fixed)
    requires Certified(f, observed, exhausted, fixed)
    requires forall j :: 0 <= j < |remaining| && j != w ==>
      Before(remaining[w].id, remaining[w].lower, remaining[j].id, remaining[j].lower)
    requires remaining[w].lower <= UnseenUpper(f, observed, exhausted)
          || exists j :: 0 <= j < |remaining| && j != w &&
               !Before(remaining[w].id, remaining[w].lower, remaining[j].id, remaining[j].upper)
    ensures Declined(f, observed, exhausted, topK)
  {
    var winner := remaining[w].id;
    assert IsCandidate(f, observed, exhausted, remaining[w]);
    forall y | y in Seen(observed) && y !in fixed && y != winner
      ensures FusedBefore(f, observed, winner, y)
    {
      var j :| 0 <= j < |remaining| && remaining[j].id == y;
      assert IsCandidate(f, observed, exhausted, remaining[j]);
    }
    if remaining[w].lower > UnseenUpper(f, observed, exhausted) {
      var j :| 0 <= j < |remaining| && j != w &&
        !Before(remaining[w].id, remaining[w].lower, remaining[j].id, remaining[j].upper);
      assert IsCandidate(f, observed, exhausted, remaining[j]);
      assert Contests(f, observed, exhausted, fixed, winner, remaining[j].id);
    }
    assert StuckAt(f, observed, exhausted, topK, fixed, winner);
  }

  lemma {:induction false} CoversEnough(f: Fusion, observed: Channels, exhausted: seq<bool>,
                                        remaining: seq<Candidate>, fixed: seq<PointId>)
    requires Knowledge(f, observed, exhausted)
    requires Covers(f, observed, exhausted, remaining, fixed)
    requires |fixed| < |Seen(observed)|
    ensures remaining != []
  {
    ListedSize(fixed);
    var listed := set i | 0 <= i < |fixed| :: fixed[i];
    SomeUnlisted(Seen(observed), listed);
    var id :| id in Seen(observed) && id !in listed;
    assert id !in fixed;
  }

  lemma SomeUnlisted<T>(a: set<T>, b: set<T>)
    requires |b| < |a|
    ensures exists x :: x in a && x !in b
  {
    if a <= b { SubsetSize(a, b); }
  }

  class DynamicRrfState {
    const arith: Arithmetic
    const rrfK: nat
    const weights: seq<real>
    var topK: nat
    var nextPositions: seq<nat>
    var exhausted: seq<bool>
    var points: map<PointId, seq<Option<real>>>
    // The ranks read so far, channel by channel.
    ghost var observed: Channels

    ghost function F(): Fusion {
      Fusion(arith, rrfK, weights)
    }

    ghost predicate Valid()
      reads this
    {
      && Knowledge(F(), observed, exhausted)
      && |nextPositions| == |weights|
      && (forall s :: 0 <= s < |observed| ==> nextPositions[s] == |observed[s]|)
      && points == Table(F(), observed)
    }

    constructor Create(arith: Arithmetic, topK: nat, rrfK: nat, weights: seq<real>)
      requires ValidFusion(Fusion(arith, rrfK, weights))
      ensures Valid() && F() == Fusion(arith, rrfK, weights) && this.topK == topK
      ensures observed == seq(|weights|, _ => []) && exhausted == seq(|weights|, _ => false)
    {
      this.arith, this.rrfK, this.weights, this.topK := arith, rrfK, weights, topK;
      nextPositions := seq(|weights|, _ => 0);
      exhausted := seq(|weights|, _ => false);
      points := map[];
      observed := seq(|weights|, _ => []);
    }

    // Validates the configuration; weights default to one.
    static method New(arith: Arithmetic, sourceCount: nat, topK: nat, rrfK: nat, weights: Option<seq<real>>)
        returns (r: Result<DynamicRrfState, Error>)
      requires Faithful(arith)
      ensures r.Ok? <==>
        && sourceCount > 0 && rrfK > 0
        && (weights.Some? ==> |weights.value| == sourceCount && forall w :: w in weights.value ==> w >= 0.0)
      ensures r.Ok? ==>
        && fresh(r.value) && r.value.Valid() && r.value.topK == topK
        && r.value.F() == Fusion(arith, rrfK, if weights.Some? then weights.value else seq(sourceCount, _ => 1.0))
        && r.value.observed == seq(sourceCount, _ => []) && r.value.exhausted == seq(sourceCount, _ => false)
    {
      if sourceCount == 0 || rrfK == 0 {
        return Err(Validation);
      }
      if weights.Some? && |weights.value| != sourceCount {
        return Err(Validation);
      }
      var ws := if weights.Some? then weights.value else seq(sourceCount, _ => 1.0);
      assert weights.None? ==> forall w :: w in ws ==> w == 1.0;
      if exists w :: w in ws && w < 0.0 {
        return Err(Validation);
      }
      assert forall i :: 0 <= i < |ws| ==> ws[i] in ws;
      var state := new DynamicRrfState.Create(arith, topK, rrfK, ws);
      r := Ok(state);
    }

    predicate AllExhausted()
      reads this
    {
      forall s :: 0 <= s < |exhausted| ==> exhausted[s]
    }

    // Whether the batch repeats an identity, of itself or of its channel.
    method Repeats(source: nat, ids: seq<PointId>) returns (repeats: bool)
      requires Valid() && source < |weights|
      ensures !repeats <==> Distinct(ids) && forall id :: id in ids ==> id !in observed[source]
    {
      var unique: set<PointId> := {};
      for i := 0 to |ids|
        invariant forall id :: id in unique <==> id in ids[..i]
        invariant Distinct(ids[..i])
        invariant forall id :: id in ids[..i] ==> id !in observed[source]
      {
        var id := ids[i];
        assert ids[..i + 1] == ids[..i] + [id];
        assert id in observed[source] ==> id in Seen(observed);
        if id in unique || (id in points && points[id][source].Some?) {
          return true;
        }
        unique := unique + {id};
      }
      assert ids[..|ids|] == ids;
      repeats := false;
    }

    // Records the next rank of a channel.
    method RecordOne(source: nat, rank: nat, id: PointId)
      requires ValidChannels(F(), observed) && points == Table(F(), observed)
      requires source < |weights| && rank == |observed[source]| && id !in observed[source]
      modifies `points, `observed
      ensures observed == Append(old(observed), source, [id])
      ensures ValidChannels(F(), observed) && points == Table(F(), observed)
    {
      TableAppend(F(), observed, source, id);
      ChannelsAppend(F(), observed, source, id);
      var row := if id in points then points[id] else NoneRow(|weights|);
      points := points[id := row[source := Some(PositionScore(arith, rank, rrfK, weights[source]))]];
      observed := Append(observed, source, [id]);
    }

    // Records the contributions of a validated batch.
    method Record(source: nat, ids: seq<PointId>)
      requires Valid() && source < |weights|
      requires Distinct(ids) && forall id :: id in ids ==> id !in observed[source]
      modifies `points, `observed
      ensures observed == Append(old(observed), source, ids)
      ensures ValidChannels(F(), observed) && points == Table(F(), observed)
    {
      var start := nextPositions[source];
      assert observed[source] + ids[..0] == observed[source];
      for offset := 0 to |ids|
        invariant observed == Append(old(observed), source, ids[..offset])
        invariant ValidChannels(F(), observed) && points == Table(F(), observed)
      {
        AppendTwice(old(observed), source, ids[..offset], ids[offset]);
        assert ids[..offset + 1] == ids[..offset] + [ids[offset]];
        RecordOne(source, start + offset, ids[offset]);
      }
      assert ids[..|ids|] == ids;
    }

    // Applies a batch as a whole or not at all.
    method ObserveBatch(source: nat, batch: RankBatch) returns (r: Result<(), Error>)
      requires Valid()
      modifies `points, `observed, `nextPositions, `exhausted
      ensures Valid()
      ensures r.Ok? <==> Acceptable(old(observed), old(exhausted), source, batch)
      ensures r.Err? ==>
        r.error == Validation && observed == old(observed) && exhausted == old(exhausted) && points == old(points)
      ensures r.Ok? ==>
        && observed == Append(old(observed), source, batch.ids)
        && exhausted == old(exhausted)[source := batch.exhausted]
    {
      if source >= |weights| || exhausted[source] {
        return Err(Validation);
      }
      if batch.startRank != nextPositions[source] {
        return Err(Validation);
      }
      if batch.ids == [] && !batch.exhausted {
        return Err(Validation);
      }
      var repeats := Repeats(source, batch.ids);
      if repeats {
        return Err(Validation);
      }
      Record(source, batch.ids);
      nextPositions := nextPositions[source := nextPositions[source] + |batch.ids|];
      if batch.exhausted {
        exhausted := exhausted[source := true];
      }
      r := Ok(());
    }

    // Lower and upper bound of every seen identity, in no particular order.
    method Bounds(next: seq<real>) returns (remaining: seq<Candidate>)
      requires Valid() && next == Next(F(), observed, exhausted)
      ensures Covers(F(), observed, exhausted, remaining, [])
    {
      remaining := [];
      var left := points.Keys;
      while left != {}
        invariant left <= points.Keys
        invariant Lists(F(), observed, exhausted, remaining)
        invariant forall id :: Listed(remaining, id) <==> id in points.Keys && id !in left
      {
        var id :| id in left;
        var row := points[id];
        var c := Candidate(id, Sum(arith, Filled(row, Zeros(|weights|))), Sum(arith, Filled(row, next)));
        ListMore(F(), observed, exhausted, remaining, c);
        remaining := remaining + [c];
        left := left - {id};
      }
    }

    // The whole fused order of what has been read.
    method CompleteOrder() returns (order: seq<PointId>)
      requires Valid()
      ensures IsFusedPrefix(F(), observed, order) && IsComplete(F(), observed, order)
    {
      var scores: seq<Scored> := [];
      var left := points.Keys;
      while left != {}
        invariant left <= points.Keys && Distinct(scores)
        invariant forall x :: x in scores <==>
          x.id in points.Keys && x.id !in left && x.score == FusedScore(F(), observed, x.id) > 0.0
      {
        var id :| id in left;
        var score := Sum(arith, Filled(points[id], Zeros(|weights|)));
        left := left - {id};
        if score > 0.0 {
          scores := scores + [Scored(id, score)];
        }
      }
      var ranked := RankSort(scores);
      forall x: Scored | x.score == FusedScore(F(), observed, x.id) > 0.0
        ensures x in ranked
      {
        if x.id !in Seen(observed) { UnseenScoresZero(F(), observed, x.id); }
      }
      RankedIsFusedOrder(F(), observed, ranked);
      order := Ids(ranked);
    }

    // The Top-K once it is settled. An answer is the exact Top-K of every
    // completion of what has been read; none is given only for a stated reason.
    method FixedTopK() returns (r: Option<seq<PointId>>)
      requires Valid()
      ensures r.Some? ==> forall channels ::
        Completes(F(), observed, exhausted, channels) ==> IsTopK(F(), channels, topK, r.value)
      ensures r.None? <==> Unanswered(F(), observed, exhausted, topK)
    {
      if topK == 0 {
        return Some([]);
      }
      if !AllExhausted() && |points| < topK {
        assert points.Keys == Seen(observed);
        return None;
      }
      if AllExhausted() {
        var order := CompleteOrder();
        r := Some(Take(order, topK));
        forall channels | Completes(F(), observed, exhausted, channels)
          ensures IsTopK(F(), channels, topK, r.value)
        {
          assert channels == observed;
          TakeIsTopK(F(), observed, topK, order);
        }
        return;
      }
      r := Certify();
      if r.Some? {
        forall channels | Completes(F(), observed, exhausted, channels)
          ensures IsTopK(F(), channels, topK, r.value)
        {
          CertifiedIsExact(F(), observed, exhausted, channels, r.value);
        }
        CertifiedIsNotDeclined(F(), observed, exhausted, topK, r.value);
      }
    }

    // Fixes the best remaining candidate topK times, as long as no unseen
    // identity and no other candidate can still overtake it.
    method Certify() returns (r: Option<seq<PointId>>)
      requires Valid() && |points| >= topK
      ensures r.Some? ==> Certified(F(), observed, exhausted, r.value) && |r.value| == topK
      ensures r.None? ==> Declined(F(), observed, exhausted, topK)
    {
      var next := seq(|weights|, s requires 0 <= s < |weights| reads this requires Valid() =>
        if exhausted[s] then 0.0 else PositionScore(arith, nextPositions[s], rrfK, weights[s]));
      assert next == Next(F(), observed, exhausted);
      assert points.Keys == Seen(observed);
      var unseenUpper := Sum(arith, next);
      var remaining := Bounds(next);
      var fixed: seq<PointId> := [];
      for i := 0 to topK
        invariant |fixed| == i
        invariant Covers(F(), observed, exhausted, remaining, fixed)
        invariant Certified(F(), observed, exhausted, fixed)
      {
        CoversEnough(F(), observed, exhausted, remaining, fixed);
        var w := BestIndex(remaining);
        var winner := remaining[w];
        if winner.lower <= unseenUpper
           || exists j :: 0 <= j < |remaining| && j != w &&
                !Before(winner.id, winner.lower, remaining[j].id, remaining[j].upper) {
          WinnerStuck(F(), observed, exhausted, topK, remaining, fixed, w);
          return None;
        }
        CertifyWinner(F(), observed, exhausted, remaining, fixed, w);
        SwapRemoveCovers(F(), observed, exhausted, remaining, fixed, w);
        fixed := fixed + [winner.id];
        remaining := SwapRemove(remaining, w);
      }
      r := Some(fixed);
    }
  }
}
