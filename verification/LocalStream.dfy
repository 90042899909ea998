// From the rank state of one segment to a source of the merge: a dense or a
// sparse segment delivers its points ranked by exact score and external identity.
//
// A stream is the sequence of replies it gives, the last of which ends it or
// fails. A reply does not depend on when it is pulled.
//
// Sources: lib/segment/src/index/dense_rank_state/core.rs,
// lib/sparse/src/index/posting_block_max/mod.rs,
// lib/segment/src/segment/read_view/search.rs
module LocalStream {
  import opened Common
  import opened RankOrder
  import opened RrfScoring
  import opened Frontier
  import opened KWayMerge
  import opened SparsePlan
  import D = DenseRank
  import P = SparseRank
  import S = SegmentStream

  type Replies = seq<Result<ScoreBatch, Error>>

  // ---------------------------------------------------------------------
  // Rank states pulled to their end

  lemma EmittedSize(universe: set<Scored>, groups: set<Group>, pending: set<Scored>, emitted: seq<Scored>)
    requires Sound(universe, groups, pending, emitted)
    ensures |emitted| <= |universe|
  {
    RankedSize(emitted, universe);
  }

  // Some points of the universe in ranked order.
  ghost predicate Within(universe: set<Scored>, ranks: seq<Scored>) {
    Ranked(ranks) && forall x :: x in ranks ==> x in universe
  }

  // Everything a dense state delivers, and what it fails with. Delivered points
  // are in order even if bounds are wrong; without a failure none is missing.
  method PullRanks(state: D.DenseRankState, max: nat) returns (ranks: seq<Scored>, failure: Option<Error>)
    requires state.Valid() && state.emitted == [] && max > 0
    modifies state
    ensures Within(D.Universe(state.eligible, state.score), ranks)
    ensures failure.None? ==> IsRanking(D.Universe(state.eligible, state.score), ranks)
    ensures failure.Some? ==> state.Violated()
  {
    ranks := [];
    while true
      invariant state.Valid() && state.emitted == ranks
      decreases |D.Universe(state.eligible, state.score)| - |ranks|
    {
      var batch := state.NextBatch(max);
      if batch.Err? { return ranks, Some(batch.error); }
      ranks := ranks + batch.value;
      if |batch.value| < max {
        assert state.bounds + {} == {};
        assert D.Groups({}, state.score) == {};
        return ranks, None;
      }
      EmittedSize(D.Universe(state.eligible, state.score), D.Groups(state.bounds + {}, state.score), state.exact,
                  state.emitted);
    }
  }

  lemma SparseWithin(state: P.PostingBlockMaxState)
    requires state.Valid() && state.terminalError.None?
    ensures Within(state.universe, state.emitted) && |state.emitted| <= |state.universe|
    ensures state.batches == {} && state.points == {} ==> IsRanking(state.universe, state.emitted)
  {
    EmittedSize(state.universe, P.Groups(state.arith, state.batches, state.postings), state.points, state.emitted);
    if state.batches == {} { assert P.Groups(state.arith, state.batches, state.postings) == {}; }
  }

  function FlagDuring(stops: (nat, nat) -> bool, n: nat): nat -> bool {
    (i: nat) => stops(n, i)
  }

  // The same for a sparse state; stops(n, i) is what the i-th look at the stop
  // flag during the n-th pull finds.
  method PullSparseRanks(state: P.PostingBlockMaxState, max: nat, stops: (nat, nat) -> bool)
    returns (ranks: seq<Scored>, failure: Option<Error>)
    requires state.Valid() && state.terminalError.None? && state.emitted == [] && max > 0
    modifies state
    ensures Within(state.universe, ranks)
    ensures failure.None? ==> IsRanking(state.universe, ranks)
    ensures failure.Some? ==> exists n, i :: stops(n, i)
  {
    ranks := [];
    var n := 0;
    while true
      invariant state.Valid() && state.terminalError.None? && state.emitted == ranks
      decreases |state.universe| - |ranks|
    {
      SparseWithin(state);
      var batch, looks := state.NextBatch(max, FlagDuring(stops, n));
      if batch.Err? {
        assert FlagDuring(stops, n)(looks - 1);
        return ranks, Some(Producer);
      }
      SparseWithin(state);
      if batch.value == [] { return ranks, None; }
      ranks := ranks + batch.value;
      n := n + 1;
    }
  }

  // ---------------------------------------------------------------------
  // External order

  // The next stretch of a list, in one reply.
  ghost predicate IsStretch(batch: ScoreBatch, start: nat, list: seq<Scored>, size: nat) {
    var end := start + |batch.points|;
    && end <= |list| && batch.points == list[start..end] && |batch.points| <= size
    && (if batch.exhausted then end == |list| else |batch.points| == size)
  }

  // One pull.
  method PullReply(state: S.SegmentRankState, size: nat) returns (reply: Result<ScoreBatch, Error>)
    requires state.Valid() && size > 0
    modifies state
    ensures reply.Ok? ==> state.Valid() && IsStretch(reply.value, |old(state.emitted)|, state.whole, size)
    ensures reply.Ok? ==> |state.emitted| == |old(state.emitted)| + |reply.value.points|
    ensures reply.Ok? && reply.value.exhausted ==> state.failure.None? && !state.Unmapped(old(state.internal))
    ensures reply.Ok? && state.Unmapped(old(state.internal)) ==> state.Unmapped(state.internal)
    ensures reply.Err? ==> state.Breaks(old(state.internal), reply.error)
    ensures state.Unmapped(state.internal) ==> state.Unmapped(old(state.internal))
  {
    var batch := state.NextBatch(size);
    if batch.Err? { return Err(batch.error); }
    state.EmittedIsPrefix();
    NextStretch(old(state.emitted), batch.value, state.whole);
    reply := Ok(ScoreBatch(batch.value, |batch.value| < size));
  }

  // The replies of a segment stream to successive pulls.
  method PullReplies(state: S.SegmentRankState, size: nat) returns (replies: Replies)
    requires state.Valid() && size > 0
    modifies state
    ensures Partial(replies, |old(state.emitted)|, state.whole, size)
    ensures Last(replies).Err? ==> state.Breaks(old(state.internal), Last(replies).error)
    ensures state.failure.Some? || state.Unmapped(old(state.internal)) ==> Last(replies).Err?
    decreases |state.whole| - |state.emitted|
  {
    state.EmittedIsPrefix();
    var reply := PullReply(state, size);
    if reply.Err? || reply.value.exhausted { return [reply]; }
    var rest := PullReplies(state, size);
    FirstReply(reply.value, rest, |old(state.emitted)|, state.whole, size);
    replies := [reply] + rest;
    assert Last(replies) == Last(rest);
  }

  lemma NextStretch(emitted: seq<Scored>, batch: seq<Scored>, whole: seq<Scored>)
    requires emitted + batch <= whole
    ensures batch == whole[|emitted|..|emitted| + |batch|]
  {
    assert (emitted + batch)[|emitted|..] == batch;
  }

  lemma FirstReply(batch: ScoreBatch, rest: Replies, start: nat, list: seq<Scored>, size: nat)
    requires size > 0 && IsStretch(batch, start, list, size) && !batch.exhausted
    requires Partial(rest, start + |batch.points|, list, size)
    ensures Partial([Ok(batch)] + rest, start, list, size)
  {
    assert ([Ok(batch)] + rest)[1..] == rest;
  }

  // The points of a segment under their external identities, ranked.
  ghost predicate IsLocalList(points: set<Scored>, external: map<PointId, PointId>, visible: set<PointId>,
                              list: seq<Scored>) {
    && Ranked(list)
    && forall p :: p in list <==> Origin(points, external, visible, p)
  }

  ghost predicate Origin(points: set<Scored>, external: map<PointId, PointId>, visible: set<PointId>, p: Scored) {
    exists x :: x in points && x.id in visible && x.id in external && p == Scored(external[x.id], x.score)
  }

  // Every identity has one score.
  ghost predicate Functional(points: set<Scored>) {
    forall x, y :: x in points && y in points && x.id == y.id ==> x == y
  }

  ghost function Delivered(ranks: seq<Scored>): set<Scored> {
    set x | x in ranks
  }

  lemma RankingFalls(universe: set<Scored>, xs: seq<Scored>)
    requires Within(universe, xs) && Functional(universe)
    ensures S.Falling(xs)
  {
    forall i, j | 0 <= i < j < |xs| ensures xs[i].id != xs[j].id {
      assert xs[i] in xs && xs[j] in xs && Precedes(xs[i], xs[j]);
    }
  }

  lemma StemsIsOrigin(xs: seq<Scored>, external: map<PointId, PointId>, visible: set<PointId>, p: Scored)
    ensures S.Stems(xs, external, visible, p) <==> Origin(Delivered(xs), external, visible, p)
  {
    if Origin(Delivered(xs), external, visible, p) {
      var x :| x in Delivered(xs) && x.id in visible && x.id in external && p == Scored(external[x.id], x.score);
      assert x in xs;
    }
    if S.Stems(xs, external, visible, p) {
      var i :| 0 <= i < |xs| && xs[i].id in visible && xs[i].id in external
        && p == Scored(external[xs[i].id], xs[i].score);
      assert xs[i] in Delivered(xs);
    }
  }

  ghost predicate Mapped(external: map<PointId, PointId>, visible: set<PointId>) {
    forall id :: id in visible ==> id in external
  }

  // What a segment whose state delivers these ranks gives the merge: the external
  // ranking of the delivered points, to its end if nothing fails and every visible
  // point is mapped.
  method SegmentReplies(ranks: seq<Scored>, failure: Option<Error>, external: map<PointId, PointId>,
                        visible: set<PointId>, size: nat, ghost universe: set<Scored>)
    returns (replies: Replies, ghost list: seq<Scored>)
    requires Within(universe, ranks) && Functional(universe) && S.Injective(external) && size > 0
    ensures IsLocalList(Delivered(ranks), external, visible, list) && Partial(replies, 0, list, size)
    ensures failure.None? && Mapped(external, visible) ==> HonestScores(replies, 0, list, size)
    ensures (forall i :: 0 <= i < |replies| ==> replies[i].Ok?) ==>
      && failure.None? && HonestScores(replies, 0, list, size)
      && forall x :: x in ranks && x.id in visible ==> x.id in external
  {
    RankingFalls(universe, ranks);
    var segment := new S.SegmentRankState(ranks, failure, external, visible);
    list := segment.whole;
    forall p ensures S.Stems(ranks, external, visible, p) <==> Origin(Delivered(ranks), external, visible, p) {
      StemsIsOrigin(ranks, external, visible, p);
    }
    replies := PullReplies(segment, size);
    if Last(replies).Ok? { PartialIsHonest(replies, 0, list, size); }
  }

  // ---------------------------------------------------------------------
  // Dense and sparse segments

  // The certificate that building a dense state accepts.
  ghost predicate Matches(eligible: seq<PointId>, bounds: seq<D.Bound>) {
    && Distinct(eligible) && multiset(eligible) == multiset(D.BoundIds(bounds))
    && forall i :: 0 <= i < |bounds| ==> bounds[i].lower <= bounds[i].upper
  }

  ghost predicate Certifies(score: PointId -> real, bounds: seq<D.Bound>) {
    forall i :: 0 <= i < |bounds| ==> D.Contains(bounds[i], score(bounds[i].id))
  }

  ghost function Eligible(ids: seq<PointId>): set<PointId> {
    set id | id in ids
  }

  // A dense segment from its bounds to the replies it gives the merge. With bounds
  // that hold and every point mapped, each reply is the next stretch of the
  // external ranking of the eligible points by exact score. With wrong bounds the
  // replies rank some of the points, until one fails; if none does, nothing was
  // missing.
  method DenseReplies(score: PointId -> real, eligible: seq<PointId>, bounds: seq<D.Bound>, refineBatch: nat,
                      external: map<PointId, PointId>, size: nat)
    returns (r: Result<Replies, Error>, ghost points: set<Scored>, ghost list: seq<Scored>)
    requires S.Injective(external)
    ensures r.Ok? <==> refineBatch > 0 && size > 0 && Matches(eligible, bounds)
    ensures r.Ok? ==> points <= D.Universe(Eligible(eligible), score)
    ensures r.Ok? ==> IsLocalList(points, external, Eligible(eligible), list) && Partial(r.value, 0, list, size)
    ensures r.Ok? && Certifies(score, bounds) ==> points == D.Universe(Eligible(eligible), score)
    ensures r.Ok? && Certifies(score, bounds) && Mapped(external, Eligible(eligible)) ==>
      HonestScores(r.value, 0, list, size)
    ensures r.Ok? && (forall i :: 0 <= i < |r.value| ==> r.value[i].Ok?) ==>
      && points == D.Universe(Eligible(eligible), score) && HonestScores(r.value, 0, list, size)
      && forall x :: x in points ==> x.id in external
  {
    points, list := {}, [];
    if size == 0 { return Err(Validation), points, list; }
    var built := D.DenseRankState.FromCertificateBounds(score, eligible, bounds, refineBatch);
    if built.Err? { return Err(built.error), points, list; }
    var state := built.value;
    var ranks, failure := PullRanks(state, if size < 16 then 16 else size);
    ghost var universe := D.Universe(Eligible(eligible), score);
    assert state.eligible == Eligible(eligible);
    points := Delivered(ranks);
    assert failure.None? ==> points == universe;
    if Certifies(score, bounds) { assert !state.Violated(); }
    var replies;
    replies, list := SegmentReplies(ranks, failure, external, (set id | id in eligible), size, universe);
    r := Ok(replies);
  }

  // The points of a sparse segment that score and that some range of the plan
  // covers.
  ghost predicate Surfaces(a: Arithmetic, postings: seq<Posting>, width: nat, x: Scored)
    requires width > 0
  {
    && x.score == Score(a, postings, x.id) && x.score != 0.0
    && Low(postings) <= x.id < High(postings)
    && Kept(a, postings, Low(postings), High(postings), width, x.id)
  }

  ghost predicate NeverStops(stops: (nat, nat) -> bool) {
    forall n, i :: !stops(n, i)
  }

  // A sparse segment from its postings to the replies it gives the merge. Each is
  // the next stretch of the external ranking of what was scored; unless a look
  // finds the stop flag set, all visible points that surface are.
  method SparseReplies(a: Arithmetic, postings: seq<Posting>, width: nat, stops: (nat, nat) -> bool,
                       external: map<PointId, PointId>, visible: set<PointId>, size: nat)
    returns (r: Result<Replies, Error>, ghost points: set<Scored>, ghost list: seq<Scored>)
    requires Faithful(a) && Weighted(postings) && S.Injective(external)
    ensures r.Ok? <==> width > 0 && size > 0
    ensures r.Ok? ==> forall x :: x in points ==> Surfaces(a, postings, width, x)
    ensures r.Ok? ==> IsLocalList(points, external, visible, list) && Partial(r.value, 0, list, size)
    ensures r.Ok? && NeverStops(stops) ==> forall x :: Surfaces(a, postings, width, x) ==> x in points
    ensures r.Ok? && NeverStops(stops) && Mapped(external, visible) ==> HonestScores(r.value, 0, list, size)
    ensures r.Ok? && (forall i :: 0 <= i < |r.value| ==> r.value[i].Ok?) ==>
      && (forall x :: Surfaces(a, postings, width, x) ==> x in points)
      && HonestScores(r.value, 0, list, size)
      && forall x :: x in points && x.id in visible ==> x.id in external
  {
    points, list := {}, [];
    if width == 0 || size == 0 { return Err(Validation), points, list; }
    var low, high := Span(postings);
    var state := new P.PostingBlockMaxState(a, postings, low, high, width);
    ghost var universe := state.universe;
    assert forall x :: x in universe <==> Surfaces(a, postings, width, x);
    var ranks, failure := PullSparseRanks(state, width, stops);
    points := Delivered(ranks);
    assert failure.None? ==> points == universe;
    var replies;
    replies, list := SegmentReplies(ranks, failure, external, visible, size, universe);
    r := Ok(replies);
  }

  // Without negative impacts all points that score surface.
  lemma ScoringSurface(a: Arithmetic, postings: seq<Posting>, width: nat, id: PointId)
    requires Faithful(a) && Weighted(postings) && NonNegative(postings) && width > 0
    ensures Surfaces(a, postings, width, Scored(id, Score(a, postings, id))) <==> Score(a, postings, id) != 0.0
  {
    if id !in Stored(postings) {
      OutsideScores(a, postings, id);
    } else if !Kept(a, postings, Low(postings), High(postings), width, id) {
      LeftOutScores(a, postings, Low(postings), High(postings), width, id);
    }
  }
}
