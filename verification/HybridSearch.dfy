// The whole exact search: from stored vectors and postings, through quantised
// bounds, segment streams and the merge, to the fused Top-K.
//
// The dense plan is the scalar certificate.
//
// Sources: lib/collection/src/collection/exact_rrf/session.rs,
// lib/shard/src/exact_shard_stream.rs, lib/segment/src/index/dense_rank_state/plans.rs
module HybridSearch {
  import opened Common
  import opened RankOrder
  import opened RrfScoring
  import opened RrfRounds
  import opened RrfSession
  import opened ScalarCertificate
  import opened SparsePlan
  import D = DenseRank
  import S = SegmentStream
  import K = KWayMerge
  import L = LocalStream
  import H = ExactHybrid
  import M = ShardMerge
  import N = SparseMeaning
  import opened KWayStream

  // A vector, what is rebuilt from its quantised form, and the recorded norms.
  datatype Document = Document(vector: Vector, rebuilt: Vector, norm: real, residual: real)

  datatype Query = Query(vector: Vector, rebuilt: Vector, rebuiltNorm: real, residual: real)

  // A segment: its vectors and the points a dense query may return, the postings
  // of the sparse query's terms, identities, visibility, and the version of each
  // external identity.
  datatype Segment = Segment(documents: map<PointId, Document>, eligible: seq<PointId>, postings: seq<Posting>,
                             external: map<PointId, PointId>, visible: set<PointId>, versions: map<PointId, nat>)

  type Shard = seq<Segment>

  // The recorded norms are right and the dimensions agree.
  ghost predicate Recorded(q: Query, d: Document) {
    && |q.vector| == |q.rebuilt| == |d.vector| == |d.rebuilt|
    && BoundsNorm(d.norm, d.vector) && BoundsNorm(d.residual, Minus(d.vector, d.rebuilt))
    && BoundsNorm(q.rebuiltNorm, q.rebuilt) && BoundsNorm(q.residual, Minus(q.vector, q.rebuilt))
  }

  // A segment as the storage keeps it.
  ghost predicate Stored(s: Segment) {
    && S.Injective(s.external) && Weighted(s.postings)
    && forall id :: id in s.eligible ==> id in s.documents
  }

  // What the storage records about the vectors is right.
  ghost predicate Trusted(q: Query, s: Segment) {
    forall id :: id in s.documents ==> Recorded(q, s.documents[id])
  }

  // ---------------------------------------------------------------------
  // Dense bounds

  function Product(x: Vector, y: Vector): real {
    if |x| == |y| then Dot(x, y) else 0.0
  }

  function Exact(q: Query, documents: map<PointId, Document>): PointId -> real {
    id => if id in documents then Product(q.vector, documents[id].vector) else 0.0
  }

  function BoundOf(q: Query, d: Document, id: PointId, guard: real): D.Bound {
    var approximate := Product(q.rebuilt, d.rebuilt);
    var error := ErrorBound(q.residual, d.norm, q.rebuiltNorm, d.residual);
    D.Bound(id, approximate - error - guard, approximate + error + guard)
  }

  function Bounds(q: Query, s: Segment, guard: PointId -> real): (bounds: seq<D.Bound>)
    requires forall id :: id in s.eligible ==> id in s.documents
    ensures |bounds| == |s.eligible|
    ensures forall i :: 0 <= i < |bounds| ==>
      bounds[i] == BoundOf(q, s.documents[s.eligible[i]], s.eligible[i], guard(s.eligible[i]))
  {
    seq(|s.eligible|, i requires 0 <= i < |s.eligible| =>
      BoundOf(q, s.documents[s.eligible[i]], s.eligible[i], guard(s.eligible[i])))
  }

  lemma BoundHolds(q: Query, d: Document, id: PointId, guard: real)
    requires Recorded(q, d) && guard >= 0.0
    ensures D.Contains(BoundOf(q, d, id, guard), Product(q.vector, d.vector))
  {
    IntervalContainsScore(q.vector, d.vector, q.rebuilt, d.rebuilt, q.residual, d.norm, q.rebuiltNorm, d.residual,
                          guard);
  }

  // Bounds computed from the quantised vectors make a certificate that is
  // accepted and that holds.
  lemma BoundsCertify(q: Query, s: Segment, guard: PointId -> real)
    requires Stored(s) && Trusted(q, s) && Distinct(s.eligible) && forall id :: guard(id) >= 0.0
    ensures L.Matches(s.eligible, Bounds(q, s, guard)) && L.Certifies(Exact(q, s.documents), Bounds(q, s, guard))
  {
    var bounds := Bounds(q, s, guard);
    assert D.BoundIds(bounds) == s.eligible;
    forall i | 0 <= i < |bounds|
      ensures D.Contains(bounds[i], Exact(q, s.documents)(bounds[i].id)) && bounds[i].lower <= bounds[i].upper
    {
      var id := s.eligible[i];
      assert id in s.eligible;
      BoundHolds(q, s.documents[id], id, guard(id));
    }
  }

  // ---------------------------------------------------------------------
  // Channels

  datatype Channel = Dense(query: Query) | Sparse(arith: Arithmetic, width: nat)

  // A dense query shows every eligible point of a segment under its external
  // identity, with the exact score; a sparse one every visible point that
  // surfaces.
  ghost predicate Shows(c: Channel, s: Segment, p: Scored) {
    match c
    case Dense(q) =>
      exists id ::
        id in s.eligible && id in s.documents && id in s.external && p.id == s.external[id]
        && p.score == if |q.vector| == |s.documents[id].vector| then Dot(q.vector, s.documents[id].vector) else 0.0
    case Sparse(a, width) =>
      width > 0 && exists id ::
        id in s.visible && id in s.external && p.id == s.external[id]
        && L.Surfaces(a, s.postings, width, Scored(id, p.score))
  }

  ghost predicate ShardShows(c: Channel, shard: Shard, p: Scored) {
    exists s :: 0 <= s < |shard| && Shows(c, shard[s], p)
  }

  // The ranking of everything that is shown.
  ghost predicate IsOrder(c: Channel, shards: seq<Shard>, order: seq<Scored>) {
    && Ranked(order)
    && forall p :: p in order <==> exists h :: 0 <= h < |shards| && ShardShows(c, shards[h], p)
  }

  function Version(s: Segment, id: PointId): nat {
    if id in s.versions then s.versions[id] else 0
  }

  // Copies of a point in the segments of a shard have the same score and version.
  ghost predicate CopiesAgree(c: Channel, shard: Shard) {
    forall s, t, p, q :: 0 <= s < |shard| && 0 <= t < |shard| && Shows(c, shard[s], p) && Shows(c, shard[t], q) ==>
      p.id == q.id ==>
        && p == q
        && (if p.id in shard[s].versions then shard[s].versions[p.id] else 0)
           == if p.id in shard[t].versions then shard[t].versions[p.id] else 0
  }

  // Different shards hold different identities.
  ghost predicate Apart(shards: seq<Shard>) {
    forall g, h, s, t, x, y ::
      0 <= g < h < |shards| && 0 <= s < |shards[g]| && 0 <= t < |shards[h]|
      && x in shards[g][s].external && y in shards[h][t].external ==>
        shards[g][s].external[x] != shards[h][t].external[y]
  }

  // The replies deliver the ranking of what a segment, or a shard, shows.
  ghost predicate SegmentHonest(c: Channel, s: Segment, list: seq<Scored>, replies: L.Replies, size: nat) {
    && Ranked(list) && (forall p :: p in list <==> Shows(c, s, p))
    && K.HonestScores(replies, 0, list, size)
  }

  ghost predicate ShardHonest(c: Channel, shard: Shard, list: seq<Scored>, replies: L.Replies) {
    && Ranked(list) && (forall p :: p in list <==> ShardShows(c, shard, p))
    && K.HonestScores(replies, 0, list, H.EXACT_FUSION_BATCH_SIZE)
  }

  lemma DenseListed(q: Query, s: Segment, list: seq<Scored>, p: Scored)
    requires L.IsLocalList(D.Universe(L.Eligible(s.eligible), Exact(q, s.documents)), s.external,
                           L.Eligible(s.eligible), list)
    requires forall id :: id in s.eligible ==> id in s.documents
    ensures p in list <==> Shows(Dense(q), s, p)
  {
    var points := D.Universe(L.Eligible(s.eligible), Exact(q, s.documents));
    if p in list {
      var x :| x in points && x.id in L.Eligible(s.eligible) && x.id in s.external
        && p == Scored(s.external[x.id], x.score);
      assert x.id in s.eligible;
    }
    if Shows(Dense(q), s, p) {
      var id :| id in s.eligible && id in s.documents && id in s.external && p.id == s.external[id]
        && p.score == if |q.vector| == |s.documents[id].vector| then Dot(q.vector, s.documents[id].vector) else 0.0;
      assert p == Scored(s.external[id], Exact(q, s.documents)(id));
      assert Scored(id, Exact(q, s.documents)(id)) in points;
    }
  }

  lemma SparseListed(a: Arithmetic, s: Segment, width: nat, points: set<Scored>, list: seq<Scored>, p: Scored)
    requires width > 0 && L.IsLocalList(points, s.external, s.visible, list)
    requires forall x :: x in points <==> L.Surfaces(a, s.postings, width, x)
    ensures p in list <==> Shows(Sparse(a, width), s, p)
  {
    if p in list {
      var x :| x in points && x.id in s.visible && x.id in s.external && p == Scored(s.external[x.id], x.score);
      assert L.Surfaces(a, s.postings, width, Scored(x.id, p.score));
    }
    if Shows(Sparse(a, width), s, p) {
      var id :| id in s.visible && id in s.external && p.id == s.external[id]
        && L.Surfaces(a, s.postings, width, Scored(id, p.score));
      assert Scored(id, p.score) in points;
    }
  }

  // Without negative impacts and without rounding a sparse query shows every visible
  // point whose dot product with the query is not zero.
  lemma SparseShowsDot(a: Arithmetic, s: Segment, width: nat, p: Scored)
    requires Faithful(a) && Weighted(s.postings) && NonNegative(s.postings) && width > 0
    requires forall id :: N.Unrounded(a, N.Impacts(s.postings, id), N.QueryWeights(s.postings))
    ensures Shows(Sparse(a, width), s, p) <==>
      exists id ::
        && id in s.visible && id in s.external && p.id == s.external[id]
        && p.score == Dot(N.Impacts(s.postings, id), N.QueryWeights(s.postings)) && p.score != 0.0
  {
    forall id
      ensures L.Surfaces(a, s.postings, width, Scored(id, p.score)) <==>
        p.score == Dot(N.Impacts(s.postings, id), N.QueryWeights(s.postings)) && p.score != 0.0
    {
      N.ScoreIsDot(a, s.postings, id);
      L.ScoringSurface(a, s.postings, width, id);
    }
  }

  // ---------------------------------------------------------------------
  // Segments and shards

  ghost predicate AllStored(shards: seq<Shard>) {
    forall h, s :: 0 <= h < |shards| && 0 <= s < |shards[h]| ==> Stored(shards[h][s])
  }

  // Right norms, a guard that only widens, every eligible point once and mapped.
  ghost predicate DenseTrusted(q: Query, s: Segment, guard: PointId -> real) {
    && (forall id :: guard(id) >= 0.0)
    && Trusted(q, s) && Distinct(s.eligible) && L.Mapped(s.external, L.Eligible(s.eligible))
  }

  // Never stopped, every visible point mapped.
  ghost predicate SparseTrusted(s: Segment, stops: (nat, nat) -> bool) {
    L.NeverStops(stops) && L.Mapped(s.external, s.visible)
  }

  method DenseSegment(q: Query, one: Segment, guard: PointId -> real, refineBatch: nat, size: nat)
    returns (r: Result<L.Replies, Error>, ghost list: seq<Scored>)
    requires Stored(one)
    ensures r.Ok? && DenseTrusted(q, one, guard) ==> SegmentHonest(Dense(q), one, list, r.value, size)
    ensures refineBatch > 0 && size > 0 && DenseTrusted(q, one, guard) ==> r.Ok?
  {
    ghost var trusted := DenseTrusted(q, one, guard);
    if trusted { BoundsCertify(q, one, guard); }
    ghost var points := {};
    r, points, list := L.DenseReplies(Exact(q, one.documents), one.eligible, Bounds(q, one, guard), refineBatch,
                                      one.external, size);
    if trusted && r.Ok? {
      forall p ensures p in list <==> Shows(Dense(q), one, p) { DenseListed(q, one, list, p); }
    }
  }

  method SparseSegment(a: Arithmetic, one: Segment, width: nat, stops: (nat, nat) -> bool, size: nat)
    returns (r: Result<L.Replies, Error>, ghost list: seq<Scored>)
    requires Faithful(a) && Stored(one)
    ensures r.Ok? <==> width > 0 && size > 0
    ensures r.Ok? && SparseTrusted(one, stops) ==> SegmentHonest(Sparse(a, width), one, list, r.value, size)
  {
    ghost var points := {};
    r, points, list := L.SparseReplies(a, one.postings, width, stops, one.external, one.visible, size);
    if r.Ok? && SparseTrusted(one, stops) {
      forall p ensures p in list <==> Shows(Sparse(a, width), one, p) { SparseListed(a, one, width, points, list, p); }
    }
  }

  function VersionsOf(shard: Shard): M.Versions {
    (s: nat, id: PointId) => if s < |shard| then Version(shard[s], id) else 0
  }

  lemma AgreeingLists(c: Channel, shard: Shard, lists: seq<seq<Scored>>)
    requires |lists| == |shard|
    requires forall s, p :: 0 <= s < |shard| ==> (p in lists[s] <==> Shows(c, shard[s], p))
    ensures M.Agree(lists, VersionsOf(shard)) <==> CopiesAgree(c, shard)
  {
    if CopiesAgree(c, shard) { AgreeForward(c, shard, lists); }
    if M.Agree(lists, VersionsOf(shard)) { AgreeBackward(c, shard, lists); }
  }

  lemma AgreeBackward(c: Channel, shard: Shard, lists: seq<seq<Scored>>)
    requires |lists| == |shard| && M.Agree(lists, VersionsOf(shard))
    requires forall s, p :: 0 <= s < |shard| ==> (p in lists[s] <==> Shows(c, shard[s], p))
    ensures CopiesAgree(c, shard)
  {
    forall s, t, p, q | 0 <= s < |shard| && 0 <= t < |shard| && Shows(c, shard[s], p) && Shows(c, shard[t], q)
                        && p.id == q.id
      ensures p == q && Version(shard[s], p.id) == Version(shard[t], q.id)
    {
      assert p in lists[s] && q in lists[t];
      AgreeingCopies(shard, lists, s, t, p, q);
    }
  }

  lemma AgreeingCopies(shard: Shard, lists: seq<seq<Scored>>, s: nat, t: nat, p: Scored, q: Scored)
    requires |lists| == |shard| && M.Agree(lists, VersionsOf(shard)) && s < |shard| && t < |shard|
    requires p in lists[s] && q in lists[t] && p.id == q.id
    ensures p == q && Version(shard[s], p.id) == Version(shard[t], q.id)
  {
    var i :| 0 <= i < |lists[s]| && lists[s][i] == p;
    var j :| 0 <= j < |lists[t]| && lists[t][j] == q;
    assert VersionsOf(shard)(s, p.id) == VersionsOf(shard)(t, q.id);
  }

  lemma AgreeForward(c: Channel, shard: Shard, lists: seq<seq<Scored>>)
    requires |lists| == |shard| && CopiesAgree(c, shard)
    requires forall s, p :: 0 <= s < |shard| ==> (p in lists[s] <==> Shows(c, shard[s], p))
    ensures M.Agree(lists, VersionsOf(shard))
  {
    forall s, i, t, j | 0 <= s < |lists| && 0 <= t < |lists| && 0 <= i < |lists[s]| && 0 <= j < |lists[t]|
                        && lists[s][i].id == lists[t][j].id
      ensures lists[s][i] == lists[t][j]
      ensures VersionsOf(shard)(s, lists[s][i].id) == VersionsOf(shard)(t, lists[t][j].id)
    {
      assert lists[s][i] in lists[s] && lists[t][j] in lists[t];
      assert Shows(c, shard[s], lists[s][i]) && Shows(c, shard[t], lists[t][j]);
    }
  }

  ghost predicate AllSegmentsHonest(c: Channel, shard: Shard, lists: seq<seq<Scored>>, replies: seq<L.Replies>,
                                    size: nat) {
    && |lists| == |replies| == |shard|
    && forall s :: 0 <= s < |shard| ==> SegmentHonest(c, shard[s], lists[s], replies[s], size)
  }

  // The segments of a shard merged.
  method MergeShard(ghost c: Channel, shard: Shard, replies: seq<L.Replies>, size: nat, ghost lists: seq<seq<Scored>>)
    returns (r: Result<L.Replies, Error>, ghost list: seq<Scored>)
    ensures size > 0 && AllSegmentsHonest(c, shard, lists, replies, size) && CopiesAgree(c, shard) ==>
      r.Ok? && ShardHonest(c, shard, list, r.value)
    ensures size > 0 && AllSegmentsHonest(c, shard, lists, replies, size) ==>
      r.Ok? && r.value != [] && (K.Last(r.value).Ok? <==> CopiesAgree(c, shard))
  {
    ghost var honest := size > 0 && AllSegmentsHonest(c, shard, lists, replies, size);
    if honest { HonestSegments(c, shard, lists, replies, size); }
    r, list := M.ShardReplies(replies, VersionsOf(shard), size, H.EXACT_FUSION_BATCH_SIZE, lists);
    if honest && CopiesAgree(c, shard) { MergedShowsAll(c, shard, lists, replies, size, list); }
  }

  lemma HonestSegments(c: Channel, shard: Shard, lists: seq<seq<Scored>>, replies: seq<L.Replies>, size: nat)
    requires AllSegmentsHonest(c, shard, lists, replies, size)
    ensures M.AllHonest(replies, lists, size)
    ensures M.Agree(lists, VersionsOf(shard)) <==> CopiesAgree(c, shard)
  {
    forall s | 0 <= s < |shard|
      ensures Ranked(lists[s]) && K.HonestScores(replies[s], 0, lists[s], size)
      ensures forall p :: p in lists[s] <==> Shows(c, shard[s], p)
    {
      assert SegmentHonest(c, shard[s], lists[s], replies[s], size);
    }
    AgreeingLists(c, shard, lists);
  }

  lemma MergedShowsAll(c: Channel, shard: Shard, lists: seq<seq<Scored>>, replies: seq<L.Replies>, size: nat,
                       list: seq<Scored>)
    requires AllSegmentsHonest(c, shard, lists, replies, size) && K.IsMerged(lists, list)
    ensures forall p :: p in list <==> ShardShows(c, shard, p)
  {
    forall s | 0 <= s < |shard|
      ensures forall p :: p in lists[s] <==> Shows(c, shard[s], p)
    {
      assert SegmentHonest(c, shard[s], lists[s], replies[s], size);
    }
    forall p ensures p in list <==> ShardShows(c, shard, p) { MergedShows(c, shard, lists, list, p); }
  }

  lemma MergedShows(c: Channel, shard: Shard, lists: seq<seq<Scored>>, list: seq<Scored>, p: Scored)
    requires |lists| == |shard| && K.IsMerged(lists, list)
    requires forall s, x :: 0 <= s < |shard| ==> (x in lists[s] <==> Shows(c, shard[s], x))
    ensures p in list <==> ShardShows(c, shard, p)
  {
    if p in list {
      var s :| 0 <= s < |lists| && p in lists[s];
      assert Shows(c, shard[s], p);
    }
    if ShardShows(c, shard, p) {
      var s :| 0 <= s < |shard| && Shows(c, shard[s], p);
      assert p in lists[s];
    }
  }

  ghost predicate DenseSound(q: Query, shard: Shard, guard: PointId -> real) {
    CopiesAgree(Dense(q), shard) && forall s :: 0 <= s < |shard| ==> DenseTrusted(q, shard[s], guard)
  }

  ghost predicate SparseSound(a: Arithmetic, width: nat, shard: Shard, stops: (nat, nat) -> bool) {
    CopiesAgree(Sparse(a, width), shard) && forall s :: 0 <= s < |shard| ==> SparseTrusted(shard[s], stops)
  }

  method DenseShard(q: Query, shard: Shard, guard: PointId -> real, refineBatch: nat, size: nat)
    returns (r: Result<L.Replies, Error>, ghost list: seq<Scored>)
    requires forall s :: 0 <= s < |shard| ==> Stored(shard[s])
    ensures refineBatch > 0 && size > 0 && DenseSound(q, shard, guard) ==>
      r.Ok? && ShardHonest(Dense(q), shard, list, r.value)
  {
    ghost var sound := refineBatch > 0 && size > 0 && DenseSound(q, shard, guard);
    var all: seq<L.Replies> := [];
    ghost var lists := [];
    list := [];
    for s := 0 to |shard|
      invariant |all| == |lists| == s
      invariant sound ==> forall t :: 0 <= t < s ==> SegmentHonest(Dense(q), shard[t], lists[t], all[t], size)
    {
      var replies, one := DenseSegment(q, shard[s], guard, refineBatch, size);
      if replies.Err? { return Err(replies.error), list; }
      all, lists := all + [replies.value], lists + [one];
    }
    r, list := MergeShard(Dense(q), shard, all, size, lists);
  }

  method SparseShard(a: Arithmetic, shard: Shard, width: nat, stops: (nat, nat) -> bool, size: nat)
    returns (r: Result<L.Replies, Error>, ghost list: seq<Scored>)
    requires Faithful(a) && forall s :: 0 <= s < |shard| ==> Stored(shard[s])
    ensures width > 0 && size > 0 && SparseSound(a, width, shard, stops) ==>
      r.Ok? && ShardHonest(Sparse(a, width), shard, list, r.value)
  {
    ghost var sound := width > 0 && size > 0 && SparseSound(a, width, shard, stops);
    var all: seq<L.Replies> := [];
    ghost var lists := [];
    list := [];
    for s := 0 to |shard|
      invariant |all| == |lists| == s
      invariant sound ==> forall t :: 0 <= t < s ==> SegmentHonest(Sparse(a, width), shard[t], lists[t], all[t], size)
    {
      var replies, one := SparseSegment(a, shard[s], width, stops, size);
      if replies.Err? { return Err(replies.error), list; }
      all, lists := all + [replies.value], lists + [one];
    }
    r, list := MergeShard(Sparse(a, width), shard, all, size, lists);
  }

  // ---------------------------------------------------------------------
  // The search

  ghost predicate AllShardsHonest(c: Channel, shards: seq<Shard>, lists: seq<seq<Scored>>, replies: seq<L.Replies>) {
    && |lists| == |replies| == |shards|
    && forall h :: 0 <= h < |shards| ==> ShardHonest(c, shards[h], lists[h], replies[h])
  }

  method DenseChannel(q: Query, shards: seq<Shard>, guard: PointId -> real, refineBatch: nat, size: nat)
    returns (r: Result<seq<L.Replies>, Error>, ghost lists: seq<seq<Scored>>)
    requires AllStored(shards)
    ensures r.Ok? ==> |r.value| == |shards|
    ensures refineBatch > 0 && size > 0 && (forall h :: 0 <= h < |shards| ==> DenseSound(q, shards[h], guard)) ==>
      r.Ok? && AllShardsHonest(Dense(q), shards, lists, r.value)
  {
    var all: seq<L.Replies> := [];
    lists := [];
    for h := 0 to |shards|
      invariant |all| == |lists| == h
      invariant refineBatch > 0 && size > 0 && (forall g :: 0 <= g < |shards| ==> DenseSound(q, shards[g], guard)) ==>
        forall g :: 0 <= g < h ==> ShardHonest(Dense(q), shards[g], lists[g], all[g])
    {
      var replies, list := DenseShard(q, shards[h], guard, refineBatch, size);
      if replies.Err? { return Err(replies.error), lists; }
      all, lists := all + [replies.value], lists + [list];
    }
    r := Ok(all);
  }

  method SparseChannel(a: Arithmetic, shards: seq<Shard>, width: nat, stops: (nat, nat) -> bool, size: nat)
    returns (r: Result<seq<L.Replies>, Error>, ghost lists: seq<seq<Scored>>)
    requires Faithful(a) && AllStored(shards)
    ensures r.Ok? ==> |r.value| == |shards|
    ensures width > 0 && size > 0 && (forall h :: 0 <= h < |shards| ==> SparseSound(a, width, shards[h], stops)) ==>
      r.Ok? && AllShardsHonest(Sparse(a, width), shards, lists, r.value)
  {
    var all: seq<L.Replies> := [];
    lists := [];
    for h := 0 to |shards|
      invariant |all| == |lists| == h
      invariant width > 0 && size > 0 && (forall g :: 0 <= g < |shards| ==> SparseSound(a, width, shards[g], stops)) ==>
        forall g :: 0 <= g < h ==> ShardHonest(Sparse(a, width), shards[g], lists[g], all[g])
    {
      var replies, list := SparseShard(a, shards[h], width, stops, size);
      if replies.Err? { return Err(replies.error), lists; }
      all, lists := all + [replies.value], lists + [list];
    }
    r := Ok(all);
  }

  // An identity that a shard shows is one of its external identities.
  lemma ShownIsExternal(c: Channel, s: Segment, p: Scored)
    requires Shows(c, s, p)
    ensures exists id :: id in s.external && s.external[id] == p.id
  {
  }

  lemma ShownApart(c: Channel, shards: seq<Shard>, g: nat, h: nat, p: Scored, q: Scored)
    requires Apart(shards) && g < h < |shards| && ShardShows(c, shards[g], p) && ShardShows(c, shards[h], q)
    ensures p.id != q.id
  {
    var s :| 0 <= s < |shards[g]| && Shows(c, shards[g][s], p);
    var t :| 0 <= t < |shards[h]| && Shows(c, shards[h][t], q);
    ShownIsExternal(c, shards[g][s], p);
    ShownIsExternal(c, shards[h][t], q);
    var x :| x in shards[g][s].external && shards[g][s].external[x] == p.id;
    var y :| y in shards[h][t].external && shards[h][t].external[y] == q.id;
  }

  lemma ShownOnce(c: Channel, shard: Shard, list: seq<Scored>, i: nat, j: nat)
    requires CopiesAgree(c, shard) && Ranked(list) && forall p :: p in list <==> ShardShows(c, shard, p)
    requires i < |list| && j < |list|
    ensures list[i].id == list[j].id ==> i == j
  {
    assert list[i] in list && list[j] in list;
    ShownSame(c, shard, list[i], list[j]);
    assert i < j ==> Precedes(list[i], list[j]);
    assert j < i ==> Precedes(list[j], list[i]);
  }

  lemma ShownSame(c: Channel, shard: Shard, p: Scored, q: Scored)
    requires CopiesAgree(c, shard) && ShardShows(c, shard, p) && ShardShows(c, shard, q)
    ensures p.id == q.id ==> p == q
  {
    var s :| 0 <= s < |shard| && Shows(c, shard[s], p);
    var t :| 0 <= t < |shard| && Shows(c, shard[t], q);
  }

  // The lists of the shards form a universe of the merge.
  lemma ListsAreUniverse(c: Channel, shards: seq<Shard>, lists: seq<seq<Scored>>, replies: seq<L.Replies>)
    requires Apart(shards) && AllShardsHonest(c, shards, lists, replies)
    requires forall h :: 0 <= h < |shards| ==> CopiesAgree(c, shards[h])
    ensures K.Universe(lists)
  {
    forall g, i, h, j | 0 <= g < |lists| && 0 <= h < |lists| && 0 <= i < |lists[g]| && 0 <= j < |lists[h]|
      ensures lists[g][i].id == lists[h][j].id ==> g == h && i == j
    {
      assert lists[g][i] in lists[g] && lists[h][j] in lists[h];
      if g < h { ShownApart(c, shards, g, h, lists[g][i], lists[h][j]); }
      else if h < g { ShownApart(c, shards, h, g, lists[h][j], lists[g][i]); }
      else { ShownOnce(c, shards[g], lists[g], i, j); }
    }
  }

  lemma MergedIsOrder(c: Channel, shards: seq<Shard>, lists: seq<seq<Scored>>, replies: seq<L.Replies>)
    returns (merged: seq<Scored>)
    requires Apart(shards) && AllShardsHonest(c, shards, lists, replies)
    requires forall h :: 0 <= h < |shards| ==> CopiesAgree(c, shards[h])
    ensures K.IsMerged(lists, merged) && IsOrder(c, shards, merged)
    ensures HonestAll(replies, lists, H.EXACT_FUSION_BATCH_SIZE)
  {
    ListsAreUniverse(c, shards, lists, replies);
    merged := MergeExists(lists);
    forall h, p | 0 <= h < |shards| ensures p in lists[h] <==> ShardShows(c, shards[h], p) {
      assert ShardHonest(c, shards[h], lists[h], replies[h]);
    }
  }

  // What the search relies on: identities of different shards are different, copies
  // inside a shard agree, norms are right, points are mapped, nothing stops it.
  ghost predicate Sound(a: Arithmetic, q: Query, width: nat, shards: seq<Shard>, guard: PointId -> real,
                        stops: (nat, nat) -> bool) {
    && Apart(shards)
    && forall h :: 0 <= h < |shards| ==> DenseSound(q, shards[h], guard) && SparseSound(a, width, shards[h], stops)
  }

  // What a request has to be.
  ghost predicate Accepts(shards: seq<Shard>, refineBatch: nat, size: nat, width: nat, rrfK: nat, weights: seq<real>) {
    && shards != [] && refineBatch > 0 && size > 0 && width > 0 && rrfK > 0
    && |weights| == 2 && forall w :: w in weights ==> w >= 0.0
  }

  // Over sound shards a search with an acceptable request returns the exact Top-K
  // of fusing the ranking of all eligible points by exact dense score with the
  // ranking of all visible points that surface by sparse score.
  method Search(a: Arithmetic, q: Query, shards: seq<Shard>, guard: PointId -> real, stops: (nat, nat) -> bool,
                refineBatch: nat, size: nat, width: nat, limit: nat, rrfK: nat, weights: seq<real>)
    returns (r: Result<Execution, Error>, ghost dense: seq<Scored>, ghost sparse: seq<Scored>)
    requires Faithful(a) && AllStored(shards)
    ensures r.Ok? ==> rrfK > 0 && |weights| == 2 && forall w :: w in weights ==> w >= 0.0
    ensures Sound(a, q, width, shards, guard, stops) && Accepts(shards, refineBatch, size, width, rrfK, weights) ==>
      && r.Ok? && IsOrder(Dense(q), shards, dense) && IsOrder(Sparse(a, width), shards, sparse)
      && IsTopK(Fusion(a, rrfK, weights), [Ids(dense), Ids(sparse)], limit, r.value.ids)
  {
    dense, sparse := [], [];
    var sparseReplies, sparseLists := SparseChannel(a, shards, width, stops, size);
    if sparseReplies.Err? { return Err(sparseReplies.error), dense, sparse; }
    var denseReplies, denseLists := DenseChannel(q, shards, guard, refineBatch, size);
    if denseReplies.Err? { return Err(denseReplies.error), dense, sparse; }
    if Sound(a, q, width, shards, guard, stops) && Accepts(shards, refineBatch, size, width, rrfK, weights) {
      dense := MergedIsOrder(Dense(q), shards, denseLists, denseReplies.value);
      sparse := MergedIsOrder(Sparse(a, width), shards, sparseLists, sparseReplies.value);
    }
    r := Fuse(a, denseReplies.value, sparseReplies.value, limit, rrfK, weights, denseLists, sparseLists, dense, sparse);
  }

  // Fuses the dense and the sparse channel.
  method Fuse(a: Arithmetic, denseReplies: seq<L.Replies>, sparseReplies: seq<L.Replies>, limit: nat, rrfK: nat,
              weights: seq<real>, ghost denseLists: seq<seq<Scored>>, ghost sparseLists: seq<seq<Scored>>,
              ghost dense: seq<Scored>, ghost sparse: seq<Scored>)
    returns (r: Result<Execution, Error>)
    requires Faithful(a)
    ensures r.Ok? ==> rrfK > 0 && |weights| == 2 && forall w :: w in weights ==> w >= 0.0
    ensures
      && rrfK > 0 && |weights| == 2 && (forall w :: w in weights ==> w >= 0.0)
      && denseReplies != [] && HonestAll(denseReplies, denseLists, 16) && K.IsMerged(denseLists, dense)
      && sparseReplies != [] && HonestAll(sparseReplies, sparseLists, 16) && K.IsMerged(sparseLists, sparse) ==>
        r.Ok? && IsTopK(Fusion(a, rrfK, weights), [Ids(dense), Ids(sparse)], limit, r.value.ids)
  {
    ghost var read, orders;
    r, read, orders := H.ExecuteHybrid(a, [denseReplies, sparseReplies], limit, rrfK, weights,
                                       [denseLists, sparseLists], [dense, sparse]);
    assert H.Orders([dense, sparse]) == [Ids(dense), Ids(sparse)];
  }

  // ---------------------------------------------------------------------
  // Merged orders exist

  lemma LastList(lists: seq<seq<Scored>>, n: nat)
    requires K.Universe(lists) && n <= |lists|
    ensures K.Universe(lists[..n])
  {
  }

  lemma {:induction false} MergeExists(lists: seq<seq<Scored>>) returns (merged: seq<Scored>)
    requires K.Universe(lists)
    ensures K.IsMerged(lists, merged)
    decreases |lists|
  {
    if lists == [] {
      merged := [];
    } else {
      var n := |lists| - 1;
      LastList(lists, n);
      var before := MergeExists(lists[..n]);
      AppendList(lists, n, before);
      merged := RankSort(before + lists[n]);
      forall x ensures x in merged <==> exists s :: 0 <= s < |lists| && x in lists[s] {
        InSomeList(lists, n, x);
      }
    }
  }

  lemma InSomeList(lists: seq<seq<Scored>>, n: nat, x: Scored)
    requires n + 1 == |lists|
    ensures (exists s :: 0 <= s < |lists| && x in lists[s]) <==>
      (exists s :: 0 <= s < |lists[..n]| && x in lists[..n][s]) || x in lists[n]
  {
    if s :| 0 <= s < |lists[..n]| && x in lists[..n][s] { assert x in lists[s]; }
    if s :| 0 <= s < |lists| && x in lists[s] { assert s < n ==> x in lists[..n][s]; }
  }

  lemma AppendList(lists: seq<seq<Scored>>, n: nat, before: seq<Scored>)
    requires K.Universe(lists) && n + 1 == |lists| && K.IsMerged(lists[..n], before)
    ensures Distinct(before + lists[n])
  {
    RankedDistinct(before);
    RankedDistinct(lists[n]);
    forall i, j | 0 <= i < |before| && 0 <= j < |lists[n]| ensures before[i] != lists[n][j] {
      assert before[i] in before;
      var s :| 0 <= s < |lists[..n]| && before[i] in lists[..n][s];
      var k :| 0 <= k < |lists[s]| && lists[s][k] == before[i];
      assert lists[s][k].id == lists[n][j].id ==> s == n;
    }
  }
}
