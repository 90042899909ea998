// Fail-closed k-way merge of exact score streams into one channel order.
//
// Source: lib/segment/src/index/exact_rank_stream.rs
module KWayMerge {
  import opened Common
  import opened RankOrder

  datatype ScoreBatch = ScoreBatch(points: seq<Scored>, exhausted: bool)

  // A local stream: the replies it will still give, the points received but not
  // consumed, and whether it has reported its end.
  datatype ScoreSource = ScoreSource(replies: seq<Result<ScoreBatch, Error>>, buffer: seq<Scored>, ended: bool)

  // No later element precedes an earlier one.
  ghost predicate Descending(xs: seq<Scored>) {
    forall i, j :: 0 <= i < j < |xs| ==> !Precedes(xs[j], xs[i])
  }

  // Validates a batch against the point consumed before it and against every
  // identity already emitted.
  method BatchFits(previous: Option<Scored>, seen: set<PointId>, points: seq<Scored>) returns (fits: bool)
    ensures fits <==> Fits(previous, seen, points)
  {
    var last, ids: set<PointId> := previous, {};
    for i := 0 to |points|
      invariant forall id :: id in ids <==> exists j :: 0 <= j < i && points[j].id == id
      invariant last == if i == 0 then previous else Some(points[i - 1])
      invariant forall j :: 0 <= j < i ==> points[j].id !in seen
      invariant forall j, k :: 0 <= j < k < i ==> points[j].id != points[k].id
      invariant forall j :: 1 <= j < i ==> !Precedes(points[j], points[j - 1])
      invariant i > 0 && previous.Some? ==> !Precedes(points[0], previous.value)
    {
      var point := points[i];
      if last.Some? && Precedes(point, last.value) {
        return false;
      }
      if point.id in seen || point.id in ids {
        return false;
      }
      ids := ids + {point.id};
      last := Some(point);
    }
    fits := true;
  }

  ghost predicate Fits(previous: Option<Scored>, seen: set<PointId>, points: seq<Scored>) {
    && (forall j :: 0 <= j < |points| ==> points[j].id !in seen)
    && (forall j, k :: 0 <= j < k < |points| ==> points[j].id != points[k].id)
    && (forall j :: 1 <= j < |points| ==> !Precedes(points[j], points[j - 1]))
    && (points != [] && previous.Some? ==> !Precedes(points[0], previous.value))
  }

  // ---------------------------------------------------------------------
  // The merge as a ledger: what every source delivered, how much of it was
  // taken, the head waiting of each source, and what has been emitted.

  datatype Ledger = Ledger(delivered: seq<seq<Scored>>, taken: seq<nat>,
                           pending: seq<Option<Scored>>, emitted: seq<Scored>)

  ghost predicate WellFormed(m: Ledger) {
    && |m.delivered| == |m.taken| == |m.pending|
    && forall s :: 0 <= s < |m.taken| ==>
         && m.taken[s] <= |m.delivered[s]|
         && (m.pending[s].Some? ==> m.taken[s] > 0 && m.pending[s].value == m.delivered[s][m.taken[s] - 1])
  }

  // How many points of source s have been emitted.
  ghost function Count(m: Ledger, s: nat): nat
    requires WellFormed(m) && s < |m.taken|
  {
    if m.pending[s].Some? then m.taken[s] - 1 else m.taken[s]
  }

  ghost predicate Emitted(m: Ledger, x: Scored)
    requires WellFormed(m)
  {
    exists s :: 0 <= s < |m.taken| && x in m.delivered[s][..Count(m, s)]
  }

  ghost predicate Consistent(m: Ledger) {
    && WellFormed(m)
    && (forall s :: 0 <= s < |m.delivered| ==> Descending(m.delivered[s]))
    && (forall x :: x in m.emitted <==> Emitted(m, x))
    && Ranked(m.emitted)
    && (forall i, j :: 0 <= i < j < |m.emitted| ==> m.emitted[i].id != m.emitted[j].id)
    && (forall e, s, i :: e in m.emitted && 0 <= s < |m.taken| && Count(m, s) <= i < |m.delivered[s]| ==>
          !Precedes(m.delivered[s][i], e))
  }

  lemma {:induction false} AdjacentIsDescending(xs: seq<Scored>, n: nat)
    requires n <= |xs| && forall j :: 1 <= j < |xs| ==> !Precedes(xs[j], xs[j - 1])
    ensures Descending(xs[..n])
    decreases n
  {
    if n > 1 {
      AdjacentIsDescending(xs, n - 1);
      forall i | 0 <= i < n - 1
        ensures !Precedes(xs[n - 1], xs[i])
      {
        assert i < n - 2 ==> !Precedes(xs[..n - 1][n - 2], xs[..n - 1][i]);
      }
    }
  }

  lemma DescendingConcat(xs: seq<Scored>, ys: seq<Scored>)
    requires Descending(xs) && Descending(ys)
    requires xs != [] && ys != [] ==> !Precedes(ys[0], xs[|xs| - 1])
    ensures Descending(xs + ys)
  {
    var zs := xs + ys;
    forall i, j | 0 <= i < |xs| && 0 <= j < |ys|
      ensures !Precedes(ys[j], xs[i])
    {
      assert i < |xs| - 1 ==> !Precedes(xs[|xs| - 1], xs[i]);
      assert 0 < j ==> !Precedes(ys[j], ys[0]);
    }
  }

  // A source that has nothing waiting delivers a batch that fits.
  lemma Deliver(m: Ledger, s: nat, previous: Option<Scored>, seen: set<PointId>, points: seq<Scored>)
    requires Consistent(m) && s < |m.taken|
    requires m.pending[s].None? && m.taken[s] == |m.delivered[s]|
    requires previous == if m.delivered[s] == [] then None else Some(m.delivered[s][|m.delivered[s]| - 1])
    requires Fits(previous, seen, points)
    requires m.emitted != [] ==> previous == Some(m.emitted[|m.emitted| - 1])
    ensures Consistent(m.(delivered := m.delivered[s := m.delivered[s] + points]))
  {
    var old_points := m.delivered[s];
    var n := m.(delivered := m.delivered[s := old_points + points]);
    AdjacentIsDescending(points, |points|);
    assert points[..|points|] == points;
    DescendingConcat(old_points, points);
    forall t | 0 <= t < |m.taken|
      ensures n.delivered[t][..Count(n, t)] == m.delivered[t][..Count(m, t)]
    {
    }
    assert forall x :: Emitted(n, x) <==> Emitted(m, x);
    forall e, t, i | e in n.emitted && 0 <= t < |n.taken| && Count(n, t) <= i < |n.delivered[t]|
      ensures !Precedes(n.delivered[t][i], e)
    {
      if t == s {
        var k := i - |old_points|;
        assert n.delivered[s][i] == points[k];
        LaterThanEmitted(m.emitted, points, k, e);
      }
    }
  }

  lemma LaterThanEmitted(emitted: seq<Scored>, points: seq<Scored>, k: nat, e: Scored)
    requires Ranked(emitted) && Descending(points) && k < |points| && e in emitted
    requires !Precedes(points[0], emitted[|emitted| - 1])
    ensures !Precedes(points[k], e)
  {
    var last := |emitted| - 1;
    assert 0 < k ==> !Precedes(points[k], points[0]);
    var j :| 0 <= j < |emitted| && emitted[j] == e;
    assert j < last ==> Precedes(emitted[j], emitted[last]);
  }

  // The next delivered point of an idle source becomes its waiting head.
  lemma TakeHead(m: Ledger, s: nat)
    requires Consistent(m) && s < |m.taken| && m.pending[s].None? && m.taken[s] < |m.delivered[s]|
    ensures Consistent(m.(taken := m.taken[s := m.taken[s] + 1],
                          pending := m.pending[s := Some(m.delivered[s][m.taken[s]])]))
  {
    var n := m.(taken := m.taken[s := m.taken[s] + 1], pending := m.pending[s := Some(m.delivered[s][m.taken[s]])]);
    assert forall t :: 0 <= t < |m.taken| ==> Count(n, t) == Count(m, t);
    assert forall x :: Emitted(n, x) <==> Emitted(m, x);
  }

  ghost predicate Best(m: Ledger, b: nat)
    requires WellFormed(m)
  {
    && b < |m.pending| && m.pending[b].Some?
    && forall s :: 0 <= s < |m.pending| && m.pending[s].Some? ==> !Precedes(m.pending[s].value, m.pending[b].value)
  }

  // Every source either has a head waiting or has delivered all it holds.
  ghost predicate Loaded(m: Ledger)
    requires WellFormed(m)
  {
    forall s :: 0 <= s < |m.taken| && m.pending[s].None? ==> m.taken[s] == |m.delivered[s]|
  }

  // With every source loaded, the best head is the next point of the merged order.
  lemma Emit(m: Ledger, b: nat)
    requires Consistent(m) && Loaded(m) && Best(m, b)
    requires forall e :: e in m.emitted ==> e.id != m.pending[b].value.id
    ensures Consistent(m.(pending := m.pending[b := None], emitted := m.emitted + [m.pending[b].value]))
  {
    var p := m.pending[b].value;
    var n := m.(pending := m.pending[b := None], emitted := m.emitted + [p]);
    assert m.delivered[b][..Count(n, b)] == m.delivered[b][..Count(m, b)] + [p];
    assert forall t :: 0 <= t < |m.taken| && t != b ==> Count(n, t) == Count(m, t);
    forall x ensures Emitted(n, x) <==> Emitted(m, x) || x == p { EmitMembers(m, b, x); }
    forall i | 0 <= i < |m.emitted|
      ensures Precedes(m.emitted[i], p)
    {
      assert m.emitted[i] in m.emitted;
      assert !Precedes(m.delivered[b][Count(m, b)], m.emitted[i]);
    }
    forall e, t, i | e in n.emitted && 0 <= t < |n.taken| && Count(n, t) <= i < |n.delivered[t]|
      ensures !Precedes(n.delivered[t][i], e)
    {
      if e == p { HeadIsBest(m, b, t, i); } else { assert e in m.emitted; }
    }
  }

  lemma EmitMembers(m: Ledger, b: nat, x: Scored)
    requires WellFormed(m) && b < |m.pending| && m.pending[b].Some?
    ensures
      var p := m.pending[b].value;
      var n := m.(pending := m.pending[b := None], emitted := m.emitted + [p]);
      Emitted(n, x) <==> Emitted(m, x) || x == p
  {
    var p := m.pending[b].value;
    var n := m.(pending := m.pending[b := None], emitted := m.emitted + [p]);
    assert m.delivered[b][..Count(n, b)] == m.delivered[b][..Count(m, b)] + [p];
    assert forall t :: 0 <= t < |m.taken| && t != b ==> Count(n, t) == Count(m, t);
    if Emitted(m, x) {
      var t :| 0 <= t < |m.taken| && x in m.delivered[t][..Count(m, t)];
      assert x in m.delivered[t][..Count(n, t)];
    }
    if x == p { assert x in m.delivered[b][..Count(n, b)]; }
  }

  // Nothing that is left precedes the best head.
  lemma HeadIsBest(m: Ledger, b: nat, t: nat, i: nat)
    requires Consistent(m) && Loaded(m) && Best(m, b) && t < |m.taken|
    requires (if t == b then m.taken[b] else Count(m, t)) <= i < |m.delivered[t]|
    ensures !Precedes(m.delivered[t][i], m.pending[b].value)
  {
    if t == b {
      assert !Precedes(m.delivered[b][i], m.delivered[b][m.taken[b] - 1]);
    } else {
      assert m.pending[t].Some?;
      assert i > m.taken[t] - 1 ==> !Precedes(m.delivered[t][i], m.delivered[t][m.taken[t] - 1]);
    }
  }

  // ---------------------------------------------------------------------
  // Sources that deliver fixed lists

  ghost predicate HonestScores(replies: seq<Result<ScoreBatch, Error>>, start: nat, list: seq<Scored>, size: nat)
    decreases |replies|
  {
    && replies != [] && replies[0].Ok?
    && var batch := replies[0].value;
       var end := start + |batch.points|;
       && end <= |list| && batch.points == list[start..end] && |batch.points| <= size
       && (batch.points == [] ==> batch.exhausted)
       && (if batch.exhausted then end == |list| else HonestScores(replies[1..], end, list, size))
  }

  // Replies that follow the list, to its end or until a failure.
  ghost predicate Partial(replies: seq<Result<ScoreBatch, Error>>, start: nat, list: seq<Scored>, size: nat)
    decreases |replies|
  {
    && replies != []
    && if replies[0].Err? then |replies| == 1 else
       var batch := replies[0].value;
       var end := start + |batch.points|;
       && end <= |list| && batch.points == list[start..end] && |batch.points| <= size
       && (batch.points == [] ==> batch.exhausted)
       && (if batch.exhausted then end == |list| else Partial(replies[1..], end, list, size))
  }

  function Last(replies: seq<Result<ScoreBatch, Error>>): Result<ScoreBatch, Error>
    requires replies != []
  {
    replies[|replies| - 1]
  }

  // If the last is no failure they are honest.
  lemma {:induction false} PartialIsHonest(replies: seq<Result<ScoreBatch, Error>>, start: nat, list: seq<Scored>,
                                           size: nat)
    requires Partial(replies, start, list, size) && Last(replies).Ok?
    ensures HonestScores(replies, start, list, size)
    decreases |replies|
  {
    var batch := replies[0].value;
    if !batch.exhausted { PartialIsHonest(replies[1..], start + |batch.points|, list, size); }
  }

  ghost predicate HonestScoreSource(source: ScoreSource, delivered: seq<Scored>, list: seq<Scored>, size: nat) {
    && delivered <= list
    && (if source.ended then delivered == list else HonestScores(source.replies, |delivered|, list, size))
  }

  // Ranked local lists over disjoint identities.
  ghost predicate Universe(lists: seq<seq<Scored>>) {
    && (forall s :: 0 <= s < |lists| ==> Ranked(lists[s]))
    && forall s, i, t, j ::
         0 <= s < |lists| && 0 <= t < |lists| && 0 <= i < |lists[s]| && 0 <= j < |lists[t]| ==>
           lists[s][i].id == lists[t][j].id ==> s == t && i == j
  }

  // The channel order the merge has to restore.
  ghost predicate IsMerged(lists: seq<seq<Scored>>, merged: seq<Scored>) {
    Ranked(merged) && forall x :: x in merged <==> exists s :: 0 <= s < |lists| && x in lists[s]
  }

  ghost predicate Follows(m: Ledger, lists: seq<seq<Scored>>)
    requires WellFormed(m)
  {
    |lists| == |m.delivered| && forall s :: 0 <= s < |lists| ==> m.delivered[s] <= lists[s]
  }

  // What a source of an honest merge is about to deliver always fits.
  lemma HonestFits(m: Ledger, lists: seq<seq<Scored>>, s: nat, previous: Option<Scored>, seen: set<PointId>, end: nat)
    requires Consistent(m) && Universe(lists) && Follows(m, lists) && s < |lists|
    requires |m.delivered[s]| <= end <= |lists[s]|
    requires previous == if m.delivered[s] == [] then None else Some(m.delivered[s][|m.delivered[s]| - 1])
    requires forall id :: id in seen <==> exists e :: e in m.emitted && e.id == id
    ensures Fits(previous, seen, lists[s][|m.delivered[s]|..end])
  {
    var start := |m.delivered[s]|;
    var points := lists[s][start..end];
    forall j | 0 <= j < |points|
      ensures points[j].id !in seen
    {
      assert points[j] == lists[s][start + j];
      forall e | e in m.emitted
        ensures e.id != points[j].id
      {
        EmittedPosition(m, lists, e, s, start + j);
      }
    }
    assert forall j :: 0 <= j < |points| ==> points[j] == lists[s][start + j];
  }

  lemma CountedIsEmitted(m: Ledger, lists: seq<seq<Scored>>, s: nat, i: nat)
    requires Consistent(m) && Follows(m, lists) && s < |lists| && i < |lists[s]|
    ensures i < Count(m, s) ==> lists[s][i] in m.emitted
  {
    if i < Count(m, s) {
      assert m.delivered[s][..Count(m, s)][i] == lists[s][i];
      assert Emitted(m, lists[s][i]);
    }
  }

  // An emitted point is not the point at a position not yet emitted.
  lemma EmittedPosition(m: Ledger, lists: seq<seq<Scored>>, e: Scored, s: nat, i: nat)
    requires Consistent(m) && Universe(lists) && Follows(m, lists) && e in m.emitted
    requires s < |lists| && Count(m, s) <= i < |lists[s]|
    ensures e.id != lists[s][i].id
  {
    assert Emitted(m, e);
    var t :| 0 <= t < |m.taken| && e in m.delivered[t][..Count(m, t)];
    var k :| 0 <= k < Count(m, t) && m.delivered[t][k] == e;
    assert lists[t][k] == e;
  }

  // Every source has a head waiting, has given its whole list, or has just had
  // its head emitted.
  ghost predicate Covered(m: Ledger, lists: seq<seq<Scored>>)
    requires WellFormed(m) && |lists| == |m.taken|
  {
    forall s :: 0 <= s < |lists| ==>
      || m.pending[s].Some?
      || (m.taken[s] == |lists[s]|)
      || (m.taken[s] > 0 && m.emitted != [] && m.delivered[s][m.taken[s] - 1] == m.emitted[|m.emitted| - 1])
  }

  // What has been emitted is the beginning of the merged order.
  lemma EmittedIsPrefix(m: Ledger, lists: seq<seq<Scored>>, merged: seq<Scored>)
    requires Consistent(m) && Universe(lists) && Follows(m, lists) && Covered(m, lists)
    requires IsMerged(lists, merged)
    ensures m.emitted <= merged
    ensures (forall s :: 0 <= s < |lists| ==> Count(m, s) == |lists[s]|) ==> m.emitted == merged
  {
    forall e | e in m.emitted ensures e in merged { EmittedIsListed(m, lists, e); }
    forall e, x | e in m.emitted && x in merged && x !in m.emitted ensures Precedes(e, x) {
      LeftIsLater(m, lists, merged, e, x);
    }
    RankedSegment(m.emitted, merged);
    if forall s :: 0 <= s < |lists| ==> Count(m, s) == |lists[s]| {
      forall x | x in merged ensures x in m.emitted { CountedIsOut(m, lists, merged, x); }
      RankedUnique(m.emitted, merged);
    }
  }

  lemma EmittedIsListed(m: Ledger, lists: seq<seq<Scored>>, e: Scored)
    requires Consistent(m) && Follows(m, lists) && e in m.emitted
    ensures exists s :: 0 <= s < |lists| && e in lists[s]
  {
    assert Emitted(m, e);
    var t :| 0 <= t < |m.taken| && e in m.delivered[t][..Count(m, t)];
    var k :| 0 <= k < Count(m, t) && m.delivered[t][k] == e;
    assert lists[t][k] == e;
  }

  lemma LeftIsLater(m: Ledger, lists: seq<seq<Scored>>, merged: seq<Scored>, e: Scored, x: Scored)
    requires Consistent(m) && Universe(lists) && Follows(m, lists) && Covered(m, lists)
    requires IsMerged(lists, merged) && e in m.emitted && x in merged && x !in m.emitted
    ensures Precedes(e, x)
  {
    var s :| 0 <= s < |lists| && x in lists[s];
    var i :| 0 <= i < |lists[s]| && lists[s][i] == x;
    CountedIsEmitted(m, lists, s, i);
    EmittedPosition(m, lists, e, s, i);
    NotEmittedIsLater(m, lists, e, s, i);
  }

  lemma CountedIsOut(m: Ledger, lists: seq<seq<Scored>>, merged: seq<Scored>, x: Scored)
    requires Consistent(m) && Follows(m, lists) && IsMerged(lists, merged) && x in merged
    requires forall s :: 0 <= s < |lists| ==> Count(m, s) == |lists[s]|
    ensures x in m.emitted
  {
    var s :| 0 <= s < |lists| && x in lists[s];
    assert m.delivered[s][..Count(m, s)] == lists[s];
    assert Emitted(m, x);
  }

  lemma NotEmittedIsLater(m: Ledger, lists: seq<seq<Scored>>, e: Scored, s: nat, i: nat)
    requires Consistent(m) && Universe(lists) && Follows(m, lists) && Covered(m, lists)
    requires e in m.emitted && s < |lists| && Count(m, s) <= i < |lists[s]|
    ensures !Precedes(lists[s][i], e)
  {
    var d, c := m.delivered[s], Count(m, s);
    if c < |d| {
      assert !Precedes(d[c], e);
      assert d[c] == lists[s][c];
      assert c < i ==> Precedes(lists[s][c], lists[s][i]);
    } else {
      var last := |m.emitted| - 1;
      assert d[c - 1] == lists[s][c - 1];
      assert Precedes(lists[s][c - 1], lists[s][i]);
      var j :| 0 <= j < |m.emitted| && m.emitted[j] == e;
      assert j < last ==> Precedes(m.emitted[j], m.emitted[last]);
    }
  }
}
