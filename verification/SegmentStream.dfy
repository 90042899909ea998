// A segment's stream of external identities: points arrive ranked by score and
// internal offset, hidden ones are skipped, and points with equal scores are
// put in the order of their external identities.
//
// Source: lib/segment/src/segment/read_view/search.rs
// (advance_exact_dense_segment_state, advance_exact_sparse_rank_state)
module SegmentStream {
  import opened Common
  import opened RankOrder

  // Scores do not rise, and every identity occurs once.
  ghost predicate Falling(xs: seq<Scored>) {
    && (forall i, j :: 0 <= i < j < |xs| ==> xs[i].score >= xs[j].score)
    && (forall i, j :: 0 <= i < j < |xs| ==> xs[i].id != xs[j].id)
  }

  lemma FallingDistinct(xs: seq<Scored>)
    requires Falling(xs)
    ensures Distinct(xs)
  {
    assert forall i, j :: 0 <= i < j < |xs| ==> xs[i].id != xs[j].id;
  }

  lemma FallingParts(xs: seq<Scored>, k: nat)
    requires Falling(xs) && k <= |xs|
    ensures Falling(xs[..k]) && Falling(xs[k..])
  {
  }

  // The visible points of an internal stretch, under their external identities.
  function Shown(xs: seq<Scored>, external: map<PointId, PointId>, visible: set<PointId>): seq<Scored> {
    if xs == [] then [] else
    if xs[0].id in visible && xs[0].id in external
    then [Scored(external[xs[0].id], xs[0].score)] + Shown(xs[1..], external, visible)
    else Shown(xs[1..], external, visible)
  }

  ghost predicate Injective(external: map<PointId, PointId>) {
    forall x, y :: x in external && y in external && external[x] == external[y] ==> x == y
  }

  // Where a shown point comes from.
  ghost predicate Stems(xs: seq<Scored>, external: map<PointId, PointId>, visible: set<PointId>, p: Scored) {
    exists i :: 0 <= i < |xs| && xs[i].id in visible && xs[i].id in external
      && p == Scored(external[xs[i].id], xs[i].score)
  }

  lemma {:induction false} ShownStems(xs: seq<Scored>, external: map<PointId, PointId>, visible: set<PointId>)
    ensures forall p :: p in Shown(xs, external, visible) <==> Stems(xs, external, visible, p)
    decreases |xs|
  {
    if xs != [] {
      var rest := xs[1..];
      ShownStems(rest, external, visible);
      forall p ensures Stems(xs, external, visible, p) <==>
        || Stems(rest, external, visible, p)
        || (xs[0].id in visible && xs[0].id in external && p == Scored(external[xs[0].id], xs[0].score))
      {
        if Stems(rest, external, visible, p) {
          var i :| 0 <= i < |rest| && rest[i].id in visible && rest[i].id in external
            && p == Scored(external[rest[i].id], rest[i].score);
          assert xs[i + 1] == rest[i];
        }
        if Stems(xs, external, visible, p) {
          var i :| 0 <= i < |xs| && xs[i].id in visible && xs[i].id in external
            && p == Scored(external[xs[i].id], xs[i].score);
          if i > 0 { assert rest[i - 1] == xs[i]; }
        }
      }
    }
  }

  lemma {:induction false} ShownFalls(xs: seq<Scored>, external: map<PointId, PointId>, visible: set<PointId>)
    requires Falling(xs) && Injective(external)
    ensures Falling(Shown(xs, external, visible))
    decreases |xs|
  {
    if xs != [] {
      var rest := xs[1..];
      ShownFalls(rest, external, visible);
      ShownStems(rest, external, visible);
      var shown := Shown(rest, external, visible);
      if xs[0].id in visible && xs[0].id in external {
        forall k | 0 <= k < |shown| ensures xs[0].score >= shown[k].score && external[xs[0].id] != shown[k].id {
          assert Stems(rest, external, visible, shown[k]);
          var i :| 0 <= i < |rest| && rest[i].id in visible && rest[i].id in external
            && shown[k] == Scored(external[rest[i].id], rest[i].score);
          assert rest[i] == xs[i + 1];
        }
      }
    }
  }

  // The external ranking of what is still to come.
  ghost function Ranking(xs: seq<Scored>): (ys: seq<Scored>)
    requires Falling(xs)
    ensures Ranked(ys) && forall y :: y in ys <==> y in xs
  {
    FallingDistinct(xs);
    RankSort(xs)
  }

  // The leading points of equal score come first in the ranking.
  lemma GroupComesFirst(xs: seq<Scored>, k: nat)
    requires Falling(xs) && k <= |xs|
    requires forall i, j :: 0 <= i < k <= j < |xs| ==> xs[i].score > xs[j].score
    ensures Falling(xs[..k]) && Falling(xs[k..]) && Ranking(xs) == Ranking(xs[..k]) + Ranking(xs[k..])
  {
    FallingParts(xs, k);
    var a, b := Ranking(xs[..k]), Ranking(xs[k..]);
    forall x, y | x in a && y in b ensures Precedes(x, y) {
      var i :| 0 <= i < k && xs[..k][i] == x;
      var j :| 0 <= j < |xs[k..]| && xs[k..][j] == y;
      assert xs[i] == x && xs[k + j] == y;
    }
    assert xs == xs[..k] + xs[k..];
    RankedConcat(a, b);
    RankedUnique(Ranking(xs), a + b);
  }

  lemma RankedConcat(a: seq<Scored>, b: seq<Scored>)
    requires Ranked(a) && Ranked(b) && forall x, y :: x in a && y in b ==> Precedes(x, y)
    ensures Ranked(a + b)
  {
  }

  // What was emitted, what is buffered and what is ahead make up the ranking.
  ghost predicate Joins(emitted: seq<Scored>, buffer: seq<Scored>, ahead: seq<Scored>, whole: seq<Scored>) {
    Falling(ahead) && emitted + buffer + Ranking(ahead) == whole
  }

  class SegmentRankState {
    const external: map<PointId, PointId>
    const visible: set<PointId>
    // What the internal stream has not delivered yet, and the failure that may
    // come after it.
    var internal: seq<Scored>
    const failure: Option<Error>
    var buffer: seq<Scored>
    var lookahead: Option<Scored>
    ghost const whole: seq<Scored>
    ghost var emitted: seq<Scored>

    constructor (internal: seq<Scored>, failure: Option<Error>, external: map<PointId, PointId>, visible: set<PointId>)
      requires Falling(internal) && Injective(external)
      ensures Valid() && emitted == [] && Ranked(whole)
      ensures this.internal == internal && this.external == external && this.visible == visible
      ensures this.failure == failure
      ensures forall p :: p in whole <==> Stems(internal, external, visible, p)
    {
      ShownFalls(internal, external, visible);
      ShownStems(internal, external, visible);
      this.internal, this.failure, this.external, this.visible := internal, failure, external, visible;
      this.buffer, this.lookahead, this.emitted := [], None, [];
      this.whole := Ranking(Shown(internal, external, visible));
      new;
      assert Ahead() == Shown(internal, external, visible);
    }

    // The shown points not buffered yet.
    ghost function Ahead(): seq<Scored>
      reads this
    {
      (if lookahead.Some? then [lookahead.value] else []) + Shown(internal, external, visible)
    }

    ghost predicate Valid()
      reads this
    {
      Joins(emitted, buffer, Ahead(), whole)
    }

    // A point that should be shown has no external identity.
    ghost predicate Unmapped(xs: seq<Scored>) {
      exists i :: 0 <= i < |xs| && xs[i].id in visible && xs[i].id !in external
    }

    // What an error can come from.
    ghost predicate Breaks(xs: seq<Scored>, error: Error) {
      failure == Some(error) || (error == InconsistentStorage && Unmapped(xs))
    }

    lemma SuffixUnmapped(xs: seq<Scored>, i: nat)
      requires i <= |xs|
      ensures Unmapped(xs[i..]) ==> Unmapped(xs)
    {
      if Unmapped(xs[i..]) {
        var j :| 0 <= j < |xs[i..]| && xs[i..][j].id in visible && xs[i..][j].id !in external;
        assert xs[i + j] == xs[i..][j];
      }
    }

    lemma RestUnmapped(xs: seq<Scored>)
      requires xs != [] && (xs[0].id in visible ==> xs[0].id in external)
      ensures Unmapped(xs) ==> Unmapped(xs[1..])
    {
      if Unmapped(xs) {
        var j :| 0 <= j < |xs| && xs[j].id in visible && xs[j].id !in external;
        assert xs[1..][j - 1] == xs[j];
      }
    }

    // The next visible point.
    method PullVisible() returns (r: Result<Option<Scored>, Error>)
      modifies this`internal
      ensures r.Ok? && r.value.Some? ==>
        Shown(old(internal), external, visible) == [r.value.value] + Shown(internal, external, visible)
      ensures r.Ok? && r.value.Some? ==> |internal| < |old(internal)|
      ensures r.Ok? && r.value.None? ==>
        internal == [] && Shown(old(internal), external, visible) == [] && failure.None?
      ensures r.Err? ==> Breaks(old(internal), r.error)
      ensures Unmapped(internal) ==> Unmapped(old(internal))
      ensures r.Ok? && Unmapped(old(internal)) ==> Unmapped(internal)
    {
      ghost var i := 0;
      while internal != []
        invariant i <= |old(internal)| && internal == old(internal)[i..]
        invariant Shown(internal, external, visible) == Shown(old(internal), external, visible)
        invariant Unmapped(old(internal)) ==> Unmapped(internal)
        decreases |internal|
      {
        var point := internal[0];
        assert point == old(internal)[i];
        internal := internal[1..];
        i := i + 1;
        SuffixUnmapped(old(internal), i);
        if point.id in visible && point.id !in external { return Err(InconsistentStorage); }
        RestUnmapped(old(internal)[i - 1..]);
        assert old(internal)[i - 1..][1..] == internal;
        if point.id in visible {
          return Ok(Some(Scored(external[point.id], point.score)));
        }
      }
      r := if failure.Some? then Err(failure.value) else Ok(None);
    }

    // Collects the points that share the next score and sorts them.
    method NextGroup() returns (r: Result<bool, Error>)
      requires Valid() && buffer == []
      modifies this`internal, this`lookahead, this`buffer
      ensures r.Ok? ==> Valid()
      ensures r.Ok? && r.value ==> buffer != []
      ensures r.Ok? && !r.value ==> buffer == [] && emitted == whole && failure.None? && internal == []
      ensures r.Err? ==> Breaks(old(internal), r.error)
      ensures Unmapped(internal) ==> Unmapped(old(internal))
      ensures r.Ok? && Unmapped(old(internal)) ==> Unmapped(internal)
    {
      ghost var xs := Ahead();
      var first := lookahead;
      if first.None? {
        var pulled := PullVisible();
        if pulled.Err? { return Err(pulled.error); }
        if pulled.value.None? {
          assert xs == [];
          return Ok(false);
        }
        first := pulled.value;
      }
      lookahead := None;
      r := FillGroup(first.value, xs);
    }

    method FillGroup(first: Scored, ghost xs: seq<Scored>) returns (r: Result<bool, Error>)
      requires lookahead.None? && buffer == [] && Joins(emitted, [], xs, whole)
      requires xs == [first] + Shown(internal, external, visible)
      modifies this`internal, this`lookahead, this`buffer
      ensures r.Ok? ==> r.value && Valid() && buffer != []
      ensures r.Err? ==> Breaks(old(internal), r.error)
      ensures Unmapped(internal) ==> Unmapped(old(internal))
      ensures r.Ok? && Unmapped(old(internal)) ==> Unmapped(internal)
    {
      var group := CollectGroup(first, xs);
      if group.Err? { return Err(group.error); }
      ghost var ahead := Ahead();
      assert ahead != [] ==> ahead[0].score != group.value[0].score;
      GroupJoins(emitted, xs, group.value, ahead, whole);
      Sort(group.value);
      r := Ok(true);
    }

    method Sort(group: seq<Scored>)
      requires Distinct(group)
      modifies this`buffer
      ensures buffer == RankSort(group)
    {
      buffer := RankSort(group);
    }

    method CollectGroup(first: Scored, ghost xs: seq<Scored>) returns (r: Result<seq<Scored>, Error>)
      requires lookahead.None? && xs == [first] + Shown(internal, external, visible)
      modifies this`internal, this`lookahead
      ensures r.Ok? ==> r.value != [] && xs == r.value + Ahead()
      ensures r.Ok? ==> forall i :: 0 <= i < |r.value| ==> r.value[i].score == first.score
      ensures r.Ok? && lookahead.Some? ==> lookahead.value.score != first.score
      ensures r.Ok? && lookahead.None? ==> Ahead() == []
      ensures r.Err? ==> Breaks(old(internal), r.error)
      ensures Unmapped(internal) ==> Unmapped(old(internal))
      ensures r.Ok? && Unmapped(old(internal)) ==> Unmapped(internal)
    {
      var group := [first];
      while true
        invariant group != [] && lookahead.None? && xs == group + Shown(internal, external, visible)
        invariant forall i :: 0 <= i < |group| ==> group[i].score == first.score
        invariant Unmapped(internal) <==> Unmapped(old(internal))
        decreases |internal|
      {
        var pulled := PullVisible();
        if pulled.Err? { return Err(pulled.error); }
        if pulled.value.None? { return Ok(group); }
        if pulled.value.value.score != first.score {
          lookahead := pulled.value;
          return Ok(group);
        }
        group := group + [pulled.value.value];
      }
    }

    // Hands out buffered points.
    method Drain(limit: nat) returns (out: seq<Scored>)
      requires Valid()
      modifies this`buffer, this`emitted
      ensures Valid() && emitted == old(emitted) + out && |out| <= limit
      ensures old(buffer) != [] && limit > 0 ==> out != []
    {
      var count := if limit < |buffer| then limit else |buffer|;
      assert emitted + buffer == emitted + buffer[..count] + buffer[count..];
      out := buffer[..count];
      emitted := emitted + out;
      buffer := buffer[count..];
    }

    // Some next points; none only at the end.
    method NextPoints(limit: nat) returns (r: Result<seq<Scored>, Error>)
      requires Valid() && limit > 0
      modifies this`internal, this`lookahead, this`buffer, this`emitted
      ensures r.Ok? ==> Valid() && emitted == old(emitted) + r.value && |r.value| <= limit
      ensures r.Ok? && r.value == [] ==> emitted == whole && failure.None? && internal == []
      ensures r.Err? ==> Breaks(old(internal), r.error)
      ensures Unmapped(internal) ==> Unmapped(old(internal))
      ensures r.Ok? && Unmapped(old(internal)) ==> Unmapped(internal)
    {
      if buffer == [] {
        var filled := NextGroup();
        if filled.Err? { return Err(filled.error); }
        if !filled.value { return Ok([]); }
      }
      var out := Drain(limit);
      r := Ok(out);
    }

    // Up to so many next points in external order; fewer only at the end.
    method NextBatch(maxResults: nat) returns (r: Result<seq<Scored>, Error>)
      requires Valid()
      modifies this`internal, this`lookahead, this`buffer, this`emitted
      ensures maxResults == 0 ==> r == Err(Validation)
      ensures r.Err? && maxResults > 0 ==> Breaks(old(internal), r.error)
      ensures r.Ok? ==> Valid() && emitted == old(emitted) + r.value && |r.value| <= maxResults
      ensures r.Ok? && |r.value| < maxResults ==> emitted == whole && failure.None? && internal == []
      ensures Unmapped(internal) ==> Unmapped(old(internal))
      ensures r.Ok? && Unmapped(old(internal)) ==> Unmapped(internal)
    {
      if maxResults == 0 { return Err(Validation); }
      var output := [];
      while |output| < maxResults
        invariant Valid() && |output| <= maxResults && emitted == old(emitted) + output
        invariant Unmapped(internal) <==> Unmapped(old(internal))
        decreases maxResults - |output|
      {
        var out := NextPoints(maxResults - |output|);
        if out.Err? { return Err(out.error); }
        if out.value == [] { break; }
        output := output + out.value;
      }
      r := Ok(output);
    }

    lemma EmittedIsPrefix()
      requires Valid()
      ensures emitted <= whole
    {
      assert emitted + buffer + Ranking(Ahead()) == emitted + (buffer + Ranking(Ahead()));
    }
  }

  lemma Rejoin(emitted: seq<Scored>, r: seq<Scored>, g: seq<Scored>, h: seq<Scored>)
    requires r == g + h
    ensures emitted + [] + r == emitted + g + h
  {
  }

  lemma GroupJoins(emitted: seq<Scored>, xs: seq<Scored>, group: seq<Scored>, ahead: seq<Scored>, whole: seq<Scored>)
    requires Joins(emitted, [], xs, whole) && xs == group + ahead && group != []
    requires forall i :: 0 <= i < |group| ==> group[i].score == group[0].score
    requires ahead != [] ==> ahead[0].score != group[0].score
    ensures Distinct(group) && RankSort(group) != [] && Joins(emitted, RankSort(group), ahead, whole)
  {
    GroupIsNext(xs, group, ahead);
    Rejoin(emitted, Ranking(xs), RankSort(group), Ranking(ahead));
  }

  // A group that ends where the score changes comes first in the ranking.
  lemma GroupIsNext(xs: seq<Scored>, group: seq<Scored>, ahead: seq<Scored>)
    requires Falling(xs) && xs == group + ahead && group != []
    requires forall i :: 0 <= i < |group| ==> group[i].score == group[0].score
    requires ahead != [] ==> ahead[0].score != group[0].score
    ensures Falling(group) && Falling(ahead) && Distinct(group)
    ensures Ranking(xs) == Ranking(group) + Ranking(ahead) && Ranking(group) == RankSort(group) != []
  {
    var k := |group|;
    assert xs[..k] == group && xs[k..] == ahead;
    forall i, j | 0 <= i < k <= j < |xs| ensures xs[i].score > xs[j].score {
      assert xs[i] == group[i] && xs[0] == group[0] && xs[k] == ahead[0];
    }
    GroupComesFirst(xs, k);
    FallingDistinct(group);
    assert group[0] in Ranking(group);
  }
}
