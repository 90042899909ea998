// The dense rank state: points leave in exact order although most of them were
// only bounded by a quantised score, not scored.
//
// Heaps are sets from which the greatest element is taken. The exact scorer is
// a function.
//
// Source: lib/segment/src/index/dense_rank_state/core.rs
module DenseRank {
  import opened Common
  import opened RankOrder
  import opened Sorting
  import opened Frontier

  datatype Bound = Bound(id: PointId, lower: real, upper: real)

  ghost function GroupOf(b: Bound, score: PointId -> real): Group {
    Group(b.id, b.upper, {Scored(b.id, score(b.id))})
  }

  ghost function Groups(bounds: set<Bound>, score: PointId -> real): set<Group> {
    set b | b in bounds :: GroupOf(b, score)
  }

  ghost predicate UniqueIds(bounds: set<Bound>) {
    forall b, c :: b in bounds && c in bounds && b.id == c.id ==> b == c
  }

  ghost function Universe(ids: set<PointId>, score: PointId -> real): set<Scored> {
    set id | id in ids :: Scored(id, score(id))
  }

  // The exact score lies within the bounds.
  predicate Contains(b: Bound, x: real) {
    b.lower <= x <= b.upper
  }

  lemma WithoutBound(bounds: set<Bound>, b: Bound, score: PointId -> real)
    requires UniqueIds(bounds) && b in bounds
    ensures Groups(bounds - {b}, score) == Groups(bounds, score) - {GroupOf(b, score)}
  {
    forall c | c in bounds - {b} ensures GroupOf(c, score) != GroupOf(b, score) {}
  }

  lemma Refined(universe: set<Scored>, bounds: set<Bound>, exact: set<Scored>, emitted: seq<Scored>,
                score: PointId -> real, b: Bound)
    requires UniqueIds(bounds) && b in bounds && Contains(b, score(b.id))
    requires Sound(universe, Groups(bounds, score), exact, emitted)
    ensures Sound(universe, Groups(bounds - {b}, score), exact + {Scored(b.id, score(b.id))}, emitted)
  {
    WithoutBound(bounds, b, score);
    Resolve(universe, Groups(bounds, score), exact, emitted, GroupOf(b, score));
  }

  // ---------------------------------------------------------------------
  // What is scored in vain

  // A bound comes at least as early as another.
  ghost predicate Above(b: Bound, c: Bound) {
    b.upper > c.upper || (b.upper == c.upper && b.id <= c.id)
  }

  ghost predicate IsTop(bounds: set<Bound>, top: Bound) {
    top in bounds && forall b :: b in bounds ==> Above(top, b)
  }

  // A scored point comes before everything that a bound allows.
  ghost predicate Passes(x: Scored, b: Bound) {
    x.score > b.upper || (x.score == b.upper && x.id < b.id)
  }

  // A point that all other scored points and all bounds come after.
  ghost predicate IsFixed(exact: set<Scored>, bounds: set<Bound>, x: Scored) {
    && x in exact && (forall y :: y in exact && y != x ==> Precedes(x, y))
    && forall b :: b in bounds ==> Passes(x, b)
  }

  // Of the refined bounds the last batch was led by one that no scored point beats,
  // and all others come before it.
  ghost predicate Led(refined: set<Bound>, exact: set<Scored>, last: set<Bound>, top: Bound, size: nat) {
    && last <= refined && |last| <= size && top in last
    && (forall b :: b in refined - last ==> Above(b, top))
    && forall x :: x in exact ==> !Passes(x, top)
  }

  // So a scored point beats fewer refined bounds than a batch holds.
  lemma FewInVain(refined: set<Bound>, exact: set<Scored>, last: set<Bound>, top: Bound, size: nat, x: Scored)
    requires Led(refined, exact, last, top, size) && x in exact
    ensures |Vain(refined, x)| < size
  {
    var vain := Vain(refined, x);
    forall b | b in vain ensures b in last - {top} {
      assert b in refined - last ==> Above(b, top);
    }
    SubsetSize(vain, last - {top});
  }

  ghost function Vain(refined: set<Bound>, x: Scored): set<Bound> {
    set b | b in refined && Passes(x, b)
  }

  ghost predicate Higher(refined: set<Bound>, bounds: set<Bound>) {
    forall b, c :: b in refined && c in bounds ==> Above(b, c)
  }

  // The taken bounds are the highest ones.
  ghost predicate Split(all: set<Bound>, left: set<Bound>, taken: set<Bound>, top: Bound) {
    && taken <= all && left == all - taken && IsTop(all, top) && top in taken
    && forall t, b :: t in taken && b in left ==> Above(t, b)
  }

  // Scored points are old ones or within taken bounds.
  ghost predicate Comes(before: set<Scored>, taken: set<Bound>, after: set<Scored>) {
    forall x :: x in after ==> x in before || Within(taken, x)
  }

  ghost predicate Within(taken: set<Bound>, x: Scored) {
    exists b :: b in taken && b.id == x.id && x.score <= b.upper
  }

  // Only points of the taken bounds were handed to the scorer.
  ghost predicate ScoredOnly(before: seq<PointId>, taken: set<Bound>, after: seq<PointId>) {
    before <= after && forall i :: |before| <= i < |after| ==> exists b :: b in taken && b.id == after[i]
  }

  lemma ScoredMore(before: seq<PointId>, taken: set<Bound>, b: Bound, after: seq<PointId>)
    requires b in taken
    requires ScoredOnly(before, taken, after) ||
      (after != [] && ScoredOnly(before, taken, after[..|after| - 1]) && after[|after| - 1] == b.id)
    ensures ScoredOnly(before, taken, after)
  {
    if !ScoredOnly(before, taken, after) {
      var shorter := after[..|after| - 1];
      assert forall i :: 0 <= i < |shorter| ==> shorter[i] == after[i];
    }
  }

  lemma ScoredWider(before: seq<PointId>, some: set<Bound>, middle: seq<PointId>, more: set<Bound>, after: seq<PointId>)
    requires ScoredOnly(before, some, middle) && ScoredOnly(middle, more, after)
    ensures ScoredOnly(before, some + more, after)
  {
    forall i | |before| <= i < |after| ensures exists b :: b in some + more && b.id == after[i] {
      if i < |middle| {
        assert after[i] == middle[i];
        var b :| b in some && b.id == middle[i];
        assert b in some + more;
      } else {
        var b :| b in more && b.id == after[i];
        assert b in some + more;
      }
    }
  }

  method HighestBound(bounds: set<Bound>) returns (top: Bound)
    requires bounds != {}
    ensures IsTop(bounds, top)
  {
    top :| top in bounds;
    var left := bounds - {top};
    while left != {}
      invariant left <= bounds && top in bounds
      invariant forall b :: b in bounds && b !in left ==> Above(top, b)
      decreases |left|
    {
      var b :| b in left;
      if Before(b.id, b.upper, top.id, top.upper) { top := b; }
      left := left - {b};
    }
  }

  method TakeHighest(all: set<Bound>, size: nat) returns (left: set<Bound>, taken: set<Bound>, ghost first: Bound)
    requires all != {} && size > 0
    ensures Split(all, left, taken, first)
    ensures |taken| == if |all| < size then |all| else size
  {
    left, taken, first := all, {}, Bound(0, 0.0, 0.0);
    while |taken| < size && left != {}
      invariant taken <= all && left == all - taken && |left| + |taken| == |all| && |taken| <= size
      invariant taken != {} ==> Split(all, left, taken, first)
      decreases |left|
    {
      var top := HighestBound(left);
      if taken == {} { first := top; }
      left, taken := left - {top}, taken + {top};
    }
  }

  lemma LeadsNext(refined: set<Bound>, bounds: set<Bound>, exact: set<Scored>, left: set<Bound>, taken: set<Bound>,
                  top: Bound, after: set<Scored>, size: nat)
    requires Split(bounds, left, taken, top) && |taken| <= size && Comes(exact, taken, after)
    requires Higher(refined, bounds) && forall x :: x in exact ==> !Passes(x, top)
    ensures Led(refined + taken, after, taken, top, size)
  {
    forall b | b in refined + taken - taken ensures Above(b, top) {
      assert b in refined && top in bounds;
    }
    forall x | x in after ensures !Passes(x, top) {
      if x !in exact {
        var b :| b in taken && b.id == x.id && x.score <= b.upper;
        assert Above(top, b);
      }
    }
  }

  // What a search for the next point has refined so far.
  ghost predicate Sought(all: set<Bound>, was: set<Scored>, already: seq<PointId>, bounds: set<Bound>,
                         exact: set<Scored>, scored: seq<PointId>, last: set<Bound>, top: Bound, size: nat) {
    && bounds <= all && ScoredOnly(already, all - bounds, scored) && Higher(all - bounds, bounds)
    && if bounds == all then exact == was else NoneFixed(was, all) && Led(all - bounds, exact, last, top, size)
  }

  ghost predicate NoneFixed(exact: set<Scored>, bounds: set<Bound>) {
    forall x :: !IsFixed(exact, bounds, x)
  }

  lemma SoughtVain(all: set<Bound>, was: set<Scored>, already: seq<PointId>, bounds: set<Bound>, exact: set<Scored>,
                   scored: seq<PointId>, last: set<Bound>, top: Bound, size: nat, x: Scored)
    requires Sought(all, was, already, bounds, exact, scored, last, top, size) && x in exact && size > 0
    ensures |Vain(all - bounds, x)| < size
  {
    if bounds == all {
      assert Vain(all - bounds, x) == {};
    } else {
      FewInVain(all - bounds, exact, last, top, size, x);
    }
  }

  lemma SoughtMore(all: set<Bound>, was: set<Scored>, already: seq<PointId>, bounds: set<Bound>, exact: set<Scored>,
                   scored: seq<PointId>, last: set<Bound>, top: Bound, size: nat, left: set<Bound>, taken: set<Bound>,
                   first: Bound, more: seq<PointId>)
    requires Sought(all, was, already, bounds, exact, scored, last, top, size) && NoneFixed(exact, bounds)
    requires Split(bounds, left, taken, first) && ScoredOnly(scored, taken, more)
    ensures left < all && all - left == (all - bounds) + taken
    ensures ScoredOnly(already, all - left, more) && Higher(all - left, left) && NoneFixed(was, all)
  {
    assert all - left == (all - bounds) + taken;
    ScoredWider(already, all - bounds, scored, taken, more);
  }

  class DenseRankState {
    const score: PointId -> real
    const refineBatch: nat
    ghost const eligible: set<PointId>
    ghost const certificate: set<Bound>
    var bounds: set<Bound>
    var exact: set<Scored>
    var exactScores: map<PointId, real>
    // What was emitted, and the identities handed to the exact scorer.
    ghost var emitted: seq<Scored>
    ghost var scored: seq<PointId>

    constructor (score: PointId -> real, refineBatch: nat, ghost eligible: set<PointId>, bounds: set<Bound>)
      requires refineBatch > 0 && UniqueIds(bounds)
      requires forall id :: id in eligible <==> exists b :: b in bounds && b.id == id
      ensures Valid() && emitted == [] && scored == []
      ensures this.score == score && this.eligible == eligible && this.bounds == bounds && certificate == bounds
    {
      this.score, this.refineBatch, this.eligible := score, refineBatch, eligible;
      this.bounds, this.exact, this.exactScores, this.emitted, this.scored := bounds, {}, map[], [], [];
      this.certificate := bounds;
      new;
      forall x ensures x in Universe(eligible, score) <==> Waiting(Groups(bounds, score), x) {
        if x in Universe(eligible, score) {
          var b :| b in bounds && b.id == x.id;
          assert GroupOf(b, score) in Groups(bounds, score);
        }
      }
    }

    ghost predicate Cached()
      reads this
    {
      && Distinct(scored)
      && (forall id :: id in scored <==> id in exactScores)
      && (forall id :: id in exactScores ==> exactScores[id] == score(id))
    }

    // Sound, when these bounds have been taken out but not refined yet.
    ghost predicate SoundWith(taken: set<Bound>)
      reads this
    {
      && refineBatch > 0 && Cached()
      && UniqueIds(certificate) && bounds + taken <= certificate && bounds !! taken
      && Sound(Universe(eligible, score), Groups(bounds + taken, score), exact, emitted)
    }

    ghost predicate Valid()
      reads this
    {
      SoundWith({})
    }

    // The certificate of some point excludes its exact score.
    ghost predicate Violated() {
      exists b :: b in certificate && !Contains(b, score(b.id))
    }

    // Rejects bounds that are not for exactly the eligible points.
    static method FromCertificateBounds(score: PointId -> real, eligible: seq<PointId>, given: seq<Bound>,
                                        refineBatch: nat)
      returns (r: Result<DenseRankState, Error>)
      ensures r == Err(Validation) <==> refineBatch == 0
      ensures r.Ok? <==>
        && refineBatch > 0 && Distinct(eligible)
        && multiset(eligible) == multiset(BoundIds(given))
        && forall i :: 0 <= i < |given| ==> given[i].lower <= given[i].upper
      ensures r.Ok? ==>
        && fresh(r.value) && r.value.Valid() && r.value.emitted == [] && r.value.score == score
        && (forall id :: id in r.value.eligible <==> id in eligible)
        && (forall b :: b in r.value.certificate <==> b in given)
    {
      if refineBatch == 0 { return Err(Validation); }
      SortPermutes(eligible);
      SortPermutes(BoundIds(given));
      var sorted := Sort(eligible);
      SortSorts(eligible);
      var repeated := HasRepetition(sorted);
      if repeated {
        PermutationDistinct(eligible, sorted);
        return Err(InconsistentStorage);
      }
      PermutationDistinct(sorted, eligible);
      var inverted := exists i :: 0 <= i < |given| && given[i].lower > given[i].upper;
      if Sort(BoundIds(given)) != sorted || inverted {
        SortIsCanonical(eligible, BoundIds(given));
        return Err(InconsistentStorage);
      }
      PermutationDistinct(eligible, BoundIds(given));
      var bounds := set b | b in given;
      BoundsMatch(eligible, given, bounds);
      var state := new DenseRankState(score, refineBatch, (set id | id in eligible), bounds);
      r := Ok(state);
    }

    method BestExact() returns (best: Scored)
      requires exact != {}
      ensures best in exact && forall x :: x in exact && x != best ==> Precedes(best, x)
    {
      best :| best in exact;
      var left := exact - {best};
      while left != {}
        invariant left <= exact && best in exact
        invariant forall x :: x in exact && x !in left && x != best ==> Precedes(best, x)
        decreases |left|
      {
        var x :| x in left;
        if Precedes(x, best) { best := x; }
        left := left - {x};
      }
    }

    // Takes the highest bounds, up to the size of a refinement batch.
    method TakeBounds() returns (taken: set<Bound>, ghost first: Bound)
      requires Valid() && bounds != {}
      modifies this`bounds
      ensures SoundWith(taken) && Split(old(bounds), bounds, taken, first)
      ensures |taken| == if |old(bounds)| < refineBatch then |old(bounds)| else refineBatch
    {
      var left;
      left, taken, first := TakeHighest(bounds, refineBatch);
      assert left + taken == bounds + {};
      bounds := left;
    }

    // The exact score, from the cache if it was computed before.
    method ExactScore(id: PointId) returns (x: real)
      requires Cached()
      modifies this`exactScores, this`scored
      ensures Cached() && x == score(id)
      ensures scored == old(scored) + if id in old(exactScores) then [] else [id]
    {
      if id !in exactScores {
        exactScores, scored := exactScores[id := score(id)], scored + [id];
      }
      x := exactScores[id];
    }

    // Scores what is not in the cache and checks every bound against its score.
    method RefineBounds(taken: set<Bound>) returns (r: Result<(), Error>)
      requires SoundWith(taken)
      modifies this`exact, this`exactScores, this`scored
      ensures r.Ok? ==> Valid() && Comes(old(exact), taken, exact)
      ensures ScoredOnly(old(scored), taken, scored)
      ensures r.Err? ==> r.error == InconsistentStorage && Violated()
    {
      var left := taken;
      while left != {}
        invariant left <= taken && SoundWith(left) && Comes(old(exact), taken, exact)
        invariant ScoredOnly(old(scored), taken, scored)
        decreases |left|
      {
        var b :| b in left;
        r := RefineOne(b, left);
        ScoredMore(old(scored), taken, b, scored);
        if r.Err? { return; }
        left := left - {b};
      }
      r := Ok(());
    }

    method RefineOne(b: Bound, ghost left: set<Bound>) returns (r: Result<(), Error>)
      requires b in left && SoundWith(left)
      modifies this`exact, this`exactScores, this`scored
      ensures r.Ok? ==> SoundWith(left - {b}) && exact == old(exact) + {Scored(b.id, score(b.id))}
      ensures r.Ok? ==> Contains(b, score(b.id))
      ensures scored == old(scored) || scored == old(scored) + [b.id]
      ensures r.Err? ==> r.error == InconsistentStorage && Violated()
    {
      var x := ExactScore(b.id);
      if x < b.lower || x > b.upper { return Err(InconsistentStorage); }
      Refined(Universe(eligible, score), bounds + left, exact, emitted, score, b);
      exact := exact + {Scored(b.id, x)};
      assert bounds + (left - {b}) == bounds + left - {b};
      r := Ok(());
    }

    // One round of refinement.
    method RefineTop() returns (r: Result<(), Error>, ghost taken: set<Bound>, ghost top: Bound)
      requires Valid() && bounds != {}
      modifies this`bounds, this`exact, this`exactScores, this`scored
      ensures Split(old(bounds), bounds, taken, top) && |taken| <= refineBatch
      ensures r.Ok? ==> Valid() && Comes(old(exact), taken, exact)
      ensures ScoredOnly(old(scored), taken, scored)
      ensures r.Err? ==> r.error == InconsistentStorage && Violated()
    {
      var most;
      most, top := TakeBounds();
      taken := most;
      r := RefineBounds(most);
    }

    // The best scored point leaves if it beats every bound.
    method FixedPoint() returns (point: Option<Scored>)
      requires Valid()
      modifies this`exact, this`emitted
      ensures Valid()
      ensures point.Some? ==> IsFixed(old(exact), bounds, point.value) && exact == old(exact) - {point.value}
      ensures point.None? ==> NoneFixed(exact, bounds)
      ensures point.None? ==> forall x, top :: x in exact && IsTop(bounds, top) ==> !Passes(x, top)
      ensures point.Some? ==> emitted == old(emitted) + [point.value]
      ensures point.None? ==> emitted == old(emitted) && exact == old(exact) && (bounds == {} ==> exact == {})
    {
      if exact == {} { return None; }
      var best := BestExact();
      if bounds != {} {
        var top := HighestBound(bounds);
        if !Before(best.id, best.score, top.id, top.upper) { return None; }
      }
      assert bounds + {} == bounds;
      Emit(Universe(eligible, score), Groups(bounds, score), exact, emitted, best);
      exact, emitted := exact - {best}, emitted + [best];
      point := Some(best);
    }

    // Refines bounds until a point is fixed or nothing is left. Only bounds that are
    // taken out are scored, none if a point is fixed already, and fewer than a batch
    // of those that the point beats.
    method NextPoint() returns (r: Result<Option<Scored>, Error>)
      requires Valid()
      modifies this`bounds, this`exact, this`exactScores, this`scored, this`emitted
      ensures r.Ok? ==> Valid()
      ensures r.Ok? && r.value.Some? ==> emitted == old(emitted) + [r.value.value]
      ensures r.Ok? && r.value.None? ==> emitted == old(emitted) && bounds == {} && exact == {}
      ensures r.Err? ==> r.error == InconsistentStorage && Violated() && emitted == old(emitted)
      ensures r.Ok? && r.value.Some? ==> |Vain(old(bounds) - bounds, r.value.value)| < refineBatch
      ensures bounds == old(bounds) || NoneFixed(old(exact), old(bounds))
      ensures bounds <= old(bounds) && ScoredOnly(old(scored), old(bounds) - bounds, scored)
    {
      ghost var all, was, already, last, top := bounds, exact, scored, {}, Bound(0, 0.0, 0.0);
      assert Sought(all, was, already, bounds, exact, scored, last, top, refineBatch);
      while true
        invariant Valid() && emitted == old(emitted)
        invariant Sought(all, was, already, bounds, exact, scored, last, top, refineBatch)
        decreases bounds
      {
        ghost var before := exact;
        var point := FixedPoint();
        if point.Some? {
          SoughtVain(all, was, already, bounds, before, scored, last, top, refineBatch, point.value);
          return Ok(point);
        }
        if bounds == {} { return Ok(None); }
        var refined;
        refined, last, top := RefineMore(all, was, already, last, top);
        if refined.Err? { return Err(refined.error); }
      }
    }

    // One more round, as no point is fixed.
    method RefineMore(ghost all: set<Bound>, ghost was: set<Scored>, ghost already: seq<PointId>,
                      ghost last: set<Bound>, ghost top: Bound)
        returns (r: Result<(), Error>, ghost taken: set<Bound>, ghost first: Bound)
      requires Valid() && bounds != {} && Sought(all, was, already, bounds, exact, scored, last, top, refineBatch)
      requires NoneFixed(exact, bounds) && forall x, t :: x in exact && IsTop(bounds, t) ==> !Passes(x, t)
      modifies this`bounds, this`exact, this`exactScores, this`scored
      ensures bounds < old(bounds) && ScoredOnly(already, all - bounds, scored) && NoneFixed(was, all)
      ensures r.Ok? ==> Valid() && Sought(all, was, already, bounds, exact, scored, taken, first, refineBatch)
      ensures r.Err? ==> r.error == InconsistentStorage && Violated()
    {
      ghost var left, before, known := bounds, exact, scored;
      r, taken, first := RefineTop();
      SoughtMore(all, was, already, left, before, known, last, top, refineBatch, bounds, taken, first, scored);
      if r.Ok? { LeadsNext(all - left, left, before, bounds, taken, first, exact, refineBatch); }
    }

    // Up to so many next ranks; fewer only at the end.
    method NextBatch(maxResults: nat) returns (r: Result<seq<Scored>, Error>)
      requires Valid()
      modifies this`bounds, this`exact, this`exactScores, this`scored, this`emitted
      ensures r.Ok? ==> Valid() && emitted == old(emitted) + r.value && |r.value| <= maxResults
      ensures r.Ok? && |r.value| < maxResults ==> bounds == {} && exact == {}
      ensures r == Err(Validation) <==> maxResults == 0
      ensures r.Err? && maxResults > 0 ==> r.error == InconsistentStorage && Violated()
    {
      if maxResults == 0 { return Err(Validation); }
      var points := [];
      while |points| < maxResults
        invariant Valid() && emitted == old(emitted) + points && |points| <= maxResults
      {
        var point := NextPoint();
        if point.Err? { return Err(point.error); }
        if point.value.None? { break; }
        points := points + [point.value.value];
      }
      r := Ok(points);
    }

    // With a certificate that holds, what was emitted is the beginning of the
    // exact ranking; at the end it is all of it, even if the certificate did
    // not hold. No point was scored twice.
    lemma EmissionIsExact(whole: seq<Scored>)
      requires Valid() && IsRanking(Universe(eligible, score), whole)
      ensures !Violated() ==> emitted <= whole
      ensures bounds == {} && exact == {} ==> emitted == whole
      ensures Distinct(scored)
    {
      assert bounds + {} == bounds;
      if !Violated() {
        forall g | g in Groups(bounds, score) ensures Honest(g) {
          var b :| b in bounds && g == GroupOf(b, score);
          assert b in certificate;
        }
        EmittedIsPrefix(Universe(eligible, score), Groups(bounds, score), exact, emitted, whole);
      }
      if bounds == {} && exact == {} {
        assert Groups(bounds, score) == {};
        ExhaustedIsWhole(Universe(eligible, score), emitted, whole);
      }
    }
  }

  function BoundIds(bounds: seq<Bound>): (ids: seq<PointId>)
    ensures |ids| == |bounds| && forall i :: 0 <= i < |ids| ==> ids[i] == bounds[i].id
  {
    seq(|bounds|, i requires 0 <= i < |bounds| => bounds[i].id)
  }

  lemma BoundsMatch(eligible: seq<PointId>, given: seq<Bound>, bounds: set<Bound>)
    requires multiset(eligible) == multiset(BoundIds(given)) && Distinct(BoundIds(given))
    requires forall b :: b in bounds <==> b in given
    ensures UniqueIds(bounds)
    ensures forall id :: id in eligible <==> exists b :: b in bounds && b.id == id
  {
    var ids := BoundIds(given);
    forall b, c | b in bounds && c in bounds && b.id == c.id ensures b == c {
      var i :| 0 <= i < |given| && given[i] == b;
      var j :| 0 <= j < |given| && given[j] == c;
      assert ids[i] == ids[j];
    }
    forall id ensures id in eligible <==> exists b :: b in bounds && b.id == id {
      assert id in eligible <==> id in multiset(eligible);
      assert id in ids <==> id in multiset(ids);
      if id in ids {
        var i :| 0 <= i < |ids| && ids[i] == id;
        assert given[i] in bounds;
      }
      if b :| b in bounds && b.id == id {
        var i :| 0 <= i < |given| && given[i] == b;
        assert ids[i] == id;
      }
    }
  }
}
