// The sparse rank state: ranges are scored best bound first, and a point leaves
// once no range left can hold a better one.
//
// Heaps are sets from which the greatest element is taken; the points of all
// scored ranges are kept in one.
//
// Source: lib/sparse/src/index/posting_block_max/mod.rs, kernel.rs
module SparseRank {
  import opened Common
  import opened RankOrder
  import opened Frontier
  import opened RrfScoring
  import opened SparsePlan

  datatype StreamError = Cancelled | CertificateViolation(point: PointId, score: real, upper: real)

  // No look at the stop flag from one to the other finds it set.
  ghost predicate Clear(stops: nat -> bool, from: nat, to: nat) {
    forall i :: from <= i < to ==> !stops(i)
  }

  // The last look before `to` is the first that finds it set.
  ghost predicate StopsAt(stops: nat -> bool, from: nat, to: nat) {
    from < to && stops(to - 1) && Clear(stops, from, to - 1)
  }

  // The points with a score other than zero from start up to, not including, end.
  ghost function Scoring(a: Arithmetic, postings: seq<Posting>, start: nat, end: nat): set<Scored>
    decreases end
  {
    if end <= start then {} else
    Scoring(a, postings, start, end - 1)
    + if Score(a, postings, end - 1) == 0.0 then {} else {Scored(end - 1, Score(a, postings, end - 1))}
  }

  lemma {:induction false} ScoringMembers(a: Arithmetic, postings: seq<Posting>, start: nat, end: nat, x: Scored)
    ensures x in Scoring(a, postings, start, end) <==>
      start <= x.id < end && x.score == Score(a, postings, x.id) && x.score != 0.0
    decreases end
  {
    if start < end { ScoringMembers(a, postings, start, end - 1, x); }
  }

  ghost function GroupOf(a: Arithmetic, b: Batch, postings: seq<Posting>): Group {
    Group(b.start, b.upper, Scoring(a, postings, b.start, b.end))
  }

  ghost function Groups(a: Arithmetic, batches: set<Batch>, postings: seq<Posting>): set<Group> {
    set b | b in batches :: GroupOf(a, b, postings)
  }

  ghost predicate UniqueStarts(batches: set<Batch>) {
    forall b, c :: b in batches && c in batches && b.start == c.start ==> b == c
  }

  // The bounds that the planner computes.
  ghost predicate Bounded(a: Arithmetic, batches: set<Batch>, postings: seq<Posting>) {
    forall b :: b in batches ==> b.start < b.end && b.upper == UpperBound(a, postings, b.start, b.end)
  }

  lemma BoundIsHonest(a: Arithmetic, b: Batch, postings: seq<Posting>)
    requires Faithful(a) && Weighted(postings) && b.upper == UpperBound(a, postings, b.start, b.end)
    ensures Honest(GroupOf(a, b, postings))
  {
    forall x | x in Scoring(a, postings, b.start, b.end) ensures x.score <= b.upper && b.start <= x.id {
      ScoringMembers(a, postings, b.start, b.end, x);
      ScoreBelowBound(a, postings, b.start, b.end, x.id);
    }
  }

  lemma WithoutBatch(a: Arithmetic, batches: set<Batch>, b: Batch, postings: seq<Posting>)
    requires UniqueStarts(batches) && b in batches
    ensures Groups(a, batches - {b}, postings) == Groups(a, batches, postings) - {GroupOf(a, b, postings)}
  {
    forall c | c in batches - {b} ensures GroupOf(a, c, postings) != GroupOf(a, b, postings) {}
  }

  lemma Expanded(a: Arithmetic, universe: set<Scored>, batches: set<Batch>, points: set<Scored>, emitted: seq<Scored>,
                 postings: seq<Posting>, b: Batch)
    requires Faithful(a) && Weighted(postings) && UniqueStarts(batches) && Bounded(a, batches, postings) && b in batches
    requires Sound(universe, Groups(a, batches, postings), points, emitted)
    ensures Sound(universe, Groups(a, batches - {b}, postings), points + Scoring(a, postings, b.start, b.end), emitted)
  {
    BoundIsHonest(a, b, postings);
    WithoutBatch(a, batches, b, postings);
    Resolve(universe, Groups(a, batches, postings), points, emitted, GroupOf(a, b, postings));
  }

  // A posting adds to the points it lists, and leaves the others alone.
  function Added(a: Arithmetic, score: real, p: Posting, id: PointId): real {
    if id in p.weights then Plus(a, score, Term(a, p.weights[id], p.queryWeight)) else score
  }

  lemma AddTerm(a: Arithmetic, postings: seq<Posting>, i: nat, id: PointId)
    requires Faithful(a) && i < |postings|
    ensures Score(a, postings[..i + 1], id) == Added(a, Score(a, postings[..i], id), postings[i], id)
  {
    var p, before := postings[i], Score(a, postings[..i], id);
    assert postings[..i + 1][..i] == postings[..i] && postings[..i + 1][i] == p;
    ScoreFixed(a, postings[..i], id);
    PlusFixed(a, before, 0.0);
    assert 0.0 * p.queryWeight == 0.0;
  }

  // The buffer holds the scores of the first i postings.
  ghost predicate HoldsScores(a: Arithmetic, postings: seq<Posting>, i: nat, start: nat, scores: seq<real>)
    requires i <= |postings|
  {
    forall k :: 0 <= k < |scores| ==> scores[k] == Score(a, postings[..i], start + k)
  }

  ghost predicate AddsUp(a: Arithmetic, postings: seq<Posting>, i: nat)
    requires i < |postings|
  {
    forall id: PointId :: Score(a, postings[..i + 1], id) == Added(a, Score(a, postings[..i], id), postings[i], id)
  }

  lemma EachAddsUp(a: Arithmetic, postings: seq<Posting>, i: nat)
    requires Faithful(a) && i < |postings|
    ensures AddsUp(a, postings, i)
  {
    forall id: PointId
      ensures Score(a, postings[..i + 1], id) == Added(a, Score(a, postings[..i], id), postings[i], id)
    {
      AddTerm(a, postings, i, id);
    }
  }

  lemma AddTerms(a: Arithmetic, postings: seq<Posting>, i: nat, start: nat, before: seq<real>, after: seq<real>)
    requires i < |postings| && |before| == |after| && AddsUp(a, postings, i)
    requires HoldsScores(a, postings, i, start, before)
    requires forall k :: 0 <= k < |after| ==> after[k] == Added(a, before[k], postings[i], start + k)
    ensures HoldsScores(a, postings, i + 1, start, after)
  {
    forall k | 0 <= k < |after| ensures after[k] == Score(a, postings[..i + 1], start + k) {
      var id: PointId := start + k;
      assert Score(a, postings[..i + 1], id) == Added(a, Score(a, postings[..i], id), postings[i], id);
    }
  }

  method AddPosting(a: Arithmetic, p: Posting, start: nat, scores: array<real>)
    modifies scores
    ensures forall k :: 0 <= k < scores.Length ==> scores[k] == Added(a, old(scores[k]), p, start + k)
  {
    for k := 0 to scores.Length
      invariant forall j :: 0 <= j < k ==> scores[j] == Added(a, old(scores[j]), p, start + j)
      invariant forall j :: k <= j < scores.Length ==> scores[j] == old(scores[j])
    {
      if start + k in p.weights {
        scores[k] := Plus(a, scores[k], Term(a, p.weights[start + k], p.queryWeight));
      }
    }
  }

  // Adds up the contributions posting by posting in a buffer over the range.
  method ScoreRange(a: Arithmetic, postings: seq<Posting>, start: nat, end: nat) returns (scores: array<real>)
    requires Faithful(a) && start <= end
    ensures fresh(scores) && scores.Length == end - start
    ensures HoldsScores(a, postings, |postings|, start, scores[..])
  {
    scores := new real[end - start](_ => 0.0);
    for i := 0 to |postings|
      invariant HoldsScores(a, postings, i, start, scores[..])
    {
      ghost var before := scores[..];
      AddPosting(a, postings[i], start, scores);
      EachAddsUp(a, postings, i);
      AddTerms(a, postings, i, start, before, scores[..]);
    }
  }

  // Keeps the scores other than zero and checks each against the bound.
  method CollectScoredPoints(a: Arithmetic, postings: seq<Posting>, b: Batch, scores: array<real>, stops: nat -> bool,
                             look: nat)
    returns (r: Result<set<Scored>, StreamError>, next: nat)
    requires b.start <= b.end && scores.Length == b.end - b.start
    requires HoldsScores(a, postings, |postings|, b.start, scores[..])
    ensures look <= next
    ensures r.Ok? ==>
      r.value == Scoring(a, postings, b.start, b.end) && next == look + (b.end - b.start) && Clear(stops, look, next)
    ensures r == Err(Cancelled) ==> StopsAt(stops, look, next)
    ensures r.Err? && r.error != Cancelled ==> r.error.CertificateViolation? && !Honest(GroupOf(a, b, postings))
  {
    assert postings[..|postings|] == postings;
    assert forall k :: 0 <= k < scores.Length ==> scores[..][k] == scores[k];
    var points := {};
    next := look;
    for k := 0 to scores.Length
      invariant points == Scoring(a, postings, b.start, b.start + k)
      invariant next == look + k && Clear(stops, look, next)
    {
      next := next + 1;
      if stops(next - 1) { return Err(Cancelled), next; }
      if scores[k] != 0.0 {
        var x := Scored(b.start + k, scores[k]);
        if scores[k] > b.upper {
          ScoringMembers(a, postings, b.start, b.end, x);
          return Err(CertificateViolation(x.id, x.score, b.upper)), next;
        }
        points := points + {x};
      }
    }
    r := Ok(points);
  }

  // Scores one batch. A bound that the planner computed is never exceeded.
  method ScoreBatch(a: Arithmetic, postings: seq<Posting>, b: Batch, stops: nat -> bool, look: nat)
    returns (r: Result<set<Scored>, StreamError>, next: nat)
    requires Faithful(a) && b.start <= b.end
    ensures look <= next
    ensures r.Ok? ==> r.value == Scoring(a, postings, b.start, b.end) && Clear(stops, look, next)
    ensures r == Err(Cancelled) ==> StopsAt(stops, look, next)
    ensures Weighted(postings) && b.upper == UpperBound(a, postings, b.start, b.end) ==> r.Ok? || r.error == Cancelled
  {
    var scores := ScoreRange(a, postings, b.start, b.end);
    r, next := CollectScoredPoints(a, postings, b, scores, stops, look);
    if Weighted(postings) && b.upper == UpperBound(a, postings, b.start, b.end) { BoundIsHonest(a, b, postings); }
  }

  // ---------------------------------------------------------------------
  // What is scored in vain: nothing

  // A batch comes at least as early as another.
  ghost predicate Above(b: Batch, c: Batch) {
    b.upper > c.upper || (b.upper == c.upper && b.start <= c.start)
  }

  ghost predicate IsTop(batches: set<Batch>, top: Batch) {
    top in batches && forall b :: b in batches ==> Above(top, b)
  }

  // A scored point comes before everything that a batch may hold.
  ghost predicate Passes(x: Scored, b: Batch) {
    x.score > b.upper || (x.score == b.upper && x.id < b.start)
  }

  ghost predicate IsFixed(points: set<Scored>, batches: set<Batch>, x: Scored) {
    && x in points && (forall y :: y in points && y != x ==> Precedes(x, y))
    && forall b :: b in batches ==> Passes(x, b)
  }

  ghost predicate NoneFixed(points: set<Scored>, batches: set<Batch>) {
    forall x :: !IsFixed(points, batches, x)
  }

  // The batches scored come before those left, and no point passes one of them.
  ghost predicate Needed(scored: set<Batch>, batches: set<Batch>, points: set<Scored>) {
    && (forall b, c :: b in scored && c in batches ==> Above(b, c))
    && forall x, b :: x in points && b in scored ==> !Passes(x, b)
  }

  lemma NeededMore(scored: set<Batch>, batches: set<Batch>, points: set<Scored>, top: Batch, more: set<Scored>)
    requires Needed(scored, batches, points) && IsTop(batches, top)
    requires forall x :: x in points ==> !Passes(x, top)
    requires forall x :: x in more ==> x in points || (x.score <= top.upper && top.start <= x.id)
    ensures Needed(scored + {top}, batches - {top}, more)
  {
    forall x, b | x in more && b in scored + {top} ensures !Passes(x, b) {
      assert b in scored ==> Above(b, top);
    }
  }

  method HighestBatch(batches: set<Batch>) returns (top: Batch)
    requires batches != {}
    ensures IsTop(batches, top)
  {
    top :| top in batches;
    var left := batches - {top};
    while left != {}
      invariant left <= batches && top in batches
      invariant forall b :: b in batches && b !in left ==> Above(top, b)
      decreases |left|
    {
      var b :| b in left;
      if Before(b.start, b.upper, top.start, top.upper) { top := b; }
      left := left - {b};
    }
  }

  class PostingBlockMaxState {
    const arith: Arithmetic
    const postings: seq<Posting>
    var batches: set<Batch>
    var points: set<Scored>
    var terminalError: Option<StreamError>
    // All points of the planned ranges that score, and what was emitted.
    ghost const universe: set<Scored>
    ghost var emitted: seq<Scored>

    constructor (arith: Arithmetic, postings: seq<Posting>, low: nat, high: nat, width: nat)
      requires Faithful(arith) && Weighted(postings) && width > 0 && low <= high
      ensures Valid() && emitted == [] && terminalError == None && this.postings == postings && this.arith == arith
      ensures forall x :: x in universe <==>
        && low <= x.id < high && x.score == Score(arith, postings, x.id) && x.score != 0.0
        && Kept(arith, postings, low, high, width, x.id)
    {
      var planned := PlanBatches(arith, postings, low, high, width);
      var all := set b | b in planned;
      this.arith, this.postings, batches, points, terminalError, emitted := arith, postings, all, {}, None, [];
      universe := Union(Groups(arith, all, postings));
      new;
      PlannedUniverse(arith, postings, planned, low, high, width, all);
    }

    ghost predicate Valid()
      reads this
    {
      && Faithful(arith) && Weighted(postings) && UniqueStarts(batches) && Bounded(arith, batches, postings)
      && (terminalError.None? ==> Sound(universe, Groups(arith, batches, postings), points, emitted))
    }

    method BestPoint() returns (best: Scored)
      requires points != {}
      ensures best in points && forall x :: x in points && x != best ==> Precedes(best, x)
    {
      best :| best in points;
      var left := points - {best};
      while left != {}
        invariant left <= points && best in points
        invariant forall x :: x in points && x !in left && x != best ==> Precedes(best, x)
        decreases |left|
      {
        var x :| x in left;
        if Precedes(x, best) { best := x; }
        left := left - {x};
      }
    }

    // The best scored point, if no batch left can hold a better one.
    method NextFixedPoint() returns (x: Option<Scored>)
      requires Valid() && terminalError.None?
      modifies this`points, this`emitted
      ensures Valid()
      ensures x.Some? ==> emitted == old(emitted) + [x.value] && points == old(points) - {x.value}
      ensures x.Some? ==> IsFixed(old(points), batches, x.value)
      ensures x.None? ==> emitted == old(emitted) && points == old(points) && NoneFixed(points, batches)
      ensures x.None? ==> forall y, top :: y in points && IsTop(batches, top) ==> !Passes(y, top)
      ensures x.None? && batches == {} ==> points == {}
    {
      if points == {} { return None; }
      var best := BestPoint();
      if batches != {} {
        var top := HighestBatch(batches);
        if !Before(best.id, best.score, top.start, top.upper) { return None; }
      }
      Emit(universe, Groups(arith, batches, postings), points, emitted, best);
      points, emitted := points - {best}, emitted + [best];
      x := Some(best);
    }

    // Scores the batch with the highest bound.
    method Expand(stops: nat -> bool, look: nat) returns (r: Result<(), StreamError>, next: nat, ghost top: Batch)
      requires Valid() && terminalError.None? && batches != {}
      modifies this`batches, this`points
      ensures look < next
      ensures r.Ok? ==> Valid() && Clear(stops, look, next)
      ensures r.Ok? ==> IsTop(old(batches), top) && batches == old(batches) - {top}
      ensures r.Ok? ==> forall x :: x in points ==> x in old(points) || (x.score <= top.upper && top.start <= x.id)
      ensures r.Err? ==> r.error == Cancelled && StopsAt(stops, look, next)
    {
      var first := HighestBatch(batches);
      next, top := look + 1, first;
      if stops(look) { return Err(Cancelled), next, top; }
      var collected;
      collected, next := ScoreBatch(arith, postings, first, stops, next);
      if collected.Err? { return Err(collected.error), next, top; }
      Expanded(arith, universe, batches, points, emitted, postings, first);
      BoundIsHonest(arith, first, postings);
      batches, points := batches - {first}, points + collected.value;
      r := Ok(());
    }

    // Fixed points, as many as asked for or as are fixed without scoring more;
    // none only at the end. A batch is scored only while no point is fixed, and the
    // first point does not pass any batch that was scored. An error is final. The flag is read on entry, before
    // each batch and at each point of it; stops(i) is what the i-th of the looks
    // finds, and one that finds it set ends the call.
    method NextBatch(maxResults: nat, stops: nat -> bool) returns (r: Result<seq<Scored>, StreamError>, looks: nat)
      requires Valid() && maxResults > 0
      modifies this`batches, this`points, this`emitted, this`terminalError
      ensures Valid()
      ensures old(terminalError.Some?) ==> r == Err(old(terminalError.value)) && terminalError == old(terminalError)
      ensures r.Err? ==> terminalError == Some(r.error) && emitted == old(emitted)
      ensures r.Err? && old(terminalError.None?) ==> r.error == Cancelled && StopsAt(stops, 0, looks)
      ensures r.Ok? ==> looks > 0 && Clear(stops, 0, looks)
      ensures r.Ok? ==> terminalError.None? && emitted == old(emitted) + r.value && |r.value| <= maxResults
      ensures r.Ok? && r.value == [] ==> batches == {} && points == {}
      ensures r.Ok? ==> batches <= old(batches) && (batches == old(batches) || NoneFixed(old(points), old(batches)))
      ensures r.Ok? && r.value != [] ==> forall b :: b in old(batches) - batches ==> !Passes(r.value[0], b)
    {
      if terminalError.Some? { return Err(terminalError.value), 0; }
      looks := 1;
      if stops(0) {
        terminalError := Some(Cancelled);
        return Err(Cancelled), looks;
      }
      var result := [];
      while true
        invariant Valid() && terminalError.None? && emitted == old(emitted) + result && |result| < maxResults
        invariant looks > 0 && Clear(stops, 0, looks) && batches <= old(batches)
        invariant batches == old(batches) && result == [] ==> points == old(points)
        invariant batches != old(batches) ==> NoneFixed(old(points), old(batches))
        invariant result == [] ==> Needed(old(batches) - batches, batches, points)
        invariant result != [] ==> forall b :: b in old(batches) - batches ==> !Passes(result[0], b)
        decreases batches, points
      {
        ghost var left, before := batches, points;
        var x := NextFixedPoint();
        if x.Some? {
          result := result + [x.value];
          if |result| == maxResults { return Ok(result), looks; }
          continue;
        }
        if batches == {} || result != [] { return Ok(result), looks; }
        var expanded;
        ghost var top;
        expanded, looks, top := Expand(stops, looks);
        if expanded.Err? {
          batches, points, terminalError := {}, {}, Some(expanded.error);
          return Err(expanded.error), looks;
        }
        NeededMore(old(batches) - left, left, before, top, points);
        assert old(batches) - batches == (old(batches) - left) + {top};
      }
    }

    // What was emitted is the beginning of the ranking of all planned points
    // that score, and at the end the whole of it.
    lemma EmissionIsExact(whole: seq<Scored>)
      requires Valid() && terminalError.None? && IsRanking(universe, whole)
      ensures emitted <= whole
      ensures batches == {} && points == {} ==> emitted == whole
    {
      forall g | g in Groups(arith, batches, postings) ensures Honest(g) {
        var b :| b in batches && g == GroupOf(arith, b, postings);
        BoundIsHonest(arith, b, postings);
      }
      EmittedIsPrefix(universe, Groups(arith, batches, postings), points, emitted, whole);
      if batches == {} && points == {} {
        assert Groups(arith, batches, postings) == {};
        ExhaustedIsWhole(universe, emitted, whole);
      }
    }
  }

  ghost function Union(groups: set<Group>): (all: set<Scored>)
    ensures forall x :: x in all <==> Waiting(groups, x)
  {
    set g, x | g in groups && x in g.members :: x
  }

  lemma PlannedUniverse(a: Arithmetic, postings: seq<Posting>, planned: seq<Batch>, low: nat, high: nat, width: nat,
                        all: set<Batch>)
    requires width > 0 && low <= high && IsPlan(a, postings, width, planned, low, high, high)
    requires forall b :: b in all <==> b in planned
    ensures forall x :: Waiting(Groups(a, all, postings), x) <==>
      && low <= x.id < high && x.score == Score(a, postings, x.id) && x.score != 0.0
      && Kept(a, postings, low, high, width, x.id)
    ensures UniqueStarts(all) && Bounded(a, all, postings)
  {
    forall x ensures Waiting(Groups(a, all, postings), x) <==>
      && low <= x.id < high && x.score == Score(a, postings, x.id) && x.score != 0.0
      && Kept(a, postings, low, high, width, x.id)
    {
      PlannedMembers(a, postings, planned, low, high, width, all, x);
    }
    PlannedMembers(a, postings, planned, low, high, width, all, Scored(0, 0.0));
  }

  lemma PlannedMembers(a: Arithmetic, postings: seq<Posting>, planned: seq<Batch>, low: nat, high: nat, width: nat,
                       all: set<Batch>, x: Scored)
    requires width > 0 && low <= high && IsPlan(a, postings, width, planned, low, high, high)
    requires forall b :: b in all <==> b in planned
    ensures Waiting(Groups(a, all, postings), x) <==>
      && low <= x.id < high && x.score == Score(a, postings, x.id) && x.score != 0.0
      && Kept(a, postings, low, high, width, x.id)
    ensures UniqueStarts(all) && Bounded(a, all, postings)
  {
    if Waiting(Groups(a, all, postings), x) {
      var g :| g in Groups(a, all, postings) && x in g.members;
      var b :| b in all && g == GroupOf(a, b, postings);
      ScoringMembers(a, postings, b.start, b.end, x);
      assert Covers(planned, x.id);
    }
    if low <= x.id < high && x.score == Score(a, postings, x.id) && x.score != 0.0 && Covers(planned, x.id) {
      var i :| 0 <= i < |planned| && planned[i].start <= x.id < planned[i].end;
      ScoringMembers(a, postings, planned[i].start, planned[i].end, x);
      assert GroupOf(a, planned[i], postings) in Groups(a, all, postings);
    }
  }
}
