// Block-max planning for sparse queries: identity ranges with an upper bound on
// every score inside.
//
// Products and sums are rounded as in single precision, by any rounding of
// RrfScoring.
//
// Sources: lib/sparse/src/index/posting_block_max/kernel.rs (plan_batches,
// plan_batches_native), lib/sparse/src/index/posting_list.rs (max_weight_till_id)
module SparsePlan {
  import opened Common
  import opened RrfScoring

  // The stored impacts of one query term, its weight in the query, and what the
  // index reports as the largest impact from a start up to, not including, an end.
  datatype Posting = Posting(weights: map<PointId, real>, queryWeight: real, maximum: (nat, nat) -> real)

  // Weights are not negative, and reported maxima are at least zero and at least
  // every impact in the range. Maxima of stored blocks may be larger than that.
  ghost predicate Weighted(postings: seq<Posting>) {
    forall i :: 0 <= i < |postings| ==> postings[i].queryWeight >= 0.0 && Bounding(postings[i])
  }

  ghost predicate Bounding(p: Posting) {
    && (forall start: nat, end: nat :: p.maximum(start, end) >= 0.0)
    && forall start: nat, end: nat, id: PointId :: start <= id < end ==> Impact(p, id) <= p.maximum(start, end)
  }

  function Impact(p: Posting, id: PointId): real {
    if id in p.weights then p.weights[id] else 0.0
  }

  // What a term adds to a point's score.
  function Term(a: Arithmetic, impact: real, queryWeight: real): real {
    a.round(impact * queryWeight)
  }

  function Score(a: Arithmetic, postings: seq<Posting>, id: PointId): real {
    if postings == [] then 0.0 else
    var p := postings[|postings| - 1];
    Plus(a, Score(a, postings[..|postings| - 1], id), Term(a, Impact(p, id), p.queryWeight))
  }

  // The largest stored impact from start up to, not including, end; an absent
  // term counts as zero.
  function RangeMax(p: Posting, start: nat, end: nat): real
    decreases end
  {
    if end <= start then 0.0 else
    var before := RangeMax(p, start, end - 1);
    if before < Impact(p, end - 1) then Impact(p, end - 1) else before
  }

  function UpperBound(a: Arithmetic, postings: seq<Posting>, start: nat, end: nat): real {
    if postings == [] then 0.0 else
    var p := postings[|postings| - 1];
    Plus(a, UpperBound(a, postings[..|postings| - 1], start, end), Term(a, p.maximum(start, end), p.queryWeight))
  }

  // Mutable postings compute the largest impact itself.
  ghost predicate ExactMaxima(postings: seq<Posting>) {
    forall i, start: nat, end: nat :: 0 <= i < |postings| ==>
      postings[i].maximum(start, end) == RangeMax(postings[i], start, end)
  }

  lemma ExactIsBounding(postings: seq<Posting>)
    requires ExactMaxima(postings) && forall i :: 0 <= i < |postings| ==> postings[i].queryWeight >= 0.0
    ensures Weighted(postings)
  {
    forall i, start: nat, end: nat, id: PointId | 0 <= i < |postings|
      ensures postings[i].maximum(start, end) >= 0.0
      ensures start <= id < end ==> Impact(postings[i], id) <= postings[i].maximum(start, end)
    {
      RangeMaxIsMax(postings[i], start, end, id);
    }
  }

  lemma {:induction false} RangeMaxIsMax(p: Posting, start: nat, end: nat, id: PointId)
    ensures RangeMax(p, start, end) >= 0.0
    ensures start <= id < end ==> Impact(p, id) <= RangeMax(p, start, end)
    decreases end
  {
    if start < end { RangeMaxIsMax(p, start, end - 1, id); }
  }

  // Some point of the range gets a positive contribution.
  ghost predicate Positive(a: Arithmetic, postings: seq<Posting>, start: nat, end: nat) {
    exists i, id :: 0 <= i < |postings| && start <= id < end && Contributes(a, postings[i], id)
  }

  ghost predicate Contributes(a: Arithmetic, p: Posting, id: PointId) {
    Term(a, Impact(p, id), p.queryWeight) > 0.0
  }

  lemma {:induction false} RangeMaxAttained(p: Posting, start: nat, end: nat)
    ensures RangeMax(p, start, end) > 0.0 ==> exists id :: start <= id < end && Impact(p, id) == RangeMax(p, start, end)
    decreases end
  {
    if start < end {
      RangeMaxAttained(p, start, end - 1);
      assert RangeMax(p, start, end) == Impact(p, end - 1) || RangeMax(p, start, end) == RangeMax(p, start, end - 1);
    }
  }

  lemma TimesOrder(a: real, b: real, c: real)
    requires a <= b && c >= 0.0
    ensures a * c <= b * c
  {
    assert (b - a) * c >= 0.0;
    assert (b - a) * c == b * c - a * c;
  }

  lemma ProductSign(x: real, c: real, p: real)
    requires x >= 0.0 && c >= 0.0 && p == x * c
    ensures p >= 0.0 && (x == 0.0 ==> p == 0.0)
  {
  }

  lemma TermMonotone(a: Arithmetic, x: real, y: real, c: real)
    requires Faithful(a) && x <= y && c >= 0.0
    ensures Term(a, x, c) <= Term(a, y, c)
  {
    var p, q := x * c, y * c;
    assert p <= q by { TimesOrder(x, y, c); }
    RoundMonotone(a, p, q);
  }

  lemma RoundMonotone(a: Arithmetic, x: real, y: real)
    requires Faithful(a) && x <= y
    ensures a.round(x) <= a.round(y)
  {
  }

  lemma PlusMonotone(a: Arithmetic, x: real, y: real, u: real, v: real)
    requires Faithful(a) && x <= u && y <= v
    ensures Plus(a, x, y) <= Plus(a, u, v)
  {
    assert x + y <= u + v;
  }

  // Sums are representable, so adding nothing changes nothing.
  lemma PlusFixed(a: Arithmetic, x: real, y: real)
    requires Faithful(a)
    ensures a.round(Plus(a, x, y)) == Plus(a, x, y) <= a.top
    ensures a.round(x) == x ==> Plus(a, x, 0.0) == x
  {
    assert a.round(x) <= a.top;
  }

  lemma PlusSign(a: Arithmetic, x: real, y: real)
    requires Faithful(a) && x >= 0.0 && y >= 0.0 && a.round(x) == x && a.round(y) == y
    ensures Plus(a, x, y) >= 0.0 && (Plus(a, x, y) > 0.0 <==> x > 0.0 || y > 0.0)
  {
    assert a.round(0.0) <= a.round(1.0) <= a.top;
    assert a.round(x) <= a.round(x + y) && a.round(y) <= a.round(x + y);
  }

  lemma {:induction false} ScoreFixed(a: Arithmetic, postings: seq<Posting>, id: PointId)
    requires Faithful(a)
    ensures a.round(Score(a, postings, id)) == Score(a, postings, id)
    decreases |postings|
  {
    if postings != [] {
      var p := postings[|postings| - 1];
      PlusFixed(a, Score(a, postings[..|postings| - 1], id), Term(a, Impact(p, id), p.queryWeight));
    }
  }

  lemma {:induction false} BoundFixed(a: Arithmetic, postings: seq<Posting>, start: nat, end: nat)
    requires Faithful(a)
    ensures a.round(UpperBound(a, postings, start, end)) == UpperBound(a, postings, start, end)
    decreases |postings|
  {
    if postings != [] {
      var p := postings[|postings| - 1];
      PlusFixed(a, UpperBound(a, postings[..|postings| - 1], start, end),
                Term(a, p.maximum(start, end), p.queryWeight));
    }
  }

  // No point of the range scores above the bound, even with negative impacts.
  lemma {:induction false} ScoreBelowBound(a: Arithmetic, postings: seq<Posting>, start: nat, end: nat, id: PointId)
    requires Faithful(a) && Weighted(postings) && start <= id < end
    ensures Score(a, postings, id) <= UpperBound(a, postings, start, end)
    decreases |postings|
  {
    if postings != [] {
      var p := postings[|postings| - 1];
      ScoreBelowBound(a, postings[..|postings| - 1], start, end, id);
      TermMonotone(a, Impact(p, id), p.maximum(start, end), p.queryWeight);
      PlusMonotone(a, Score(a, postings[..|postings| - 1], id), Term(a, Impact(p, id), p.queryWeight),
                   UpperBound(a, postings[..|postings| - 1], start, end),
                   Term(a, p.maximum(start, end), p.queryWeight));
    }
  }

  lemma {:induction false} BoundNotNegative(a: Arithmetic, postings: seq<Posting>, start: nat, end: nat)
    requires Faithful(a) && Weighted(postings)
    ensures UpperBound(a, postings, start, end) >= 0.0
    decreases |postings|
  {
    if postings != [] {
      var p, rest := postings[|postings| - 1], postings[..|postings| - 1];
      var sum, term := UpperBound(a, rest, start, end), Term(a, p.maximum(start, end), p.queryWeight);
      assert sum >= 0.0 by { BoundNotNegative(a, rest, start, end); }
      assert a.round(sum) == sum by { BoundFixed(a, rest, start, end); }
      assert term >= 0.0 && a.round(term) == term by { TermNotNegative(a, p.maximum(start, end), p.queryWeight); }
      PlusSign(a, sum, term);
    }
  }

  // With exact maxima the bound is positive exactly if something in the range
  // contributes.
  ghost predicate BoundTells(a: Arithmetic, postings: seq<Posting>, start: nat, end: nat) {
    && UpperBound(a, postings, start, end) >= 0.0
    && (UpperBound(a, postings, start, end) > 0.0 <==> Positive(a, postings, start, end))
  }

  lemma BoundStep(a: Arithmetic, postings: seq<Posting>, start: nat, end: nat)
    requires Faithful(a) && Weighted(postings) && ExactMaxima(postings) && postings != []
    requires BoundTells(a, postings[..|postings| - 1], start, end)
    ensures BoundTells(a, postings, start, end)
  {
    var p, rest := postings[|postings| - 1], postings[..|postings| - 1];
    assert p.maximum(start, end) == RangeMax(p, start, end);
    var sum, term := UpperBound(a, rest, start, end), Term(a, RangeMax(p, start, end), p.queryWeight);
    assert a.round(sum) == sum by { BoundFixed(a, rest, start, end); }
    TermSign(a, p, start, end);
    PlusSign(a, sum, term);
    LastTerm(a, postings, start, end);
  }

  lemma {:induction false} BoundSign(a: Arithmetic, postings: seq<Posting>, start: nat, end: nat)
    requires Faithful(a) && Weighted(postings) && ExactMaxima(postings)
    ensures BoundTells(a, postings, start, end)
    decreases |postings|
  {
    if postings != [] {
      BoundSign(a, postings[..|postings| - 1], start, end);
      BoundStep(a, postings, start, end);
    }
  }

  // The bound of one term is positive exactly if it contributes somewhere.
  lemma TermSign(a: Arithmetic, p: Posting, start: nat, end: nat)
    requires Faithful(a) && p.queryWeight >= 0.0
    ensures
      var bound := Term(a, RangeMax(p, start, end), p.queryWeight);
      && bound >= 0.0 && a.round(bound) == bound
      && (bound > 0.0 <==> exists id :: start <= id < end && Contributes(a, p, id))
  {
    var top := RangeMax(p, start, end);
    RangeMaxIsMax(p, start, end, start);
    RangeMaxAttained(p, start, end);
    ProductSign(top, p.queryWeight, top * p.queryWeight);
    if Term(a, top, p.queryWeight) > 0.0 {
      var id :| start <= id < end && Impact(p, id) == top;
      assert Contributes(a, p, id);
    }
    if id :| start <= id < end && Contributes(a, p, id) {
      RangeMaxIsMax(p, start, end, id);
      TermMonotone(a, Impact(p, id), top, p.queryWeight);
    }
  }

  lemma LastTerm(a: Arithmetic, postings: seq<Posting>, start: nat, end: nat)
    requires postings != []
    ensures
      var n := |postings| - 1;
      Positive(a, postings, start, end) <==>
        Positive(a, postings[..n], start, end) || exists id :: start <= id < end && Contributes(a, postings[n], id)
  {
    var n := |postings| - 1;
    if Positive(a, postings[..n], start, end) {
      var i, id :| 0 <= i < n && start <= id < end && Contributes(a, postings[..n][i], id);
      assert Contributes(a, postings[i], id);
    }
    if Positive(a, postings, start, end) {
      var i, id :| 0 <= i < |postings| && start <= id < end && Contributes(a, postings[i], id);
      if i < n { assert Contributes(a, postings[..n][i], id); }
    }
  }

  // ---------------------------------------------------------------------
  // The plan

  // Identities from start up to, not including, end.
  datatype Batch = Batch(start: nat, end: nat, upper: real)

  ghost predicate Covers(batches: seq<Batch>, id: PointId) {
    exists i :: 0 <= i < |batches| && batches[i].start <= id < batches[i].end
  }

  // The ranges that the identities are cut into.
  function NextCut(start: nat, high: nat, width: nat): nat {
    if start + width < high then start + width else high
  }

  // Where the range of an identity begins, cutting from start on.
  function RangeStart(start: nat, high: nat, width: nat, id: PointId): (r: nat)
    requires start <= id < high && width > 0
    ensures start <= r <= id < NextCut(r, high, width)
    decreases high - start
  {
    if id < NextCut(start, high, width) then start else RangeStart(NextCut(start, high, width), high, width, id)
  }

  // The bound of the identity's range is positive.
  ghost predicate Kept(a: Arithmetic, postings: seq<Posting>, low: nat, high: nat, width: nat, id: PointId)
    requires low <= id < high && width > 0
  {
    var start := RangeStart(low, high, width, id);
    UpperBound(a, postings, start, NextCut(start, high, width)) > 0.0
  }

  // With exact maxima: something in the identity's range contributes.
  lemma KeptExactly(a: Arithmetic, postings: seq<Posting>, low: nat, high: nat, width: nat, id: PointId)
    requires Faithful(a) && Weighted(postings) && ExactMaxima(postings) && low <= id < high && width > 0
    ensures
      var start := RangeStart(low, high, width, id);
      Kept(a, postings, low, high, width, id) <==> Positive(a, postings, start, NextCut(start, high, width))
  {
    var start := RangeStart(low, high, width, id);
    BoundSign(a, postings, start, NextCut(start, high, width));
  }

  // The batches are ranges of the cut in increasing order, each with its bound,
  // and cover exactly the identities below mid whose range is kept.
  ghost predicate IsPlan(a: Arithmetic, postings: seq<Posting>, width: nat, batches: seq<Batch>, low: nat, mid: nat,
                         high: nat)
    requires width > 0 && low <= mid <= high
  {
    && (forall i :: 0 <= i < |batches| ==>
          && low <= batches[i].start < batches[i].end <= mid
          && RangeStart(low, high, width, batches[i].start) == batches[i].start
          && batches[i].end == NextCut(batches[i].start, high, width)
          && batches[i].upper == UpperBound(a, postings, batches[i].start, batches[i].end))
    && (forall i, j :: 0 <= i < j < |batches| ==> batches[i].end <= batches[j].start)
    && (forall id :: low <= id < mid ==> (Covers(batches, id) <==> Kept(a, postings, low, high, width, id)))
  }

  lemma CoversMore(batches: seq<Batch>, b: Batch, id: PointId)
    ensures Covers(batches + [b], id) <==> Covers(batches, id) || b.start <= id < b.end
  {
    var longer := batches + [b];
    if Covers(batches, id) {
      var i :| 0 <= i < |batches| && batches[i].start <= id < batches[i].end;
      assert longer[i] == batches[i];
    }
    assert longer[|batches|] == b;
  }

  // The range that begins at mid is its identities' range.
  ghost predicate Aligned(low: nat, mid: nat, high: nat, width: nat)
    requires width > 0 && low <= mid
  {
    forall id :: mid <= id < high ==> RangeStart(low, high, width, id) == RangeStart(mid, high, width, id)
  }

  lemma GrowCovers(a: Arithmetic, postings: seq<Posting>, width: nat, batches: seq<Batch>, low: nat, mid: nat,
                   high: nat, id: PointId)
    requires width > 0 && low <= mid < high && Aligned(low, mid, high, width)
    requires IsPlan(a, postings, width, batches, low, mid, high) && low <= id < NextCut(mid, high, width)
    ensures
      var end := NextCut(mid, high, width);
      Kept(a, postings, low, high, width, id) <==>
        Covers(batches, id) || (UpperBound(a, postings, mid, end) > 0.0 && mid <= id)
  {
    if mid <= id { assert RangeStart(low, high, width, id) == RangeStart(mid, high, width, id) == mid; }
  }

  lemma GrowPlan(a: Arithmetic, postings: seq<Posting>, width: nat, batches: seq<Batch>, low: nat, mid: nat, high: nat)
    requires width > 0 && low <= mid < high && Aligned(low, mid, high, width)
    requires IsPlan(a, postings, width, batches, low, mid, high)
    ensures
      var end := NextCut(mid, high, width);
      if UpperBound(a, postings, mid, end) > 0.0
      then IsPlan(a, postings, width, batches + [Batch(mid, end, UpperBound(a, postings, mid, end))], low, end, high)
      else IsPlan(a, postings, width, batches, low, end, high)
  {
    var end := NextCut(mid, high, width);
    var b := Batch(mid, end, UpperBound(a, postings, mid, end));
    assert RangeStart(low, high, width, mid) == RangeStart(mid, high, width, mid) == mid;
    forall id | low <= id < end
      ensures Kept(a, postings, low, high, width, id) <==>
        if UpperBound(a, postings, mid, end) > 0.0 then Covers(batches + [b], id) else Covers(batches, id)
    {
      GrowCovers(a, postings, width, batches, low, mid, high, id);
      CoversMore(batches, b, id);
    }
  }

  // Walks the identities in steps of the batch width and keeps the ranges whose
  // bound is positive.
  method PlanBatches(a: Arithmetic, postings: seq<Posting>, low: nat, high: nat, width: nat)
      returns (batches: seq<Batch>)
    requires width > 0 && low <= high
    ensures IsPlan(a, postings, width, batches, low, high, high)
  {
    batches := [];
    var start := low;
    while start < high
      invariant low <= start <= high && IsPlan(a, postings, width, batches, low, start, high)
      invariant Aligned(low, start, high, width)
      decreases high - start
    {
      var end := NextCut(start, high, width);
      var upper := SumMaxima(a, postings, start, end);
      GrowPlan(a, postings, width, batches, low, start, high);
      if upper > 0.0 { batches := batches + [Batch(start, end, upper)]; }
      start := end;
    }
  }

  // The bound of one range, term by term.
  method SumMaxima(a: Arithmetic, postings: seq<Posting>, start: nat, end: nat) returns (upper: real)
    ensures upper == UpperBound(a, postings, start, end)
  {
    upper := 0.0;
    for i := 0 to |postings|
      invariant upper == UpperBound(a, postings[..i], start, end)
    {
      assert postings[..i + 1][..i] == postings[..i];
      upper := Plus(a, upper, Term(a, postings[i].maximum(start, end), postings[i].queryWeight));
    }
    assert postings[..|postings|] == postings;
  }

  // Where the ranges begin.
  function Cuts(start: nat, high: nat, width: nat): (cuts: seq<nat>)
    requires width > 0
    ensures forall i :: 0 <= i < |cuts| ==> start <= cuts[i] < high
    decreases high - start
  {
    if start < high then [start] + Cuts(NextCut(start, high, width), high, width) else []
  }

  ghost predicate BoundsSoFar(a: Arithmetic, postings: seq<Posting>, n: nat, high: nat, width: nat, cuts: seq<nat>,
                              bounds: seq<real>)
    requires n <= |postings|
  {
    && |bounds| == |cuts|
    && forall r :: 0 <= r < |cuts| ==>
         bounds[r] == UpperBound(a, postings[..n], cuts[r], NextCut(cuts[r], high, width))
  }

  // One term adds its maximum to the bound of every range.
  method AddMaxima(a: Arithmetic, postings: seq<Posting>, n: nat, high: nat, width: nat, cuts: seq<nat>,
                   bounds: array<real>)
    requires n < |postings| && BoundsSoFar(a, postings, n, high, width, cuts, bounds[..])
    modifies bounds
    ensures BoundsSoFar(a, postings, n + 1, high, width, cuts, bounds[..])
  {
    var p := postings[n];
    assert postings[..n + 1][..n] == postings[..n];
    for r := 0 to |cuts|
      invariant forall t :: r <= t < |cuts| ==>
        bounds[t] == UpperBound(a, postings[..n], cuts[t], NextCut(cuts[t], high, width))
      invariant forall t :: 0 <= t < r ==>
        bounds[t] == UpperBound(a, postings[..n + 1], cuts[t], NextCut(cuts[t], high, width))
    {
      bounds[r] := Plus(a, bounds[r], Term(a, p.maximum(cuts[r], NextCut(cuts[r], high, width)), p.queryWeight));
    }
  }

  // The planner that asks every term once for its maxima of all ranges makes the
  // same kind of plan.
  method PlanBatchesNative(a: Arithmetic, postings: seq<Posting>, low: nat, high: nat, width: nat)
      returns (batches: seq<Batch>)
    requires Faithful(a) && Weighted(postings) && width > 0 && low <= high
    ensures IsPlan(a, postings, width, batches, low, high, high)
  {
    var cuts := Cuts(low, high, width);
    var bounds := new real[|cuts|](_ => 0.0);
    for n := 0 to |postings|
      invariant BoundsSoFar(a, postings, n, high, width, cuts, bounds[..])
    {
      AddMaxima(a, postings, n, high, width, cuts, bounds);
    }
    assert postings[..|postings|] == postings;
    batches := KeepPositive(a, postings, low, high, width, cuts, bounds[..]);
  }

  method KeepPositive(a: Arithmetic, postings: seq<Posting>, low: nat, high: nat, width: nat, cuts: seq<nat>,
                      bounds: seq<real>)
      returns (batches: seq<Batch>)
    requires Faithful(a) && Weighted(postings) && width > 0 && low <= high && cuts == Cuts(low, high, width)
    requires BoundsSoFar(a, postings, |postings|, high, width, cuts, bounds)
    ensures IsPlan(a, postings, width, batches, low, high, high)
  {
    assert postings[..|postings|] == postings;
    batches := [];
    ghost var start := low;
    for r := 0 to |cuts|
      invariant low <= start <= high && cuts[r..] == Cuts(start, high, width)
      invariant IsPlan(a, postings, width, batches, low, start, high) && Aligned(low, start, high, width)
    {
      assert cuts[r] == start && cuts[r + 1..] == cuts[r..][1..];
      var end := NextCut(cuts[r], high, width);
      GrowPlan(a, postings, width, batches, low, start, high);
      BoundNotNegative(a, postings, start, end);
      if bounds[r] != 0.0 { batches := batches + [Batch(cuts[r], end, bounds[r])]; }
      start := end;
    }
  }

  // ---------------------------------------------------------------------
  // What the plan can lose

  // No term has a negative impact anywhere.
  ghost predicate NonNegative(postings: seq<Posting>) {
    forall i, id :: 0 <= i < |postings| ==> Impact(postings[i], id) >= 0.0
  }

  lemma {:induction false} ScoreSign(a: Arithmetic, postings: seq<Posting>, id: PointId)
    requires Faithful(a) && Weighted(postings) && NonNegative(postings)
    ensures Score(a, postings, id) >= 0.0
    decreases |postings|
  {
    if postings != [] {
      var p, rest := postings[|postings| - 1], postings[..|postings| - 1];
      var sum, term := Score(a, rest, id), Term(a, Impact(p, id), p.queryWeight);
      assert sum >= 0.0 by { ScoreSign(a, rest, id); }
      assert a.round(sum) == sum by { ScoreFixed(a, rest, id); }
      assert term >= 0.0 && a.round(term) == term by { TermNotNegative(a, Impact(p, id), p.queryWeight); }
      PlusSign(a, sum, term);
    }
  }

  lemma TermNotNegative(a: Arithmetic, x: real, c: real)
    requires Faithful(a) && x >= 0.0 && c >= 0.0
    ensures Term(a, x, c) >= 0.0 && a.round(Term(a, x, c)) == Term(a, x, c)
  {
    var p := x * c;
    ProductSign(x, c, p);
    RoundMonotone(a, 0.0, p);
  }

  // Whatever is left out scores zero or less; without negative impacts it
  // scores zero.
  lemma LeftOutScores(a: Arithmetic, postings: seq<Posting>, low: nat, high: nat, width: nat, id: PointId)
    requires Faithful(a) && Weighted(postings) && low <= id < high && width > 0
      && !Kept(a, postings, low, high, width, id)
    ensures Score(a, postings, id) <= 0.0
    ensures NonNegative(postings) ==> Score(a, postings, id) == 0.0
  {
    var start := RangeStart(low, high, width, id);
    ScoreBelowBound(a, postings, start, NextCut(start, high, width), id);
    if NonNegative(postings) { ScoreSign(a, postings, id); }
  }

  // Without negative impacts the plan covers every point that scores.
  lemma NonNegativePlanIsComplete(a: Arithmetic, postings: seq<Posting>, width: nat, batches: seq<Batch>, low: nat,
                                  high: nat, id: PointId)
    requires Faithful(a) && width > 0 && low <= id < high && Weighted(postings) && NonNegative(postings)
    requires IsPlan(a, postings, width, batches, low, high, high)
    ensures Score(a, postings, id) != 0.0 ==> Covers(batches, id)
  {
    if !Kept(a, postings, low, high, width, id) { LeftOutScores(a, postings, low, high, width, id); }
  }

  // With a negative impact a point that scores can be lost: nothing in its
  // range contributes.
  lemma NegativeIsLost(a: Arithmetic, postings: seq<Posting>)
    requires Faithful(a) && a.round(-1.0) == -1.0 && ExactMaxima(postings)
    requires |postings| == 1 && postings[0].weights == map[3 := -1.0] && postings[0].queryWeight == 1.0
    ensures Score(a, postings, 3) == -1.0 && !Kept(a, postings, 3, 4, 1, 3)
  {
    var p := postings[0];
    assert a.round(0.0) <= a.round(1.0) <= a.top;
    assert postings[..0] == [];
    assert Score(a, postings, 3) == Plus(a, Score(a, [], 3), Term(a, Impact(p, 3), 1.0));
    assert Weighted(postings) by { ExactIsBounding(postings); }
    forall id ensures !Contributes(a, p, id) {
      TermMonotone(a, Impact(p, id), 0.0, 1.0);
    }
    KeptExactly(a, postings, 3, 4, 1, 3);
  }

  // ---------------------------------------------------------------------
  // The identities that the terms of a query store

  ghost function Stored(postings: seq<Posting>): set<PointId> {
    set i, id | 0 <= i < |postings| && id in postings[i].weights :: id
  }

  ghost function Least(ids: set<PointId>): (m: PointId)
    requires ids != {}
    ensures m in ids && forall id :: id in ids ==> m <= id
  {
    var x :| x in ids;
    if ids == {x} then x else
    var m := Least(ids - {x});
    assert forall id :: id in ids ==> id == x || id in ids - {x};
    if x < m then x else m
  }

  ghost function Greatest(ids: set<PointId>): (m: PointId)
    requires ids != {}
    ensures m in ids && forall id :: id in ids ==> id <= m
  {
    var x :| x in ids;
    if ids == {x} then x else
    var m := Greatest(ids - {x});
    assert forall id :: id in ids ==> id == x || id in ids - {x};
    if x > m then x else m
  }

  ghost function Low(postings: seq<Posting>): PointId {
    if Stored(postings) == {} then 0 else Least(Stored(postings))
  }

  // One after the largest stored identity.
  ghost function High(postings: seq<Posting>): (high: PointId)
    ensures Low(postings) <= high
  {
    if Stored(postings) == {} then 0 else Greatest(Stored(postings)) + 1
  }

  // The first and the last identity of a term.
  method Ends(ids: set<PointId>) returns (first: PointId, last: PointId)
    requires ids != {}
    ensures first in ids && last in ids && forall id :: id in ids ==> first <= id <= last
  {
    first :| first in ids;
    last := first;
    var rest := ids;
    while rest != {}
      invariant rest <= ids && first in ids && last in ids
      invariant forall id :: id in ids && id !in rest ==> first <= id <= last
      invariant first <= last
      decreases rest
    {
      var id :| id in rest;
      if id < first { first := id; }
      if id > last { last := id; }
      rest := rest - {id};
    }
  }

  ghost predicate Spans(ids: set<PointId>, low: PointId, high: PointId) {
    && (forall id :: id in ids ==> low <= id < high)
    && (low == high == 0 || (0 < high && low in ids && high - 1 in ids))
  }

  lemma OneTermMore(postings: seq<Posting>, n: nat, id: PointId)
    requires n < |postings|
    ensures id in Stored(postings[..n + 1]) <==> id in Stored(postings[..n]) || id in postings[n].weights
  {
    if id in Stored(postings[..n]) {
      var i :| 0 <= i < |postings[..n]| && id in postings[..n][i].weights;
      assert postings[..n + 1][i] == postings[..n][i];
    }
    if id in Stored(postings[..n + 1]) {
      var i :| 0 <= i < |postings[..n + 1]| && id in postings[..n + 1][i].weights;
      if i < n { assert postings[..n][i] == postings[..n + 1][i]; }
    }
    assert postings[..n + 1][n] == postings[n];
  }

  // The span the plan cuts into ranges.
  method Span(postings: seq<Posting>) returns (low: PointId, high: PointId)
    ensures low == Low(postings) && high == High(postings)
  {
    low, high := 0, 0;
    for n := 0 to |postings|
      invariant Spans(Stored(postings[..n]), low, high)
    {
      ghost var before, ids := Stored(postings[..n]), postings[n].weights.Keys;
      assert Stored(postings[..n + 1]) == before + ids by {
        forall id ensures id in Stored(postings[..n + 1]) <==> id in before + ids {
          OneTermMore(postings, n, id);
        }
      }
      if postings[n].weights.Keys != {} {
        var first, last := Ends(postings[n].weights.Keys);
        if high == 0 {
          low, high := first, last + 1;
        } else {
          low := if first < low then first else low;
          high := if last + 1 > high then last + 1 else high;
        }
      }
      assert Spans(before + ids, low, high);
    }
    assert postings[..|postings|] == postings;
  }

  lemma {:induction false} OutsideScores(a: Arithmetic, postings: seq<Posting>, id: PointId)
    requires Faithful(a) && id !in Stored(postings)
    ensures Score(a, postings, id) == 0.0
    decreases |postings|
  {
    if postings != [] {
      var n := |postings| - 1;
      assert postings[..n + 1] == postings;
      OneTermMore(postings, n, id);
      OutsideScores(a, postings[..n], id);
      assert Term(a, Impact(postings[n], id), postings[n].queryWeight) == a.round(0.0);
      PlusFixed(a, 0.0, 0.0);
    }
  }
}
