// What sparse scores, bounds and ranges are in numbers.
//
// Sources: lib/sparse/src/index/posting_batch.rs, posting_block_max/kernel.rs
module SparseMeaning {
  import opened Common
  import opened RrfScoring
  import opened SparsePlan
  import opened ScalarCertificate
  import opened SparseRank

  // ---------------------------------------------------------------------
  // Scores and bounds as dot products

  function QueryWeights(postings: seq<Posting>): (ws: seq<real>)
    ensures |ws| == |postings|
  {
    seq(|postings|, i requires 0 <= i < |postings| => postings[i].queryWeight)
  }

  // The point's impact in every term, zero where it has none.
  function Impacts(postings: seq<Posting>, id: PointId): (xs: seq<real>)
    ensures |xs| == |postings|
  {
    seq(|postings|, i requires 0 <= i < |postings| =>
      if id in postings[i].weights then postings[i].weights[id] else 0.0)
  }

  // What every term reports as its largest impact in a range.
  function Maxima(postings: seq<Posting>, start: nat, end: nat): (xs: seq<real>)
    ensures |xs| == |postings|
  {
    seq(|postings|, i requires 0 <= i < |postings| => postings[i].maximum(start, end))
  }

  // Neither a product nor a partial sum is rounded.
  ghost predicate Unrounded(a: Arithmetic, xs: Vector, ws: Vector)
    requires |ws| == |xs|
  {
    && (forall i :: 0 <= i < |xs| ==> RoundsTo(a, Times(xs[i], ws[i])))
    && (forall n :: 0 <= n <= |xs| ==> RoundsTo(a, Products(xs, ws, n)) && Products(xs, ws, n) < a.top)
  }

  function Times(x: real, w: real): real {
    x * w
  }

  ghost predicate RoundsTo(a: Arithmetic, x: real) {
    a.round(x) == x
  }

  // Adding one more product to a sum, neither of them rounded.
  lemma PlusTerm(a: Arithmetic, xs: Vector, ws: Vector, m: nat)
    requires m < |xs| == |ws| && Unrounded(a, xs, ws)
    ensures Plus(a, Products(xs, ws, m), Term(a, xs[m], ws[m])) == Products(xs, ws, m + 1)
  {
    var t, sum, next := Times(xs[m], ws[m]), Products(xs, ws, m), Products(xs, ws, m + 1);
    assert RoundsTo(a, t) && RoundsTo(a, next) && RoundsTo(a, sum) && next == sum + t;
    assert Term(a, xs[m], ws[m]) == t;
  }

  // Without rounding a point's score is the dot product of its impacts with the
  // query weights.
  lemma {:induction false} ScoreIsSum(a: Arithmetic, postings: seq<Posting>, id: PointId, n: nat)
    requires n <= |postings| && Unrounded(a, Impacts(postings, id), QueryWeights(postings))
    ensures Score(a, postings[..n], id) == Products(Impacts(postings, id), QueryWeights(postings), n)
    decreases n
  {
    if n > 0 {
      var xs, ws, m := Impacts(postings, id), QueryWeights(postings), n - 1;
      ScoreIsSum(a, postings, id, m);
      assert postings[..n][..m] == postings[..m] && postings[..n][m] == postings[m];
      assert Impact(postings[m], id) == xs[m];
      PlusTerm(a, xs, ws, m);
    }
  }

  lemma ScoreIsDot(a: Arithmetic, postings: seq<Posting>, id: PointId)
    requires Unrounded(a, Impacts(postings, id), QueryWeights(postings))
    ensures Score(a, postings, id) == Dot(Impacts(postings, id), QueryWeights(postings))
  {
    ScoreIsSum(a, postings, id, |postings|);
    assert postings[..|postings|] == postings;
    DotIsSum(Impacts(postings, id), QueryWeights(postings));
  }

  // So is the bound of a range, with the reported maxima.
  lemma {:induction false} BoundIsSum(a: Arithmetic, postings: seq<Posting>, start: nat, end: nat, n: nat)
    requires n <= |postings| && Unrounded(a, Maxima(postings, start, end), QueryWeights(postings))
    ensures UpperBound(a, postings[..n], start, end) ==
            Products(Maxima(postings, start, end), QueryWeights(postings), n)
    decreases n
  {
    if n > 0 {
      var xs, ws, m := Maxima(postings, start, end), QueryWeights(postings), n - 1;
      BoundIsSum(a, postings, start, end, m);
      assert postings[..n][..m] == postings[..m] && postings[..n][m] == postings[m];
      PlusTerm(a, xs, ws, m);
    }
  }

  lemma BoundIsDot(a: Arithmetic, postings: seq<Posting>, start: nat, end: nat)
    requires Unrounded(a, Maxima(postings, start, end), QueryWeights(postings))
    ensures UpperBound(a, postings, start, end) == Dot(Maxima(postings, start, end), QueryWeights(postings))
  {
    BoundIsSum(a, postings, start, end, |postings|);
    assert postings[..|postings|] == postings;
    DotIsSum(Maxima(postings, start, end), QueryWeights(postings));
  }

  // The buffer that all postings were added to holds these products.
  lemma BufferIsDot(a: Arithmetic, postings: seq<Posting>, start: nat, scores: seq<real>, k: nat)
    requires HoldsScores(a, postings, |postings|, start, scores) && k < |scores|
    requires Unrounded(a, Impacts(postings, start + k), QueryWeights(postings))
    ensures scores[k] == Dot(Impacts(postings, start + k), QueryWeights(postings))
  {
    assert postings[..|postings|] == postings;
    ScoreIsDot(a, postings, start + k);
  }

  lemma LeftOrder(x: real, v: real, w: real, p: real, q: real)
    requires x >= 0.0 && v <= w && p == x * v && q == x * w
    ensures p <= q
  {
    assert x * (w - v) == x * w - x * v;
    assert x * (w - v) >= 0.0;
  }

  // For every rounding a larger query weight never lowers the term of a
  // non-negative impact.
  lemma TermGrowsWithWeight(a: Arithmetic, impact: real, v: real, w: real)
    requires Faithful(a) && impact >= 0.0 && v <= w
    ensures Term(a, impact, v) <= Term(a, impact, w)
  {
    var p, q := impact * v, impact * w;
    LeftOrder(impact, v, w, p, q);
    assert a.round(p) <= a.round(q);
  }

  // ---------------------------------------------------------------------
  // Ranges

  // The ranges are consecutive and of the batch width, counted from the least
  // identity; the last one ends with the largest.
  lemma {:induction false} RangeStartIsMultiple(low: nat, high: nat, width: nat, id: PointId)
    requires low <= id < high && width > 0
    ensures RangeStart(low, high, width, id) == low + (id - low) / width * width
    decreases high - low
  {
    if id < NextCut(low, high, width) {
      Quotients(id - low, width, 0);
    } else {
      RangeStartIsMultiple(low + width, high, width, id);
      OneMore(id - low, width);
    }
  }

  lemma OneMore(x: nat, width: nat)
    requires 0 < width <= x
    ensures x / width * width == width + (x - width) / width * width
  {
    var q := (x - width) / width;
    assert q * width <= x - width < (q + 1) * width;
    assert (q + 1) * width == q * width + width && (q + 2) * width == (q + 1) * width + width;
    Quotients(x, width, q + 1);
  }

  lemma Quotients(x: nat, width: nat, q: nat)
    requires width > 0 && q * width <= x < (q + 1) * width
    ensures x / width == q
  {
    var p := x / width;
    assert p * width <= x < (p + 1) * width;
    if p < q { Multiples(p + 1, q, width); }
    if q < p { Multiples(q + 1, p, width); }
  }

  lemma Multiples(p: nat, q: nat, width: nat)
    requires p <= q
    ensures p * width <= q * width
  {
    assert (q - p) * width >= 0;
  }

  lemma PlanIsCut(a: Arithmetic, postings: seq<Posting>, width: nat, batches: seq<Batch>, low: nat, high: nat, i: nat)
    requires width > 0 && low <= high && IsPlan(a, postings, width, batches, low, high, high) && i < |batches|
    ensures (batches[i].start - low) % width == 0
    ensures batches[i].end == if batches[i].start + width < high then batches[i].start + width else high
  {
    RangeStartIsMultiple(low, high, width, batches[i].start);
    Remainder(batches[i].start - low, width);
  }

  lemma Remainder(x: nat, width: nat)
    requires width > 0 && x == x / width * width
    ensures x % width == 0
  {
    assert x == x / width * width + x % width;
  }
}
