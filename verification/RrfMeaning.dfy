// What the fused scores and the fused order are in numbers.
//
// Where nothing is rounded a contribution is w / (rank + w (k - 1)), a fused score
// is the sum of the contributions, and the Top-K is that of these sums.
//
// Source: lib/segment/src/common/reciprocal_rank_fusion/scoring.rs
module RrfMeaning {
  import opened Common
  import opened RrfScoring

  // ---------------------------------------------------------------------
  // One contribution

  // Weight over rank plus weight times (k - 1).
  function Plain(position: nat, k: nat, weight: real): real
    requires k > 0
  {
    if weight <= 0.0 then 0.0 else
    WholeIsPositive((position + 1) as real, k as real, weight);
    weight / ((position + 1) as real + weight * (k as real - 1.0))
  }

  lemma WholeIsPositive(rank: real, k: real, weight: real)
    requires rank > 0.0 && k >= 1.0 && weight > 0.0
    ensures rank + weight * (k - 1.0) > 0.0
  {
    NotPositive(1.0 - k, weight);
    assert (1.0 - k) * weight == -(weight * (k - 1.0));
  }

  lemma NotPositive(q: real, weight: real)
    requires q <= 0.0 && weight > 0.0
    ensures q * weight <= 0.0
  {
  }

  // Divided as the source divides: one over rank / weight + k - 1.
  lemma Divided(rank: real, k: real, weight: real) returns (q: real, d: real)
    requires rank > 0.0 && k >= 1.0 && weight > 0.0
    ensures q == rank / weight && q >= 0.0 && d == q + k - 1.0 && d > 0.0
    ensures rank + weight * (k - 1.0) > 0.0 && 1.0 / d == weight / (rank + weight * (k - 1.0))
  {
    WholeIsPositive(rank, k, weight);
    q := rank / weight;
    d := q + k - 1.0;
    var whole := rank + weight * (k - 1.0);
    assert q >= 0.0 by { DivideMonotone(0.0, rank, weight); }
    assert d * weight == whole by {
      assert q * weight == rank;
      assert (q + (k - 1.0)) * weight == q * weight + (k - 1.0) * weight;
    }
    assert d > 0.0 by { if d <= 0.0 { NotPositive(d, weight); } }
    SameQuotient(d, weight, whole);
  }

  lemma SameQuotient(d: real, weight: real, whole: real)
    requires d > 0.0 && whole > 0.0 && d * weight == whole
    ensures 1.0 / d == weight / whole
  {
    var r := 1.0 / d;
    assert r * d == 1.0;
    assert r * whole == (r * d) * weight;
    assert r * whole / whole == r;
  }

  // Nothing is rounded on the way to the contribution.
  ghost predicate Untouched(a: Arithmetic, position: nat, k: nat, weight: real)
    requires k > 0
  {
    weight > 0.0 ==>
      var rank, q, kr := (position + 1) as real, (position + 1) as real / weight, k as real;
      && a.round(rank) == rank && a.round(q) == q && a.round(kr) == kr && a.round(q + kr) == q + kr < a.top
      && a.round(q + kr - 1.0) == q + kr - 1.0 && a.round(Plain(position, k, weight)) == Plain(position, k, weight)
  }

  // Then it is that quotient.
  lemma ContributionIsPlain(a: Arithmetic, position: nat, k: nat, weight: real)
    requires k > 0 && Untouched(a, position, k, weight)
    ensures PositionScore(a, position, k, weight) == Plain(position, k, weight)
  {
    if weight > 0.0 {
      var q, d := Divided((position + 1) as real, k as real, weight);
      assert 1.0 / d == Plain(position, k, weight) && Denominator(a, position, k, weight) == d;
    }
  }

  // Times its denominator it is the weight.
  lemma PlainLaw(position: nat, k: nat, weight: real)
    requires k > 0 && weight > 0.0
    ensures Plain(position, k, weight) * ((position + 1) as real + weight * (k as real - 1.0)) == weight
  {
    WholeIsPositive((position + 1) as real, k as real, weight);
  }

  lemma ContributionLaw(a: Arithmetic, position: nat, k: nat, weight: real)
    requires k > 0 && weight > 0.0 && Untouched(a, position, k, weight)
    ensures PositionScore(a, position, k, weight) * ((position + 1) as real + weight * (k as real - 1.0)) == weight
  {
    ContributionIsPlain(a, position, k, weight);
    PlainLaw(position, k, weight);
  }

  // Arithmetic that rounds nothing below its largest number leaves untouched
  // what stays below.
  lemma BelowTheTop(a: Arithmetic, position: nat, k: nat, weight: real)
    requires Exact(a) && k > 0 && weight > 0.0
    requires (position + 1) as real < a.top && (position + 1) as real / weight + k as real < a.top
    requires Plain(position, k, weight) < a.top
    ensures Untouched(a, position, k, weight)
  {
    var q, rank := (position + 1) as real / weight, (position + 1) as real;
    assert q >= 0.0 by { DivideMonotone(0.0, rank, weight); }
    assert k as real >= 1.0;
  }

  // A rank that overflows contributes nothing, and a sum that overflowed stays so.
  lemma Overflow(a: Arithmetic, position: nat, k: nat, weight: real, x: real)
    requires Faithful(a) && weight > 0.0
    ensures a.round(a.round((position + 1) as real) / weight) == a.top ==> PositionScore(a, position, k, weight) == 0.0
    ensures Plus(a, a.top, x) == a.top
  {
    assert a.round(a.top + a.round(k as real)) == a.top;
  }

  // For every rounding a larger k never raises a contribution.
  lemma ContributionFallsWithK(a: Arithmetic, position: nat, k: nat, l: nat, weight: real)
    requires Faithful(a) && 0 < k <= l
    ensures PositionScore(a, position, l, weight) <= PositionScore(a, position, k, weight)
  {
    if weight > 0.0 {
      var q := a.round(a.round((position + 1) as real) / weight);
      var s, t := a.round(q + a.round(k as real)), a.round(q + a.round(l as real));
      assert a.round(k as real) <= a.round(l as real) && s <= t && s - 1.0 <= t - 1.0;
      DenominatorSign(a, position, k, weight);
      ReciprocalAntitone(a, Denominator(a, position, k, weight), Denominator(a, position, l, weight));
    }
  }

  // Nor does a larger weight lower it.
  lemma ContributionGrowsWithWeight(a: Arithmetic, position: nat, k: nat, v: real, w: real)
    requires Faithful(a) && k > 0 && v <= w
    ensures PositionScore(a, position, k, v) <= PositionScore(a, position, k, w)
  {
    PositionScoreAntitone(a, position, position, k, w);
    if v > 0.0 {
      var rank := a.round((position + 1) as real);
      assert a.round(0.0) <= rank;
      SmallerShare(rank, v, w);
      var p, q, kr := a.round(rank / w), a.round(rank / v), a.round(k as real);
      assert p <= q && p + kr <= q + kr && a.round(p + kr) <= a.round(q + kr);
      assert a.round(p + kr) - 1.0 <= a.round(q + kr) - 1.0;
      DenominatorSign(a, position, k, w);
      ReciprocalAntitone(a, Denominator(a, position, k, w), Denominator(a, position, k, v));
    }
  }

  lemma SmallerShare(x: real, v: real, w: real)
    requires x >= 0.0 && 0.0 < v <= w
    ensures x / w <= x / v
  {
    var r := x / v;
    assert r * v == x;
    assert r >= 0.0 by { DivideMonotone(0.0, x, v); }
    TimesAtLeastLeft(r, v, w);
    DivideMonotone(x, r * w, w);
    assert r * w / w == r;
  }

  lemma TimesAtLeastLeft(r: real, v: real, w: real)
    requires r >= 0.0 && v <= w
    ensures r * v <= r * w
  {
    assert r * (w - v) == r * w - r * v;
    assert r * (w - v) >= 0.0;
  }

  // ---------------------------------------------------------------------
  // Fused scores

  // What the first n channels contribute.
  function PlainSum(k: nat, weights: seq<real>, channels: Channels, id: PointId, n: nat): real
    requires k > 0 && n <= |channels| == |weights|
  {
    if n == 0 then 0.0 else
    PlainSum(k, weights, channels, id, n - 1)
    + if id in channels[n - 1] then Plain(IndexOf(channels[n - 1], id), k, weights[n - 1]) else 0.0
  }

  function PlainScore(k: nat, weights: seq<real>, channels: Channels, id: PointId): real
    requires k > 0 && |channels| == |weights|
  {
    PlainSum(k, weights, channels, id, |channels|)
  }

  // Neither a contribution nor a sum is rounded.
  ghost predicate Unrounded(f: Fusion, channels: Channels)
    requires f.k > 0 && |channels| == |f.weights|
  {
    && (forall s, p :: 0 <= s < |channels| && 0 <= p < |channels[s]| ==> Untouched(f.arith, p, f.k, f.weights[s]))
    && forall id: PointId, n :: 0 <= n <= |channels| ==>
         var sum := PlainSum(f.k, f.weights, channels, id, n); f.arith.round(sum) == sum
  }

  lemma TermIsPlain(f: Fusion, channels: Channels, id: PointId, s: nat)
    requires f.k > 0 && |channels| == |f.weights| && Unrounded(f, channels) && s < |channels|
    ensures Filled(Row(f, channels, id), Zeros(|f.weights|))[s] ==
      if id in channels[s] then Plain(IndexOf(channels[s], id), f.k, f.weights[s]) else 0.0
  {
    if id in channels[s] {
      var p := IndexOf(channels[s], id);
      assert Untouched(f.arith, p, f.k, f.weights[s]);
      ContributionIsPlain(f.arith, p, f.k, f.weights[s]);
    }
  }

  ghost function Terms(f: Fusion, channels: Channels, id: PointId): seq<real>
    requires |channels| == |f.weights|
  {
    Filled(Row(f, channels, id), Zeros(|f.weights|))
  }

  lemma {:induction false} SumIsPlain(f: Fusion, channels: Channels, id: PointId, n: nat)
    requires f.k > 0 && n <= |channels| == |f.weights| && Unrounded(f, channels)
    ensures Accumulate(f.arith, Terms(f, channels, id), n) == PlainSum(f.k, f.weights, channels, id, n)
    decreases n
  {
    if n > 0 {
      SumIsPlain(f, channels, id, n - 1);
      TermIsPlain(f, channels, id, n - 1);
    }
  }

  // Without rounding the fused score is the sum of the contributions.
  lemma FusedIsPlain(f: Fusion, channels: Channels, id: PointId)
    requires f.k > 0 && |channels| == |f.weights| && Unrounded(f, channels)
    ensures FusedScore(f, channels, id) == PlainScore(f.k, f.weights, channels, id)
  {
    SumIsPlain(f, channels, id, |channels|);
  }

  // ---------------------------------------------------------------------
  // The Top-K

  // Higher sums first, smaller identities among equals.
  ghost predicate Leads(k: nat, weights: seq<real>, channels: Channels, x: PointId, y: PointId)
    requires k > 0 && |channels| == |weights|
  {
    var s, t := PlainScore(k, weights, channels, x), PlainScore(k, weights, channels, y);
    s > t || (s == t && x < y)
  }

  ghost predicate IsPlainTopK(k: nat, weights: seq<real>, channels: Channels, limit: nat, ids: seq<PointId>)
    requires k > 0 && |channels| == |weights|
  {
    && |ids| <= limit
    && (forall i :: 0 <= i < |ids| ==> PlainScore(k, weights, channels, ids[i]) > 0.0)
    && (forall i, j :: 0 <= i < j < |ids| ==> Leads(k, weights, channels, ids[i], ids[j]))
    && (forall i, id: PointId :: 0 <= i < |ids| && id !in ids ==> Leads(k, weights, channels, ids[i], id))
    && (|ids| < limit ==> forall id: PointId :: id !in ids ==> PlainScore(k, weights, channels, id) <= 0.0)
  }

  // The exact Top-K is the Top-K of the sums.
  lemma TopKIsPlain(f: Fusion, channels: Channels, limit: nat, ids: seq<PointId>)
    requires f.k > 0 && |channels| == |f.weights| && Unrounded(f, channels)
    ensures IsTopK(f, channels, limit, ids) <==> IsPlainTopK(f.k, f.weights, channels, limit, ids)
  {
    forall id: PointId ensures FusedScore(f, channels, id) == PlainScore(f.k, f.weights, channels, id) {
      FusedIsPlain(f, channels, id);
    }
    forall x: PointId, y: PointId
      ensures FusedBefore(f, channels, x, y) <==> Leads(f.k, f.weights, channels, x, y)
    {
    }
  }
}
