// Weighted reciprocal rank fusion: scores, the fused order, and the exhaustive
// computation that defines what an exact answer is.
//
// Source: lib/segment/src/common/reciprocal_rank_fusion/scoring.rs
module RrfScoring {
  import opened Common
  import opened RankOrder

  // Single-precision arithmetic on the non-negative numbers, described by what
  // the fusion relies on: `round` is the rounding of an exact result to a
  // representable number and `top` stands for +infinity.
  datatype Arithmetic = Arithmetic(round: real -> real, top: real)

  ghost predicate Faithful(a: Arithmetic) {
    && (forall x: real, y: real :: x <= y ==> a.round(x) <= a.round(y))
    && (forall x: real {:trigger a.round(a.round(x))} :: a.round(a.round(x)) == a.round(x))
    && (forall x: real :: a.round(x) <= a.top)
    && a.round(0.0) == 0.0
    && a.round(1.0) == 1.0
    && a.round(a.top) == a.top
  }

  // Nothing below the largest number is rounded.
  ghost predicate Exact(a: Arithmetic) {
    Faithful(a) && forall x: real :: x < a.top ==> a.round(x) == x
  }

  // Real numbers that saturate at `top` are one instance.
  lemma ExactArithmeticIsFaithful(top: real)
    requires top >= 1.0
    ensures Exact(Arithmetic(x => if x <= top then x else top, top))
  {
  }

  function Reciprocal(a: Arithmetic, d: real): real {
    if d == 0.0 then a.top else if d >= a.top then 0.0 else a.round(1.0 / d)
  }

  // A sum that has reached infinity stays there.
  function Plus(a: Arithmetic, x: real, y: real): real {
    if x >= a.top then a.top else a.round(x + y)
  }

  lemma PlusIsRounded(a: Arithmetic, x: real, y: real)
    requires Faithful(a) && y >= 0.0
    ensures Plus(a, x, y) == a.round(x + y)
  {
    assert x >= a.top ==> a.round(a.top) <= a.round(x + y) <= a.top;
  }

  function Denominator(a: Arithmetic, position: nat, k: nat, weight: real): real
    requires weight > 0.0
  {
    var rank := a.round((position + 1) as real);
    var sum := a.round(a.round(rank / weight) + a.round(k as real));
    if sum >= a.top then a.top else a.round(sum - 1.0)
  }

  function PositionScore(a: Arithmetic, position: nat, k: nat, weight: real): real {
    if weight <= 0.0 then 0.0 else Reciprocal(a, Denominator(a, position, k, weight))
  }

  lemma DivideMonotone(x: real, y: real, w: real)
    requires x <= y && w > 0.0
    ensures x / w <= y / w
  {
    assert (y - x) / w >= 0.0;
    assert y / w == x / w + (y - x) / w;
  }

  lemma InverseAntitone(d: real, e: real)
    requires 0.0 < d <= e
    ensures 0.0 < 1.0 / e <= 1.0 / d
  {
    var r := 1.0 / d;
    assert r * e >= r * d == 1.0;
    DivideMonotone(1.0, r * e, e);
    assert r * e / e == r;
  }

  lemma ReciprocalAntitone(a: Arithmetic, d: real, e: real)
    requires Faithful(a) && 0.0 <= d <= e
    ensures 0.0 <= Reciprocal(a, e) <= Reciprocal(a, d)
    ensures a.round(Reciprocal(a, e)) == Reciprocal(a, e)
  {
    assert a.round(0.0) <= a.round(1.0) <= a.top;
    if 0.0 < d && e < a.top {
      InverseAntitone(d, e);
    } else if 0.0 < e < a.top {
      assert 0.0 <= 1.0 / e;
    }
  }

  lemma DenominatorMonotone(a: Arithmetic, p: nat, q: nat, k: nat, weight: real)
    requires Faithful(a) && p <= q && weight > 0.0
    ensures Denominator(a, p, k, weight) <= Denominator(a, q, k, weight)
  {
    var rp, rq := a.round((p + 1) as real), a.round((q + 1) as real);
    assert rp <= rq;
    DivideMonotone(rp, rq, weight);
    var kr := a.round(k as real);
    assert a.round(rp / weight) + kr <= a.round(rq / weight) + kr;
    var sp, sq := a.round(a.round(rp / weight) + kr), a.round(a.round(rq / weight) + kr);
    assert sp <= sq;
    assert sp - 1.0 <= sq - 1.0;
  }

  lemma DenominatorSign(a: Arithmetic, p: nat, k: nat, weight: real)
    requires Faithful(a) && k > 0 && weight > 0.0
    ensures Denominator(a, p, k, weight) >= 0.0
  {
    var rank := a.round((p + 1) as real);
    assert a.round(0.0) <= rank;
    DivideMonotone(0.0, rank, weight);
    assert 0.0 / weight == 0.0;
    assert a.round(0.0) <= a.round(rank / weight) && a.round(1.0) <= a.round(k as real);
    var sum := a.round(a.round(rank / weight) + a.round(k as real));
    assert a.round(1.0) <= sum && a.round(1.0) <= a.top;
    assert a.round(0.0) <= a.round(sum - 1.0);
  }

  // A later rank never contributes more, and every contribution is a
  // representable non-negative number.
  lemma PositionScoreAntitone(a: Arithmetic, p: nat, q: nat, k: nat, weight: real)
    requires Faithful(a) && p <= q && k > 0
    ensures 0.0 <= PositionScore(a, q, k, weight) <= PositionScore(a, p, k, weight)
    ensures a.round(PositionScore(a, q, k, weight)) == PositionScore(a, q, k, weight)
  {
    if weight > 0.0 {
      DenominatorMonotone(a, p, q, k, weight);
      DenominatorSign(a, p, k, weight);
      ReciprocalAntitone(a, Denominator(a, p, k, weight), Denominator(a, q, k, weight));
    }
  }

  // Left-to-right floating-point sum of the first n terms.
  function Accumulate(a: Arithmetic, terms: seq<real>, n: nat): real
    requires n <= |terms|
  {
    if n == 0 then 0.0 else a.round(Accumulate(a, terms, n - 1) + terms[n - 1])
  }

  function Sum(a: Arithmetic, terms: seq<real>): real {
    Accumulate(a, terms, |terms|)
  }

  lemma AccumulateStep(a: Arithmetic, xs: seq<real>, ys: seq<real>, m: nat)
    requires Faithful(a) && m < |xs| == |ys| && xs[m] <= ys[m] && Accumulate(a, xs, m) <= Accumulate(a, ys, m)
    ensures Accumulate(a, xs, m + 1) <= Accumulate(a, ys, m + 1)
  {
    var x, y := Accumulate(a, xs, m) + xs[m], Accumulate(a, ys, m) + ys[m];
    assert a.round(x) <= a.round(y);
  }

  ghost predicate AccumulatesBelow(a: Arithmetic, xs: seq<real>, ys: seq<real>, m: nat) {
    m <= |xs| && m <= |ys| && Accumulate(a, xs, m) <= Accumulate(a, ys, m)
  }

  lemma AccumulateMonotone(a: Arithmetic, xs: seq<real>, ys: seq<real>, n: nat)
    requires Faithful(a) && n <= |xs| == |ys|
    requires forall i :: 0 <= i < n ==> xs[i] <= ys[i]
    ensures Accumulate(a, xs, n) <= Accumulate(a, ys, n)
  {
    forall m: nat | m < n && AccumulatesBelow(a, xs, ys, m) ensures AccumulatesBelow(a, xs, ys, m + 1) {
      AccumulateStep(a, xs, ys, m);
    }
    Climb((m: nat) => m <= n && AccumulatesBelow(a, xs, ys, m), n);
  }

  // Accumulated values are representable and non-negative, so a zero term
  // leaves them unchanged.
  lemma {:induction false} AccumulateFixed(a: Arithmetic, xs: seq<real>, n: nat)
    requires Faithful(a) && n <= |xs|
    requires forall i :: 0 <= i < n ==> 0.0 <= xs[i]
    ensures a.round(Accumulate(a, xs, n)) == Accumulate(a, xs, n) >= 0.0
  {
    if n > 0 {
      AccumulateFixed(a, xs, n - 1);
      assert 0.0 <= Accumulate(a, xs, n - 1) + xs[n - 1];
    }
  }

  // ---------------------------------------------------------------------
  // What fusion means

  datatype Fusion = Fusion(arith: Arithmetic, k: nat, weights: seq<real>)

  ghost predicate ValidFusion(f: Fusion) {
    && Faithful(f.arith)
    && f.k > 0
    && |f.weights| > 0
    && forall i :: 0 <= i < |f.weights| ==> f.weights[i] >= 0.0
  }

  type Channels = seq<seq<PointId>>

  ghost predicate ValidChannels(f: Fusion, channels: Channels) {
    |channels| == |f.weights| && forall s :: 0 <= s < |channels| ==> Distinct(channels[s])
  }

  function Known(f: Fusion, channels: Channels, id: PointId, s: nat): Option<real>
    requires s < |channels| == |f.weights|
  {
    if id in channels[s]
    then Some(PositionScore(f.arith, IndexOf(channels[s], id), f.k, f.weights[s]))
    else None
  }

  // The contributions of one identity, one entry a channel.
  function Row(f: Fusion, channels: Channels, id: PointId): (row: seq<Option<real>>)
    requires |channels| == |f.weights|
    ensures |row| == |f.weights|
    ensures forall s :: 0 <= s < |row| ==> row[s] == Known(f, channels, id, s)
  {
    seq(|f.weights|, s requires 0 <= s < |f.weights| => Known(f, channels, id, s))
  }

  // Completes a row with `fill` where a contribution is missing.
  function Filled(row: seq<Option<real>>, fill: seq<real>): (terms: seq<real>)
    requires |row| == |fill|
    ensures |terms| == |row|
    ensures forall s :: 0 <= s < |row| ==> terms[s] == if row[s].Some? then row[s].value else fill[s]
  {
    seq(|row|, s requires 0 <= s < |row| => if row[s].Some? then row[s].value else fill[s])
  }

  function Zeros(n: nat): (zs: seq<real>)
    ensures |zs| == n && forall i :: 0 <= i < n ==> zs[i] == 0.0
  {
    seq(n, i => 0.0)
  }

  function FusedScore(f: Fusion, channels: Channels, id: PointId): real
    requires |channels| == |f.weights|
  {
    Sum(f.arith, Filled(Row(f, channels, id), Zeros(|f.weights|)))
  }

  predicate FusedBefore(f: Fusion, channels: Channels, x: PointId, y: PointId)
    requires |channels| == |f.weights|
  {
    Before(x, FusedScore(f, channels, x), y, FusedScore(f, channels, y))
  }

  // `order` lists identities of positive fused score, best first, and nothing
  // outside it precedes or equals any of them.
  ghost predicate IsFusedPrefix(f: Fusion, channels: Channels, order: seq<PointId>)
    requires |channels| == |f.weights|
  {
    && (forall i :: 0 <= i < |order| ==> FusedScore(f, channels, order[i]) > 0.0)
    && (forall i, j :: 0 <= i < j < |order| ==> FusedBefore(f, channels, order[i], order[j]))
    && (forall i, id: PointId :: 0 <= i < |order| && id !in order ==> FusedBefore(f, channels, order[i], id))
  }

  // The exact Top-K: a prefix of the fused order of length topK, or the whole
  // order when fewer identities have a positive score.
  ghost predicate IsTopK(f: Fusion, channels: Channels, topK: nat, order: seq<PointId>)
    requires |channels| == |f.weights|
  {
    && IsFusedPrefix(f, channels, order)
    && |order| <= topK
    && (|order| < topK ==> IsComplete(f, channels, order))
  }

  ghost predicate IsComplete(f: Fusion, channels: Channels, order: seq<PointId>)
    requires |channels| == |f.weights|
  {
    forall id: PointId :: id !in order ==> FusedScore(f, channels, id) <= 0.0
  }

  lemma FusedPrefixDistinct(f: Fusion, channels: Channels, order: seq<PointId>)
    requires |channels| == |f.weights| && IsFusedPrefix(f, channels, order)
    ensures Distinct(order)
  {
    assert forall i, j :: 0 <= i < j < |order| ==> FusedBefore(f, channels, order[i], order[j]);
  }

  lemma FusedPrefixShorter(f: Fusion, channels: Channels, order: seq<PointId>, n: nat)
    requires |channels| == |f.weights|
    requires IsFusedPrefix(f, channels, order) && n <= |order|
    ensures IsFusedPrefix(f, channels, order[..n])
  {
    var p := order[..n];
    assert forall j :: 0 <= j < n ==> order[j] == p[j];
    forall i, id: PointId | 0 <= i < |p| && id !in p
      ensures FusedBefore(f, channels, p[i], id)
    {
      assert p[i] == order[i];
      if id in order {
        var j :| 0 <= j < |order| && order[j] == id;
        assert FusedBefore(f, channels, order[i], order[j]);
      }
    }
  }

  // Where two prefixes have agreed so far, neither continues with a worse one.
  lemma NotLater(f: Fusion, channels: Channels, p: seq<PointId>, q: seq<PointId>, n: nat)
    requires |channels| == |f.weights|
    requires IsFusedPrefix(f, channels, p) && Distinct(q)
    requires n < |p| && n < |q| && forall i :: 0 <= i < n ==> p[i] == q[i]
    ensures p[n] == q[n] || FusedBefore(f, channels, p[n], q[n])
  {
    if q[n] in p {
      var j :| 0 <= j < |p| && p[j] == q[n];
      assert n < j ==> FusedBefore(f, channels, p[n], p[j]);
    }
  }

  // Two prefixes of the fused order agree as far as the shorter one goes.
  lemma {:induction false} PrefixesAgree(f: Fusion, channels: Channels, p: seq<PointId>, q: seq<PointId>)
    requires |channels| == |f.weights|
    requires IsFusedPrefix(f, channels, p) && IsFusedPrefix(f, channels, q)
    requires |p| <= |q|
    ensures p == q[..|p|]
  {
    if |p| > 0 {
      var n := |p| - 1;
      FusedPrefixShorter(f, channels, p, n);
      PrefixesAgree(f, channels, p[..n], q);
      FusedPrefixDistinct(f, channels, p);
      FusedPrefixDistinct(f, channels, q);
      assert forall i :: 0 <= i < n ==> p[i] == p[..n][i] == q[i];
      NotLater(f, channels, p, q, n);
      NotLater(f, channels, q, p, n);
      assert p == p[..n] + [p[n]];
    }
  }

  // A complete prefix is no shorter than any other.
  lemma CompleteIsLongest(f: Fusion, channels: Channels, p: seq<PointId>, q: seq<PointId>)
    requires |channels| == |f.weights|
    requires IsFusedPrefix(f, channels, p) && IsFusedPrefix(f, channels, q)
    requires IsComplete(f, channels, p)
    ensures |q| <= |p|
  {
    FusedPrefixDistinct(f, channels, q);
    var next := if |p| < |q| then q[|p|] else 0;
    assert |p| < |q| ==> FusedScore(f, channels, next) > 0.0;
    if |p| < |q| {
      PrefixesAgree(f, channels, p, q);
    }
  }

  // The exact Top-K is unique, and a longer one extends a shorter one.
  lemma TopKUnique(f: Fusion, channels: Channels, m: nat, p: seq<PointId>, n: nat, q: seq<PointId>)
    requires |channels| == |f.weights| && m <= n
    requires IsTopK(f, channels, m, p) && IsTopK(f, channels, n, q)
    ensures p <= q && (|p| < m ==> p == q) && (m == n ==> p == q)
  {
    if |p| < m { CompleteIsLongest(f, channels, p, q); }
    if |q| < n { CompleteIsLongest(f, channels, q, p); }
    PrefixesAgree(f, channels, p, q);
  }

  // Sorting the identities of positive score gives the whole fused order.
  lemma RankedIsFusedOrder(f: Fusion, channels: Channels, scored: seq<Scored>)
    requires |channels| == |f.weights| && Ranked(scored)
    requires forall x: Scored :: x in scored <==> x.score == FusedScore(f, channels, x.id) > 0.0
    ensures IsFusedPrefix(f, channels, Ids(scored)) && IsComplete(f, channels, Ids(scored))
  {
    var order := Ids(scored);
    assert forall i :: 0 <= i < |scored| ==> scored[i] in scored;
    forall x | x in scored
      ensures x.id in order
    {
      var i :| 0 <= i < |scored| && scored[i] == x;
      assert order[i] == x.id;
    }
    forall id: PointId | id !in order
      ensures FusedScore(f, channels, id) <= 0.0
    {
      assert Scored(id, FusedScore(f, channels, id)) !in scored;
    }
    forall i, j | 0 <= i < j < |order|
      ensures FusedBefore(f, channels, order[i], order[j])
    {
      assert Precedes(scored[i], scored[j]);
    }
  }

  // The first topK entries of the whole fused order are the exact Top-K.
  lemma TakeIsTopK(f: Fusion, channels: Channels, topK: nat, order: seq<PointId>)
    requires |channels| == |f.weights|
    requires IsFusedPrefix(f, channels, order) && IsComplete(f, channels, order)
    ensures IsTopK(f, channels, topK, Take(order, topK))
  {
    FusedPrefixShorter(f, channels, order, |Take(order, topK)|);
  }

  function Take<T>(xs: seq<T>, n: nat): seq<T> {
    if n <= |xs| then xs[..n] else xs
  }
}
