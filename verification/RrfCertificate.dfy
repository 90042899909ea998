// When a partially observed fusion already determines its Top-K.
//
// A state of knowledge is the observed prefix of every channel plus a flag that
// says whether the channel has ended. A completion is any list of full channels
// that agrees with it.
//
// Source: lib/segment/src/common/reciprocal_rank_fusion/state.rs
module RrfCertificate {
  import opened Common
  import opened RankOrder
  import opened RrfScoring

  ghost predicate Knowledge(f: Fusion, observed: Channels, exhausted: seq<bool>) {
    ValidFusion(f) && ValidChannels(f, observed) && |exhausted| == |observed|
  }

  ghost predicate Completes(f: Fusion, observed: Channels, exhausted: seq<bool>, channels: Channels)
    requires Knowledge(f, observed, exhausted)
  {
    && ValidChannels(f, channels)
    && forall s :: 0 <= s < |channels| ==>
         && observed[s] <= channels[s]
         && (exhausted[s] ==> observed[s] == channels[s])
  }

  function Seen(observed: Channels): set<PointId> {
    set s, i | 0 <= s < |observed| && 0 <= i < |observed[s]| :: observed[s][i]
  }

  // The largest contribution each channel can still make.
  function Next(f: Fusion, observed: Channels, exhausted: seq<bool>): (next: seq<real>)
    requires |observed| == |exhausted| == |f.weights|
    ensures |next| == |f.weights|
    ensures forall s :: 0 <= s < |next| ==>
      next[s] == if exhausted[s] then 0.0 else PositionScore(f.arith, |observed[s]|, f.k, f.weights[s])
  {
    seq(|f.weights|, s requires 0 <= s < |f.weights| =>
      if exhausted[s] then 0.0 else PositionScore(f.arith, |observed[s]|, f.k, f.weights[s]))
  }

  function Upper(f: Fusion, observed: Channels, exhausted: seq<bool>, id: PointId): real
    requires |observed| == |exhausted| == |f.weights|
  {
    Sum(f.arith, Filled(Row(f, observed, id), Next(f, observed, exhausted)))
  }

  function UnseenUpper(f: Fusion, observed: Channels, exhausted: seq<bool>): real
    requires |observed| == |exhausted| == |f.weights|
  {
    Sum(f.arith, Next(f, observed, exhausted))
  }

  lemma IndexInPrefix(p: seq<PointId>, q: seq<PointId>, id: PointId)
    requires p <= q && Distinct(q) && id in p
    ensures id in q && IndexOf(q, id) == IndexOf(p, id)
  {
    var i := IndexOf(p, id);
    assert q[i] == id;
  }

  // A contribution that is not known yet is at most the channel's next one.
  lemma TermBounds(f: Fusion, observed: Channels, exhausted: seq<bool>, channels: Channels, id: PointId, s: nat)
    requires Knowledge(f, observed, exhausted) && Completes(f, observed, exhausted, channels)
    requires s < |channels|
    ensures
      var known, full := Known(f, observed, id, s), Known(f, channels, id, s);
      if known.Some? then full == known
      else full.Some? ==> 0.0 <= full.value <= Next(f, observed, exhausted)[s]
    ensures 0.0 <= Next(f, observed, exhausted)[s]
    ensures Known(f, channels, id, s).Some? ==> 0.0 <= Known(f, channels, id, s).value
  {
    var p, q := observed[s], channels[s];
    assert forall j :: 0 <= j < |p| ==> q[j] == p[j];
    PositionScoreAntitone(f.arith, |p|, |p|, f.k, f.weights[s]);
    if id in q {
      var i := IndexOf(q, id);
      PositionScoreAntitone(f.arith, i, i, f.k, f.weights[s]);
      if id in p {
        IndexInPrefix(p, q, id);
      } else {
        PositionScoreAntitone(f.arith, |p|, i, f.k, f.weights[s]);
      }
    } else if id in p {
      IndexInPrefix(p, q, id);
    }
  }

  // Every completion scores an identity between the sum of what is known and
  // the sum that grants it the next rank of every channel it is missing from.
  lemma ScoreBounds(f: Fusion, observed: Channels, exhausted: seq<bool>, channels: Channels, id: PointId)
    requires Knowledge(f, observed, exhausted) && Completes(f, observed, exhausted, channels)
    ensures 0.0 <= FusedScore(f, observed, id) <= FusedScore(f, channels, id) <= Upper(f, observed, exhausted, id)
  {
    var n := |f.weights|;
    var low := Filled(Row(f, observed, id), Zeros(n));
    var mid := Filled(Row(f, channels, id), Zeros(n));
    var high := Filled(Row(f, observed, id), Next(f, observed, exhausted));
    forall s | 0 <= s < n
      ensures 0.0 <= low[s] <= mid[s] <= high[s]
    {
      TermBounds(f, observed, exhausted, channels, id, s);
    }
    AccumulateMonotone(f.arith, low, mid, n);
    AccumulateMonotone(f.arith, mid, high, n);
    AccumulateFixed(f.arith, low, n);
  }

  lemma UnseenRow(f: Fusion, observed: Channels, exhausted: seq<bool>, id: PointId)
    requires Knowledge(f, observed, exhausted) && id !in Seen(observed)
    ensures Upper(f, observed, exhausted, id) == UnseenUpper(f, observed, exhausted)
    ensures FusedScore(f, observed, id) == 0.0
    ensures 0.0 <= UnseenUpper(f, observed, exhausted)
  {
    var n := |f.weights|;
    assert forall s :: 0 <= s < n ==> id !in observed[s];
    assert Filled(Row(f, observed, id), Next(f, observed, exhausted)) == Next(f, observed, exhausted);
    assert Filled(Row(f, observed, id), Zeros(n)) == Zeros(n);
    SumOfZeros(f.arith, n, n);
    ScoreBounds(f, observed, exhausted, observed, id);
  }

  lemma {:induction false} SumOfZeros(a: Arithmetic, n: nat, m: nat)
    requires Faithful(a) && m <= n
    ensures Accumulate(a, Zeros(n), m) == 0.0
  {
    if m > 0 { SumOfZeros(a, n, m - 1); }
  }

  lemma {:induction false} FreshId(ids: set<PointId>) returns (id: PointId)
    ensures id !in ids && forall x :: x in ids ==> x < id
  {
    if ids == {} {
      id := 0;
    } else {
      var x :| x in ids;
      var above := FreshId(ids - {x});
      assert forall y :: y in ids ==> y == x || y in ids - {x};
      id := if above <= x then x + 1 else above;
    }
  }

  // ---------------------------------------------------------------------
  // The certificate

  ghost predicate SurelyBefore(f: Fusion, observed: Channels, exhausted: seq<bool>, x: PointId, y: PointId)
    requires Knowledge(f, observed, exhausted)
  {
    Before(x, FusedScore(f, observed, x), y, Upper(f, observed, exhausted, y))
  }

  // Each listed identity keeps its place whatever the channels still hold.
  ghost predicate Certified(f: Fusion, observed: Channels, exhausted: seq<bool>, fixed: seq<PointId>)
    requires Knowledge(f, observed, exhausted)
  {
    && (forall i :: 0 <= i < |fixed| ==>
          FusedScore(f, observed, fixed[i]) > UnseenUpper(f, observed, exhausted))
    && (forall i, j :: 0 <= i < j < |fixed| ==> SurelyBefore(f, observed, exhausted, fixed[i], fixed[j]))
    && (forall i, id :: 0 <= i < |fixed| && id in Seen(observed) && id !in fixed ==>
          SurelyBefore(f, observed, exhausted, fixed[i], id))
  }

  lemma SureIsBefore(f: Fusion, observed: Channels, exhausted: seq<bool>, channels: Channels, x: PointId, y: PointId)
    requires Knowledge(f, observed, exhausted) && Completes(f, observed, exhausted, channels)
    requires SurelyBefore(f, observed, exhausted, x, y)
    ensures FusedBefore(f, channels, x, y)
  {
    ScoreBounds(f, observed, exhausted, channels, x);
    ScoreBounds(f, observed, exhausted, channels, y);
  }

  // Soundness: a certified list is a prefix of the fused order of every
  // completion, so nothing that is still unread can change it.
  lemma CertifiedIsExact(f: Fusion, observed: Channels, exhausted: seq<bool>, channels: Channels, fixed: seq<PointId>)
    requires Knowledge(f, observed, exhausted) && Completes(f, observed, exhausted, channels)
    requires Certified(f, observed, exhausted, fixed)
    ensures IsFusedPrefix(f, channels, fixed)
  {
    var unseen := FreshId(Seen(observed));
    UnseenRow(f, observed, exhausted, unseen);
    forall i | 0 <= i < |fixed|
      ensures FusedScore(f, channels, fixed[i]) > 0.0
    {
      ScoreBounds(f, observed, exhausted, channels, fixed[i]);
    }
    forall i, j | 0 <= i < j < |fixed|
      ensures FusedBefore(f, channels, fixed[i], fixed[j])
    {
      SureIsBefore(f, observed, exhausted, channels, fixed[i], fixed[j]);
    }
    forall i, id: PointId | 0 <= i < |fixed| && id !in fixed
      ensures FusedBefore(f, channels, fixed[i], id)
    {
      if id !in Seen(observed) {
        UnseenRow(f, observed, exhausted, id);
        assert SurelyBefore(f, observed, exhausted, fixed[i], id);
      }
      SureIsBefore(f, observed, exhausted, channels, fixed[i], id);
    }
  }

}
