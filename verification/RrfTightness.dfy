// How tight the certificate is. The state documentation promises the fused
// order "once it is fixed". The certificate declines a settled Top-K in exactly
// two situations, which this module isolates:
//   - no live channel can still contribute anything, and fewer than topK
//     identities have a positive score;
//   - a live channel can still contribute, and the settled list has a member
//     that only ties with the bound on unseen identities, every smaller identity
//     having been seen, so that no tie-break can go against it.
//
// Source: lib/segment/src/common/reciprocal_rank_fusion/state.rs
module RrfTightness {
  import opened Common
  import opened RankOrder
  import opened RrfScoring
  import opened RrfCertificate

  // Two completions of the same knowledge whose exact Top-K differ.
  ghost predicate Undetermined(f: Fusion, observed: Channels, exhausted: seq<bool>, topK: nat)
    requires Knowledge(f, observed, exhausted)
  {
    exists c0, c1, p0, p1 :: Disagree(f, observed, exhausted, topK, c0, p0, c1, p1)
  }

  ghost predicate Disagree(f: Fusion, observed: Channels, exhausted: seq<bool>, topK: nat,
                           c0: Channels, p0: seq<PointId>, c1: Channels, p1: seq<PointId>)
    requires Knowledge(f, observed, exhausted)
  {
    && Completes(f, observed, exhausted, c0) && IsTopK(f, c0, topK, p0)
    && Completes(f, observed, exhausted, c1) && IsTopK(f, c1, topK, p1)
    && p0 != p1
  }

  // The certificate stops at winner w after fixing a shorter list.
  ghost predicate StuckAt(f: Fusion, observed: Channels, exhausted: seq<bool>, topK: nat,
                          fixed: seq<PointId>, w: PointId)
    requires Knowledge(f, observed, exhausted)
  {
    && Certified(f, observed, exhausted, fixed) && |fixed| < topK
    && w in Seen(observed) && w !in fixed
    && (forall y :: y in Seen(observed) && y !in fixed && y != w ==> FusedBefore(f, observed, w, y))
    && (FusedScore(f, observed, w) <= UnseenUpper(f, observed, exhausted)
        || exists c :: Contests(f, observed, exhausted, fixed, w, c))
  }

  ghost predicate Contests(f: Fusion, observed: Channels, exhausted: seq<bool>,
                           fixed: seq<PointId>, w: PointId, c: PointId)
    requires Knowledge(f, observed, exhausted)
  {
    c in Seen(observed) && c !in fixed && c != w && !SurelyBefore(f, observed, exhausted, w, c)
  }

  ghost predicate Declined(f: Fusion, observed: Channels, exhausted: seq<bool>, topK: nat)
    requires Knowledge(f, observed, exhausted)
  {
    |Seen(observed)| < topK || exists fixed, w :: StuckAt(f, observed, exhausted, topK, fixed, w)
  }

  // What the certificate could accept: as it is, except that an identity may tie
  // with the bound on unseen ones if every smaller identity has been seen.
  ghost predicate Relaxed(f: Fusion, observed: Channels, exhausted: seq<bool>, fixed: seq<PointId>)
    requires Knowledge(f, observed, exhausted)
  {
    && (forall i :: 0 <= i < |fixed| ==> Outscores(f, observed, exhausted, fixed[i]))
    && Sure(f, observed, exhausted, fixed)
  }

  // No identity seen can come between or before the listed ones.
  ghost predicate Sure(f: Fusion, observed: Channels, exhausted: seq<bool>, fixed: seq<PointId>)
    requires Knowledge(f, observed, exhausted)
  {
    && (forall i, j :: 0 <= i < j < |fixed| ==> SurelyBefore(f, observed, exhausted, fixed[i], fixed[j]))
    && (forall i, id :: 0 <= i < |fixed| && id in Seen(observed) && id !in fixed ==>
          SurelyBefore(f, observed, exhausted, fixed[i], id))
  }

  // No unseen identity can come before w.
  ghost predicate Outscores(f: Fusion, observed: Channels, exhausted: seq<bool>, w: PointId)
    requires Knowledge(f, observed, exhausted)
  {
    FusedScore(f, observed, w) > UnseenUpper(f, observed, exhausted) || TiesSafely(f, observed, exhausted, w)
  }

  ghost predicate TiesSafely(f: Fusion, observed: Channels, exhausted: seq<bool>, w: PointId)
    requires Knowledge(f, observed, exhausted)
  {
    && FusedScore(f, observed, w) == UnseenUpper(f, observed, exhausted)
    && forall x: PointId :: x < w ==> x in Seen(observed)
  }

  // The settled list that the certificate misses: it has a member that ties.
  ghost predicate SettledByTie(f: Fusion, observed: Channels, exhausted: seq<bool>, topK: nat, fixed: seq<PointId>)
    requires Knowledge(f, observed, exhausted)
  {
    && |fixed| == topK && Relaxed(f, observed, exhausted, fixed)
    && exists i :: 0 <= i < |fixed| && TiesSafely(f, observed, exhausted, fixed[i])
  }

  // ---------------------------------------------------------------------
  // A best identity and the exact Top-K always exist

  lemma {:induction false} BestOf(f: Fusion, channels: Channels, ids: set<PointId>) returns (best: PointId)
    requires |channels| == |f.weights| && ids != {}
    ensures best in ids && forall y :: y in ids && y != best ==> FusedBefore(f, channels, best, y)
  {
    var x :| x in ids;
    if ids == {x} {
      best := x;
    } else {
      best := BestOf(f, channels, ids - {x});
      var old_best := best;
      best := if FusedBefore(f, channels, x, best) then x else best;
      forall y | y in ids && y != best
        ensures FusedBefore(f, channels, best, y)
      {
        assert y == x || y == old_best || FusedBefore(f, channels, old_best, y);
      }
    }
  }

  lemma UnseenScoresZero(f: Fusion, channels: Channels, id: PointId)
    requires ValidFusion(f) && ValidChannels(f, channels) && id !in Seen(channels)
    ensures FusedScore(f, channels, id) == 0.0
  {
    UnseenRow(f, channels, seq(|channels|, _ => true), id);
  }

  // A fused prefix continues with the best remaining identity of positive score.
  lemma ExtendPrefix(f: Fusion, channels: Channels, p: seq<PointId>, w: PointId)
    requires ValidFusion(f) && ValidChannels(f, channels)
    requires IsFusedPrefix(f, channels, p)
    requires w !in p && FusedScore(f, channels, w) > 0.0
    requires forall y :: y in Seen(channels) && y !in p && y != w ==> FusedBefore(f, channels, w, y)
    ensures IsFusedPrefix(f, channels, p + [w])
  {
    var q := p + [w];
    assert forall id: PointId :: id !in q ==> id !in p && id != w by {
      forall id: PointId | id !in q
        ensures id !in p && id != w
      {
        assert q[|p|] == w;
        assert forall j :: 0 <= j < |p| ==> q[j] == p[j];
      }
    }
    forall i, id: PointId | 0 <= i < |q| && id !in q
      ensures FusedBefore(f, channels, q[i], id)
    {
      if i == |p| && id !in Seen(channels) {
        UnseenScoresZero(f, channels, id);
      }
    }
  }

  lemma {:induction false} TopKExists(f: Fusion, channels: Channels, topK: nat) returns (p: seq<PointId>)
    requires ValidFusion(f) && ValidChannels(f, channels)
    ensures IsTopK(f, channels, topK, p)
  {
    if topK == 0 {
      p := [];
    } else {
      p := TopKExists(f, channels, topK - 1);
      if |p| == topK - 1 {
        var left := set y | y in Seen(channels) && y !in p && FusedScore(f, channels, y) > 0.0;
        if left == {} {
          forall id: PointId | id !in p
            ensures FusedScore(f, channels, id) <= 0.0
          {
            if id in Seen(channels) { assert id !in left; } else { UnseenScoresZero(f, channels, id); }
          }
        } else {
          var w := BestOf(f, channels, left);
          ExtendPrefix(f, channels, p, w);
          p := p + [w];
        }
      }
    }
  }

  // ---------------------------------------------------------------------
  // The completion that grants one identity everything it may still get

  function Grant(observed: Channels, exhausted: seq<bool>, id: PointId): (c: Channels)
    requires |observed| == |exhausted|
    ensures |c| == |observed|
    ensures forall s :: 0 <= s < |c| ==>
      c[s] == if exhausted[s] || id in observed[s] then observed[s] else observed[s] + [id]
  {
    seq(|observed|, s requires 0 <= s < |observed| =>
      if exhausted[s] || id in observed[s] then observed[s] else observed[s] + [id])
  }

  lemma GrantCompletes(f: Fusion, observed: Channels, exhausted: seq<bool>, id: PointId)
    requires Knowledge(f, observed, exhausted)
    ensures Completes(f, observed, exhausted, Grant(observed, exhausted, id))
  {
  }

  lemma GrantTerm(f: Fusion, observed: Channels, exhausted: seq<bool>, id: PointId, y: PointId, s: nat)
    requires Knowledge(f, observed, exhausted) && s < |f.weights|
    ensures
      var known, got := Known(f, observed, y, s), Known(f, Grant(observed, exhausted, id), y, s);
      if known.Some? then got == known
      else if y == id && !exhausted[s] then got == Some(Next(f, observed, exhausted)[s])
      else got == None
  {
    var c := Grant(observed, exhausted, id);
    GrantCompletes(f, observed, exhausted, id);
    if y in observed[s] {
      IndexInPrefix(observed[s], c[s], y);
    } else if y == id && !exhausted[s] {
      assert c[s][|observed[s]|] == id;
    }
  }

  lemma GrantScores(f: Fusion, observed: Channels, exhausted: seq<bool>, id: PointId, y: PointId)
    requires Knowledge(f, observed, exhausted)
    ensures FusedScore(f, Grant(observed, exhausted, id), y) ==
            if y == id then Upper(f, observed, exhausted, id) else FusedScore(f, observed, y)
  {
    var c := Grant(observed, exhausted, id);
    var n := |f.weights|;
    var got := Filled(Row(f, c, y), Zeros(n));
    var want := Filled(Row(f, observed, y), if y == id then Next(f, observed, exhausted) else Zeros(n));
    forall s | 0 <= s < n
      ensures got[s] == want[s]
    {
      GrantTerm(f, observed, exhausted, id, y, s);
    }
    assert got == want;
  }

  lemma GrantSeen(observed: Channels, exhausted: seq<bool>, id: PointId)
    requires |observed| == |exhausted|
    ensures forall y :: y in Seen(Grant(observed, exhausted, id)) ==> y in Seen(observed) || y == id
  {
  }

  // ---------------------------------------------------------------------
  // Declining means the answer is genuinely open

  // If two completions continue the certified list differently, they disagree.
  lemma DifferentContinuations(f: Fusion, observed: Channels, exhausted: seq<bool>, topK: nat,
                               c0: Channels, c1: Channels, fixed: seq<PointId>, u: PointId)
    requires Knowledge(f, observed, exhausted)
    requires Completes(f, observed, exhausted, c0) && Completes(f, observed, exhausted, c1)
    requires |fixed| < topK
    requires IsFusedPrefix(f, c1, fixed + [u])
    requires !IsFusedPrefix(f, c0, fixed + [u])
    ensures Undetermined(f, observed, exhausted, topK)
  {
    var p0 := TopKExists(f, c0, topK);
    var p1 := TopKExists(f, c1, topK);
    var q := fixed + [u];
    if |p1| < |q| {
      CompleteIsLongest(f, c1, p1, q);
    }
    PrefixesAgree(f, c1, q, p1);
    if p0 == p1 {
      FusedPrefixShorter(f, c0, p0, |q|);
    }
    assert Disagree(f, observed, exhausted, topK, c0, p0, c1, p1);
  }

  // The winner is the best identity seen that is not on the list yet.
  ghost predicate IsWinner(f: Fusion, observed: Channels, exhausted: seq<bool>, fixed: seq<PointId>, w: PointId)
    requires Knowledge(f, observed, exhausted)
  {
    && w in Seen(observed) && w !in fixed
    && forall y :: y in Seen(observed) && y !in fixed && y != w ==> FusedBefore(f, observed, w, y)
  }

  lemma RelaxedIsBeforeAll(f: Fusion, observed: Channels, exhausted: seq<bool>, fixed: seq<PointId>, i: nat,
                           id: PointId)
    requires Knowledge(f, observed, exhausted) && Relaxed(f, observed, exhausted, fixed)
    requires 0.0 < UnseenUpper(f, observed, exhausted) && i < |fixed| && id !in fixed
    ensures SurelyBefore(f, observed, exhausted, fixed[i], id)
  {
    if id !in Seen(observed) {
      UnseenRow(f, observed, exhausted, id);
      assert Outscores(f, observed, exhausted, fixed[i]);
      assert id != fixed[i];
    }
  }

  // Soundness of the relaxed certificate.
  lemma RelaxedIsExact(f: Fusion, observed: Channels, exhausted: seq<bool>, channels: Channels, fixed: seq<PointId>)
    requires Knowledge(f, observed, exhausted) && Completes(f, observed, exhausted, channels)
    requires 0.0 < UnseenUpper(f, observed, exhausted) && Relaxed(f, observed, exhausted, fixed)
    ensures IsFusedPrefix(f, channels, fixed)
  {
    forall i | 0 <= i < |fixed|
      ensures FusedScore(f, channels, fixed[i]) > 0.0
    {
      assert Outscores(f, observed, exhausted, fixed[i]);
      ScoreBounds(f, observed, exhausted, channels, fixed[i]);
    }
    forall i, j | 0 <= i < j < |fixed|
      ensures FusedBefore(f, channels, fixed[i], fixed[j])
    {
      SureIsBefore(f, observed, exhausted, channels, fixed[i], fixed[j]);
    }
    forall i, id: PointId | 0 <= i < |fixed| && id !in fixed
      ensures FusedBefore(f, channels, fixed[i], id)
    {
      RelaxedIsBeforeAll(f, observed, exhausted, fixed, i, id);
      SureIsBefore(f, observed, exhausted, channels, fixed[i], id);
    }
  }

  // Nothing further at all leaves the winner next.
  lemma WinnerIsNext(f: Fusion, observed: Channels, exhausted: seq<bool>, fixed: seq<PointId>, w: PointId)
    requires Knowledge(f, observed, exhausted) && 0.0 < UnseenUpper(f, observed, exhausted)
    requires Relaxed(f, observed, exhausted, fixed) && IsWinner(f, observed, exhausted, fixed, w)
    requires FusedScore(f, observed, w) >= UnseenUpper(f, observed, exhausted)
    ensures IsFusedPrefix(f, observed, fixed + [w])
  {
    RelaxedIsExact(f, observed, exhausted, observed, fixed);
    ExtendPrefix(f, observed, fixed, w);
  }

  // What the challenger may still get puts it ahead of the winner.
  lemma ChallengerIsAhead(f: Fusion, observed: Channels, exhausted: seq<bool>, fixed: seq<PointId>, w: PointId,
                          c: PointId)
    requires Knowledge(f, observed, exhausted)
    requires Contests(f, observed, exhausted, fixed, w, c)
    ensures !IsFusedPrefix(f, Grant(observed, exhausted, c), fixed + [w])
  {
    var c1, q := Grant(observed, exhausted, c), fixed + [w];
    GrantScores(f, observed, exhausted, c, w);
    GrantScores(f, observed, exhausted, c, c);
    assert FusedBefore(f, c1, c, w);
    assert q[|fixed|] == w && c !in q;
  }

  // A contested winner: granting the challenger what it may still get puts it
  // ahead, while nothing further at all leaves the winner ahead.
  lemma ContestedIsOpen(f: Fusion, observed: Channels, exhausted: seq<bool>, topK: nat,
                        fixed: seq<PointId>, w: PointId, c: PointId)
    requires Knowledge(f, observed, exhausted) && 0.0 < UnseenUpper(f, observed, exhausted)
    requires Relaxed(f, observed, exhausted, fixed) && |fixed| < topK && IsWinner(f, observed, exhausted, fixed, w)
    requires FusedScore(f, observed, w) >= UnseenUpper(f, observed, exhausted)
    requires Contests(f, observed, exhausted, fixed, w, c)
    ensures Undetermined(f, observed, exhausted, topK)
  {
    WinnerIsNext(f, observed, exhausted, fixed, w);
    ChallengerIsAhead(f, observed, exhausted, fixed, w, c);
    GrantCompletes(f, observed, exhausted, c);
    DifferentContinuations(f, observed, exhausted, topK, Grant(observed, exhausted, c), observed, fixed, w);
  }

  // Granting an unseen identity every next rank puts it right after the list.
  lemma UnseenIsNext(f: Fusion, observed: Channels, exhausted: seq<bool>, fixed: seq<PointId>, w: PointId, u: PointId)
    requires Knowledge(f, observed, exhausted) && 0.0 < UnseenUpper(f, observed, exhausted)
    requires Relaxed(f, observed, exhausted, fixed) && IsWinner(f, observed, exhausted, fixed, w)
    requires u !in Seen(observed) && u !in fixed
    requires Before(u, UnseenUpper(f, observed, exhausted), w, FusedScore(f, observed, w))
    ensures IsFusedPrefix(f, Grant(observed, exhausted, u), fixed + [u])
  {
    var c1 := Grant(observed, exhausted, u);
    GrantCompletes(f, observed, exhausted, u);
    RelaxedIsExact(f, observed, exhausted, c1, fixed);
    UnseenRow(f, observed, exhausted, u);
    GrantSeen(observed, exhausted, u);
    GrantScores(f, observed, exhausted, u, u);
    assert Seen(c1) <= Seen(observed) + {u};
    forall y | y in Seen(c1) && y !in fixed && y != u
      ensures FusedBefore(f, c1, u, y)
    {
      assert y in Seen(observed);
      GrantedIsFirst(f, observed, exhausted, fixed, w, u, y);
    }
    ExtendPrefix(f, c1, fixed, u);
  }

  lemma GrantedIsFirst(f: Fusion, observed: Channels, exhausted: seq<bool>, fixed: seq<PointId>, w: PointId,
                       u: PointId, y: PointId)
    requires Knowledge(f, observed, exhausted) && IsWinner(f, observed, exhausted, fixed, w)
    requires u !in Seen(observed) && y in Seen(observed) && y !in fixed && y != u
    requires Before(u, UnseenUpper(f, observed, exhausted), w, FusedScore(f, observed, w))
    ensures FusedBefore(f, Grant(observed, exhausted, u), u, y)
  {
    UnseenRow(f, observed, exhausted, u);
    GrantScores(f, observed, exhausted, u, u);
    GrantScores(f, observed, exhausted, u, y);
    assert y == w || FusedBefore(f, observed, w, y);
  }

  // An unseen identity that can get before the winner leaves the Top-K open.
  lemma UnseenIsOpen(f: Fusion, observed: Channels, exhausted: seq<bool>, topK: nat,
                     fixed: seq<PointId>, w: PointId, u: PointId)
    requires Knowledge(f, observed, exhausted) && 0.0 < UnseenUpper(f, observed, exhausted)
    requires Relaxed(f, observed, exhausted, fixed) && |fixed| < topK && IsWinner(f, observed, exhausted, fixed, w)
    requires u !in Seen(observed) && u !in fixed
    requires Before(u, UnseenUpper(f, observed, exhausted), w, FusedScore(f, observed, w))
    ensures Undetermined(f, observed, exhausted, topK)
  {
    UnseenIsNext(f, observed, exhausted, fixed, w, u);
    UnseenRow(f, observed, exhausted, u);
    GrantCompletes(f, observed, exhausted, u);
    var q := fixed + [u];
    assert q[|fixed|] == u;
    DifferentContinuations(f, observed, exhausted, topK, observed, Grant(observed, exhausted, u), fixed, u);
  }

  lemma {:induction false} SomeOutside(p: seq<PointId>, ids: set<PointId>) returns (j: nat)
    requires Distinct(p) && |p| > |ids|
    ensures j < |p| && p[j] !in ids
  {
    var n := |p| - 1;
    if p[n] !in ids {
      j := n;
    } else {
      DistinctPrefix(p, n);
      j := SomeOutside(p[..n], ids - {p[n]});
      assert p[..n][j] == p[j];
    }
  }

  // With too few identities seen, one more with a positive score changes the list.
  lemma TooFewIsOpen(f: Fusion, observed: Channels, exhausted: seq<bool>, topK: nat)
    requires Knowledge(f, observed, exhausted)
    requires |Seen(observed)| < topK && 0.0 < UnseenUpper(f, observed, exhausted)
    ensures Undetermined(f, observed, exhausted, topK)
  {
    var u := FreshId(Seen(observed));
    var c1 := Grant(observed, exhausted, u);
    GrantCompletes(f, observed, exhausted, u);
    UnseenRow(f, observed, exhausted, u);
    GrantScores(f, observed, exhausted, u, u);
    GrantSeen(observed, exhausted, u);
    var p0 := TopKExists(f, observed, topK);
    var p1 := TopKExists(f, c1, topK);
    assert u !in p0;
    FusedPrefixDistinct(f, c1, p1);
    if |p1| == topK {
      var j := SomeOutside(p1, Seen(observed));
      if p1[j] !in Seen(c1) { UnseenScoresZero(f, c1, p1[j]); }
    }
    assert u in p1;
    assert Disagree(f, observed, exhausted, topK, observed, p0, c1, p1);
  }

  lemma RelaxedIsSeen(f: Fusion, observed: Channels, exhausted: seq<bool>, fixed: seq<PointId>, u: PointId)
    requires Knowledge(f, observed, exhausted) && Relaxed(f, observed, exhausted, fixed)
    requires 0.0 < UnseenUpper(f, observed, exhausted) && u !in Seen(observed)
    ensures u !in fixed
  {
    UnseenRow(f, observed, exhausted, u);
    assert !Outscores(f, observed, exhausted, u);
  }

  // A winner that cannot be put on the list leaves the Top-K open.
  lemma BlockedIsOpen(f: Fusion, observed: Channels, exhausted: seq<bool>, topK: nat, fixed: seq<PointId>, w: PointId)
    requires Knowledge(f, observed, exhausted) && 0.0 < UnseenUpper(f, observed, exhausted)
    requires Relaxed(f, observed, exhausted, fixed) && |fixed| < topK && IsWinner(f, observed, exhausted, fixed, w)
    requires !Outscores(f, observed, exhausted, w) || exists c :: Contests(f, observed, exhausted, fixed, w, c)
    ensures Undetermined(f, observed, exhausted, topK)
  {
    var bound, low := UnseenUpper(f, observed, exhausted), FusedScore(f, observed, w);
    if Outscores(f, observed, exhausted, w) {
      var c :| Contests(f, observed, exhausted, fixed, w, c);
      ContestedIsOpen(f, observed, exhausted, topK, fixed, w, c);
    } else {
      var u: PointId;
      if low < bound {
        u := FreshId(Seen(observed));
      } else {
        u :| u < w && u !in Seen(observed);
      }
      RelaxedIsSeen(f, observed, exhausted, fixed, u);
      UnseenIsOpen(f, observed, exhausted, topK, fixed, w, u);
    }
  }

  lemma ExtendSure(f: Fusion, observed: Channels, exhausted: seq<bool>, fixed: seq<PointId>, w: PointId)
    requires Knowledge(f, observed, exhausted) && Sure(f, observed, exhausted, fixed)
    requires w in Seen(observed) && w !in fixed
    requires forall c :: !Contests(f, observed, exhausted, fixed, w, c)
    ensures Sure(f, observed, exhausted, fixed + [w])
  {
    var more := fixed + [w];
    assert forall i :: 0 <= i < |fixed| ==> more[i] == fixed[i];
    forall i, j | 0 <= i < j < |more|
      ensures SurelyBefore(f, observed, exhausted, more[i], more[j])
    {
      if j == |fixed| { assert SurelyBefore(f, observed, exhausted, fixed[i], w); }
    }
    forall i, id | 0 <= i < |more| && id in Seen(observed) && id !in more
      ensures SurelyBefore(f, observed, exhausted, more[i], id)
    {
      assert id !in fixed && id != w;
      if i == |fixed| { assert !Contests(f, observed, exhausted, fixed, w, id); }
    }
  }

  // One more member, or the Top-K is open.
  lemma GrowOne(f: Fusion, observed: Channels, exhausted: seq<bool>, topK: nat, fixed: seq<PointId>)
      returns (more: seq<PointId>)
    requires Knowledge(f, observed, exhausted) && 0.0 < UnseenUpper(f, observed, exhausted)
    requires Relaxed(f, observed, exhausted, fixed) && |fixed| < topK
    ensures Undetermined(f, observed, exhausted, topK)
      || (|more| == |fixed| + 1 && Relaxed(f, observed, exhausted, more))
  {
    more := fixed;
    var left := set y | y in Seen(observed) && y !in fixed;
    if left == {} {
      assert forall y :: y in Seen(observed) ==> y in fixed || y in left;
      AllListed(f, observed, exhausted, fixed);
      TooFewIsOpen(f, observed, exhausted, topK);
    } else {
      var w := BestOf(f, observed, left);
      assert IsWinner(f, observed, exhausted, fixed, w);
      if Outscores(f, observed, exhausted, w) && forall c :: !Contests(f, observed, exhausted, fixed, w, c) {
        ExtendSure(f, observed, exhausted, fixed, w);
        more := fixed + [w];
      } else {
        BlockedIsOpen(f, observed, exhausted, topK, fixed, w);
      }
    }
  }

  // Takes the best identity again and again: either the list grows to n members
  // or the Top-K is open.
  lemma {:induction false} GrowRelaxed(f: Fusion, observed: Channels, exhausted: seq<bool>, topK: nat, n: nat)
      returns (fixed: seq<PointId>)
    requires Knowledge(f, observed, exhausted) && 0.0 < UnseenUpper(f, observed, exhausted) && n <= topK
    ensures Undetermined(f, observed, exhausted, topK) || (|fixed| == n && Relaxed(f, observed, exhausted, fixed))
    decreases n
  {
    fixed := [];
    if n > 0 {
      fixed := GrowRelaxed(f, observed, exhausted, topK, n - 1);
      if !Undetermined(f, observed, exhausted, topK) {
        fixed := GrowOne(f, observed, exhausted, topK, fixed);
      }
    }
  }

  lemma AllListed(f: Fusion, observed: Channels, exhausted: seq<bool>, fixed: seq<PointId>)
    requires Knowledge(f, observed, exhausted) && forall y :: y in Seen(observed) ==> y in fixed
    ensures |Seen(observed)| <= |fixed|
  {
    var listed := set i | 0 <= i < |fixed| :: fixed[i];
    SubsetSize(Seen(observed), listed);
    ListedSize(fixed);
  }

  // While a live channel can still contribute, the Top-K is settled exactly if
  // the relaxed certificate accepts a list of that length.
  lemma SettledIsRelaxed(f: Fusion, observed: Channels, exhausted: seq<bool>, topK: nat)
    requires Knowledge(f, observed, exhausted) && 0.0 < UnseenUpper(f, observed, exhausted)
    ensures !Undetermined(f, observed, exhausted, topK) <==>
      exists fixed :: |fixed| == topK && Relaxed(f, observed, exhausted, fixed)
  {
    var fixed := GrowRelaxed(f, observed, exhausted, topK, topK);
    if fixed' :| |fixed'| == topK && Relaxed(f, observed, exhausted, fixed') {
      forall c0, c1, p0, p1 | Disagree(f, observed, exhausted, topK, c0, p0, c1, p1)
        ensures false
      {
        RelaxedIsExact(f, observed, exhausted, c0, fixed');
        RelaxedIsExact(f, observed, exhausted, c1, fixed');
        TopKUnique(f, c0, topK, p0, topK, fixed');
        TopKUnique(f, c1, topK, p1, topK, fixed');
      }
    }
  }

  // ---------------------------------------------------------------------
  // What the certificate accepts

  lemma CertifyOne(f: Fusion, observed: Channels, exhausted: seq<bool>, topK: nat, fixed: seq<PointId>)
      returns (more: seq<PointId>)
    requires Knowledge(f, observed, exhausted) && Certified(f, observed, exhausted, fixed) && |fixed| < topK
    ensures Declined(f, observed, exhausted, topK)
      || (|more| == |fixed| + 1 && Certified(f, observed, exhausted, more))
  {
    more := fixed;
    var left := set y | y in Seen(observed) && y !in fixed;
    if left == {} {
      assert forall y :: y in Seen(observed) ==> y in fixed || y in left;
      AllListed(f, observed, exhausted, fixed);
    } else {
      var w := BestOf(f, observed, left);
      if !StuckAt(f, observed, exhausted, topK, fixed, w) {
        ExtendSure(f, observed, exhausted, fixed, w);
        more := fixed + [w];
        SureIsCertified(f, observed, exhausted, fixed, w);
      }
    }
  }

  lemma SureIsCertified(f: Fusion, observed: Channels, exhausted: seq<bool>, fixed: seq<PointId>, w: PointId)
    requires Knowledge(f, observed, exhausted) && Certified(f, observed, exhausted, fixed)
    requires FusedScore(f, observed, w) > UnseenUpper(f, observed, exhausted)
    requires Sure(f, observed, exhausted, fixed + [w])
    ensures Certified(f, observed, exhausted, fixed + [w])
  {
  }

  // The certificate, step by step, reaches n members or declines.
  lemma {:induction false} GrowCertified(f: Fusion, observed: Channels, exhausted: seq<bool>, topK: nat, n: nat)
      returns (fixed: seq<PointId>)
    requires Knowledge(f, observed, exhausted) && n <= topK
    ensures Declined(f, observed, exhausted, topK) || (|fixed| == n && Certified(f, observed, exhausted, fixed))
    decreases n
  {
    fixed := [];
    if n > 0 {
      fixed := GrowCertified(f, observed, exhausted, topK, n - 1);
      if !Declined(f, observed, exhausted, topK) {
        fixed := CertifyOne(f, observed, exhausted, topK, fixed);
      }
    }
  }

  // Where the certificate gets stuck, a full certified list would have gone on.
  lemma CertifiedIsNotStuck(f: Fusion, observed: Channels, exhausted: seq<bool>, topK: nat,
                            fixed: seq<PointId>, short: seq<PointId>, w: PointId)
    requires Knowledge(f, observed, exhausted)
    requires Certified(f, observed, exhausted, fixed) && |fixed| == topK
    ensures !StuckAt(f, observed, exhausted, topK, short, w)
  {
    if StuckAt(f, observed, exhausted, topK, short, w) {
      CertifiedIsExact(f, observed, exhausted, observed, fixed);
      CertifiedIsExact(f, observed, exhausted, observed, short);
      PrefixesAgree(f, observed, short, fixed);
      NextIsWinner(f, observed, exhausted, fixed, |short|, w);
      forall c ensures !Contests(f, observed, exhausted, short, w, c) {
        ListedIsUncontested(f, observed, exhausted, fixed, |short|, c);
      }
    }
  }

  // Whatever a fused prefix does not list by then comes after its n-th member.
  lemma PrefixNext(f: Fusion, channels: Channels, p: seq<PointId>, n: nat, w: PointId)
    requires |channels| == |f.weights| && IsFusedPrefix(f, channels, p) && n < |p|
    requires w !in p[..n] && w != p[n]
    ensures FusedBefore(f, channels, p[n], w)
  {
    FusedPrefixShorter(f, channels, p, n + 1);
    assert p[..n + 1] == p[..n] + [p[n]];
    assert w !in p[..n + 1] && p[..n + 1][n] == p[n];
  }

  lemma NextIsWinner(f: Fusion, observed: Channels, exhausted: seq<bool>, fixed: seq<PointId>, n: nat, w: PointId)
    requires Knowledge(f, observed, exhausted) && Certified(f, observed, exhausted, fixed)
    requires IsFusedPrefix(f, observed, fixed)
    requires n < |fixed| && IsWinner(f, observed, exhausted, fixed[..n], w)
    ensures w == fixed[n]
  {
    FusedPrefixDistinct(f, observed, fixed);
    CertifiedIsSeen(f, observed, exhausted, fixed, fixed[n]);
    assert fixed[n] !in fixed[..n];
    if w != fixed[n] { PrefixNext(f, observed, fixed, n, w); }
  }

  lemma SureAfter(f: Fusion, observed: Channels, exhausted: seq<bool>, fixed: seq<PointId>, n: nat, c: PointId)
    requires Knowledge(f, observed, exhausted) && Sure(f, observed, exhausted, fixed) && n < |fixed|
    requires c in Seen(observed) && forall j :: 0 <= j <= n ==> fixed[j] != c
    ensures SurelyBefore(f, observed, exhausted, fixed[n], c)
  {
    if c in fixed {
      var j := IndexOf(fixed, c);
      assert n < j;
    }
  }

  lemma ListedIsUncontested(f: Fusion, observed: Channels, exhausted: seq<bool>, fixed: seq<PointId>, n: nat,
                            c: PointId)
    requires Knowledge(f, observed, exhausted) && Sure(f, observed, exhausted, fixed) && n < |fixed|
    ensures !Contests(f, observed, exhausted, fixed[..n], fixed[n], c)
  {
    assert forall j :: 0 <= j < n ==> fixed[j] in fixed[..n];
    if c in Seen(observed) && c !in fixed[..n] && c != fixed[n] { SureAfter(f, observed, exhausted, fixed, n, c); }
  }

  // The certificate does not decline exactly if it has a list of full length.
  lemma AcceptsIsCertified(f: Fusion, observed: Channels, exhausted: seq<bool>, topK: nat)
    requires Knowledge(f, observed, exhausted)
    ensures !Declined(f, observed, exhausted, topK) <==>
      exists fixed :: |fixed| == topK && Certified(f, observed, exhausted, fixed)
  {
    var fixed := GrowCertified(f, observed, exhausted, topK, topK);
    if fixed' :| |fixed'| == topK && Certified(f, observed, exhausted, fixed') {
      CertifiedIsNotDeclined(f, observed, exhausted, topK, fixed');
    }
  }

  lemma CertifiedIsNotDeclined(f: Fusion, observed: Channels, exhausted: seq<bool>, topK: nat, fixed: seq<PointId>)
    requires Knowledge(f, observed, exhausted) && |fixed| == topK && Certified(f, observed, exhausted, fixed)
    ensures !Declined(f, observed, exhausted, topK)
  {
    CertifiedIsExact(f, observed, exhausted, observed, fixed);
    FusedPrefixDistinct(f, observed, fixed);
    if |Seen(observed)| < topK {
      var j := SomeOutside(fixed, Seen(observed));
      CertifiedIsSeen(f, observed, exhausted, fixed, fixed[j]);
    }
    forall short, w ensures !StuckAt(f, observed, exhausted, topK, short, w) {
      CertifiedIsNotStuck(f, observed, exhausted, topK, fixed, short, w);
    }
  }

  // Declined although settled, while a live channel can still contribute:
  // exactly when the settled list has a member that ties safely.
  lemma DeclinedThoughSettled(f: Fusion, observed: Channels, exhausted: seq<bool>, topK: nat)
    requires Knowledge(f, observed, exhausted) && 0.0 < UnseenUpper(f, observed, exhausted)
    ensures Declined(f, observed, exhausted, topK) && !Undetermined(f, observed, exhausted, topK) <==>
      exists fixed :: SettledByTie(f, observed, exhausted, topK, fixed)
  {
    SettledIsRelaxed(f, observed, exhausted, topK);
    AcceptsIsCertified(f, observed, exhausted, topK);
    if fixed :| |fixed| == topK && Relaxed(f, observed, exhausted, fixed) {
      TiedOrCertified(f, observed, exhausted, topK, fixed);
    }
    if fixed :| SettledByTie(f, observed, exhausted, topK, fixed) {
      TiedOrCertified(f, observed, exhausted, topK, fixed);
      forall other | |other| == topK && Certified(f, observed, exhausted, other) ensures false {
        RelaxedIsExact(f, observed, exhausted, observed, fixed);
        CertifiedIsExact(f, observed, exhausted, observed, other);
        PrefixesAgree(f, observed, fixed, other);
      }
    }
  }

  lemma TiedOrCertified(f: Fusion, observed: Channels, exhausted: seq<bool>, topK: nat, fixed: seq<PointId>)
    requires Knowledge(f, observed, exhausted) && |fixed| == topK && Relaxed(f, observed, exhausted, fixed)
    ensures SettledByTie(f, observed, exhausted, topK, fixed) <==> !Certified(f, observed, exhausted, fixed)
  {
    if forall i :: 0 <= i < |fixed| ==> !TiesSafely(f, observed, exhausted, fixed[i]) {
      assert forall i :: 0 <= i < |fixed| ==> Outscores(f, observed, exhausted, fixed[i]);
    }
  }

  lemma CertifiedIsSeen(f: Fusion, observed: Channels, exhausted: seq<bool>, fixed: seq<PointId>, u: PointId)
    requires Knowledge(f, observed, exhausted) && Certified(f, observed, exhausted, fixed)
    ensures u in fixed ==> u in Seen(observed)
  {
    if u !in Seen(observed) { UnseenRow(f, observed, exhausted, u); }
  }

  // Soundness in the same vocabulary.
  lemma CertifiedIsDetermined(f: Fusion, observed: Channels, exhausted: seq<bool>, topK: nat, fixed: seq<PointId>)
    requires Knowledge(f, observed, exhausted)
    requires Certified(f, observed, exhausted, fixed) && |fixed| == topK
    ensures !Undetermined(f, observed, exhausted, topK)
  {
    forall c0, c1, p0, p1 | Disagree(f, observed, exhausted, topK, c0, p0, c1, p1)
      ensures false
    {
      CertifiedIsExact(f, observed, exhausted, c0, fixed);
      CertifiedIsExact(f, observed, exhausted, c1, fixed);
      TopKUnique(f, c0, topK, p0, topK, fixed);
      TopKUnique(f, c1, topK, p1, topK, fixed);
    }
  }

  // ---------------------------------------------------------------------
  // Nothing left to contribute

  ghost predicate Representable(a: Arithmetic, x: real) {
    0.0 <= x == a.round(x)
  }

  lemma RoundedSumGrows(a: Arithmetic, x: real, y: real)
    requires Faithful(a) && Representable(a, x) && Representable(a, y)
    ensures x <= a.round(x + y) && y <= a.round(x + y)
  {
  }

  lemma GrowthStep(a: Arithmetic, xs: seq<real>, n: nat)
    requires Faithful(a) && 0 < n <= |xs|
    requires Representable(a, Accumulate(a, xs, n - 1)) && Representable(a, xs[n - 1])
    ensures Accumulate(a, xs, n) >= Accumulate(a, xs, n - 1) && Accumulate(a, xs, n) >= xs[n - 1]
  {
    RoundedSumGrows(a, Accumulate(a, xs, n - 1), xs[n - 1]);
  }

  // The accumulated value is one of its own.
  lemma AccumulatedIsOne(a: Arithmetic, xs: seq<real>, m: nat)
    requires Faithful(a) && m <= |xs| && forall j :: 0 <= j < m ==> Representable(a, xs[j])
    ensures Representable(a, Accumulate(a, xs, m))
  {
    assert forall j :: 0 <= j < m ==> Representable(a, xs[j]) ==> 0.0 <= xs[j];
    AccumulateFixed(a, xs, m);
  }

  lemma TermStays(a: Arithmetic, xs: seq<real>, m: nat, i: nat)
    requires Faithful(a) && i <= m < |xs|
    requires Representable(a, xs[m]) && Representable(a, Accumulate(a, xs, m))
    requires i < m ==> xs[i] <= Accumulate(a, xs, m)
    ensures xs[i] <= Accumulate(a, xs, m + 1)
  {
    GrowthStep(a, xs, m + 1);
  }

  ghost predicate TermIsIn(a: Arithmetic, xs: seq<real>, i: nat, m: nat)
    requires i < |xs|
  {
    i < m <= |xs| ==> xs[i] <= Accumulate(a, xs, m)
  }

  lemma SumAtLeastTerm(a: Arithmetic, xs: seq<real>, n: nat, i: nat)
    requires Faithful(a) && i < n <= |xs|
    requires forall j :: 0 <= j < n ==> Representable(a, xs[j])
    ensures xs[i] <= Accumulate(a, xs, n)
  {
    forall m: nat | m < n && TermIsIn(a, xs, i, m) ensures TermIsIn(a, xs, i, m + 1) {
      if i <= m {
        AccumulatedIsOne(a, xs, m);
        TermStays(a, xs, m, i);
      }
    }
    Climb((m: nat) => m <= n && TermIsIn(a, xs, i, m), n);
  }

  lemma NothingLeft(f: Fusion, observed: Channels, exhausted: seq<bool>, id: PointId)
    requires Knowledge(f, observed, exhausted) && UnseenUpper(f, observed, exhausted) == 0.0
    ensures Upper(f, observed, exhausted, id) == FusedScore(f, observed, id)
  {
    var next, n := Next(f, observed, exhausted), |f.weights|;
    forall s | 0 <= s < n
      ensures Representable(f.arith, next[s])
    {
      PositionScoreAntitone(f.arith, |observed[s]|, |observed[s]|, f.k, f.weights[s]);
    }
    forall s | 0 <= s < n
      ensures next[s] == 0.0
    {
      SumAtLeastTerm(f.arith, next, n, s);
    }
    assert next == Zeros(n);
  }

  ghost function Positive(f: Fusion, observed: Channels): set<PointId>
    requires |observed| == |f.weights|
  {
    set id | id in Seen(observed) && FusedScore(f, observed, id) > 0.0
  }

  lemma NothingLeftAgrees(f: Fusion, observed: Channels, exhausted: seq<bool>, c: Channels, id: PointId)
    requires Knowledge(f, observed, exhausted) && UnseenUpper(f, observed, exhausted) == 0.0
    requires Completes(f, observed, exhausted, c)
    ensures FusedScore(f, c, id) == FusedScore(f, observed, id)
  {
    NothingLeft(f, observed, exhausted, id);
    ScoreBounds(f, observed, exhausted, c, id);
  }

  lemma NothingLeftSettles(f: Fusion, observed: Channels, exhausted: seq<bool>, topK: nat,
                           c0: Channels, p0: seq<PointId>, c1: Channels, p1: seq<PointId>)
    requires Knowledge(f, observed, exhausted) && UnseenUpper(f, observed, exhausted) == 0.0
    requires Completes(f, observed, exhausted, c0) && IsTopK(f, c0, topK, p0)
    requires Completes(f, observed, exhausted, c1) && IsTopK(f, c1, topK, p1)
    ensures p0 == p1
  {
    forall id: PointId
      ensures FusedScore(f, c0, id) == FusedScore(f, c1, id)
    {
      NothingLeftAgrees(f, observed, exhausted, c0, id);
      NothingLeftAgrees(f, observed, exhausted, c1, id);
    }
    SameScoresSameTopK(f, c0, c1, topK, p1);
    TopKUnique(f, c0, topK, p0, topK, p1);
  }

  lemma SameScoresSameTopK(f: Fusion, c0: Channels, c1: Channels, topK: nat, p: seq<PointId>)
    requires |c0| == |c1| == |f.weights| && IsTopK(f, c1, topK, p)
    requires forall id: PointId :: FusedScore(f, c0, id) == FusedScore(f, c1, id)
    ensures IsTopK(f, c0, topK, p)
  {
  }

  // The Top-K is then settled in every completion...
  lemma NothingLeftIsDetermined(f: Fusion, observed: Channels, exhausted: seq<bool>, topK: nat)
    requires Knowledge(f, observed, exhausted) && UnseenUpper(f, observed, exhausted) == 0.0
    ensures !Undetermined(f, observed, exhausted, topK)
  {
    forall c0, c1, p0, p1 | Disagree(f, observed, exhausted, topK, c0, p0, c1, p1)
      ensures false
    {
      NothingLeftSettles(f, observed, exhausted, topK, c0, p0, c1, p1);
    }
  }

  lemma NothingLeftDeclines(f: Fusion, observed: Channels, exhausted: seq<bool>, topK: nat, short: seq<PointId>,
                            w: PointId)
    requires Knowledge(f, observed, exhausted) && UnseenUpper(f, observed, exhausted) == 0.0
    requires StuckAt(f, observed, exhausted, topK, short, w)
    ensures |Positive(f, observed)| < topK
  {
    forall c | c in Seen(observed)
      ensures Upper(f, observed, exhausted, c) == FusedScore(f, observed, c)
    {
      NothingLeft(f, observed, exhausted, c);
    }
    assert FusedScore(f, observed, w) <= 0.0;
    var listed := set i | 0 <= i < |short| :: short[i];
    assert Positive(f, observed) <= listed;
    SubsetSize(Positive(f, observed), listed);
    ListedSize(short);
  }

  lemma NothingLeftAccepts(f: Fusion, observed: Channels, exhausted: seq<bool>, topK: nat, fixed: seq<PointId>)
    requires Knowledge(f, observed, exhausted) && Certified(f, observed, exhausted, fixed) && |fixed| == topK
    ensures |Positive(f, observed)| >= topK
  {
    CertifiedIsExact(f, observed, exhausted, observed, fixed);
    FusedPrefixDistinct(f, observed, fixed);
    if |Positive(f, observed)| < topK {
      var j := SomeOutside(fixed, Positive(f, observed));
      CertifiedIsSeen(f, observed, exhausted, fixed, fixed[j]);
    }
  }

  // ...but the certificate declines exactly when fewer than topK identities
  // have a positive score; it then waits for every channel to end.
  lemma NothingLeftAcceptance(f: Fusion, observed: Channels, exhausted: seq<bool>, topK: nat)
    requires Knowledge(f, observed, exhausted) && UnseenUpper(f, observed, exhausted) == 0.0
    ensures Declined(f, observed, exhausted, topK) <==> |Positive(f, observed)| < topK
  {
    AcceptsIsCertified(f, observed, exhausted, topK);
    if fixed :| |fixed| == topK && Certified(f, observed, exhausted, fixed) {
      NothingLeftAccepts(f, observed, exhausted, topK, fixed);
    } else if |Seen(observed)| < topK {
      SubsetSize(Positive(f, observed), Seen(observed));
    } else {
      var short, w :| StuckAt(f, observed, exhausted, topK, short, w);
      NothingLeftDeclines(f, observed, exhausted, topK, short, w);
    }
  }

  // No answer is given: some channel is live and the certificate declines.
  ghost predicate Unanswered(f: Fusion, observed: Channels, exhausted: seq<bool>, topK: nat)
    requires Knowledge(f, observed, exhausted)
  {
    (exists s :: 0 <= s < |exhausted| && !exhausted[s]) && Declined(f, observed, exhausted, topK)
  }

  // Exactly when a settled Top-K goes unanswered.
  lemma LateExactly(f: Fusion, observed: Channels, exhausted: seq<bool>, topK: nat)
    requires Knowledge(f, observed, exhausted)
    ensures Unanswered(f, observed, exhausted, topK) && !Undetermined(f, observed, exhausted, topK) <==>
      && (exists s :: 0 <= s < |exhausted| && !exhausted[s])
      && if UnseenUpper(f, observed, exhausted) > 0.0
         then exists fixed :: SettledByTie(f, observed, exhausted, topK, fixed)
         else |Positive(f, observed)| < topK
  {
    var unseen := FreshId(Seen(observed));
    UnseenRow(f, observed, exhausted, unseen);
    if UnseenUpper(f, observed, exhausted) > 0.0 {
      DeclinedThoughSettled(f, observed, exhausted, topK);
    } else {
      NothingLeftAcceptance(f, observed, exhausted, topK);
      NothingLeftIsDetermined(f, observed, exhausted, topK);
    }
  }

  lemma {:induction false} ListedSize(p: seq<PointId>)
    ensures |set i | 0 <= i < |p| :: p[i]| <= |p|
  {
    var listed := set i | 0 <= i < |p| :: p[i];
    if p == [] {
      assert listed == {};
    } else {
      var n := |p| - 1;
      ListedSize(p[..n]);
      var shorter := set i | 0 <= i < |p[..n]| :: p[..n][i];
      assert listed <= shorter + {p[n]} by {
        forall i | 0 <= i < |p| ensures p[i] in shorter + {p[n]} {
          if i < n { assert p[..n][i] == p[i]; }
        }
      }
      SubsetSize(listed, shorter + {p[n]});
    }
  }

  // ---------------------------------------------------------------------
  // The two situations occur

  // One exhausted channel with one point, one live channel of weight zero, two
  // results wanted: settled, yet the certificate declines.
  lemma ZeroWeightDeclines(a: Arithmetic)
    requires Faithful(a)
    ensures
      var f, observed, exhausted := Fusion(a, 2, [1.0, 0.0]), [[0], []], [true, false];
      && Knowledge(f, observed, exhausted)
      && Unanswered(f, observed, exhausted, 2) && !Undetermined(f, observed, exhausted, 2)
  {
    var f, observed, exhausted := Fusion(a, 2, [1.0, 0.0]), [[0], []], [true, false];
    OneSeen();
    var next := Next(f, observed, exhausted);
    assert next == Zeros(2);
    SumOfZeros(a, 2, 2);
    NothingLeftIsDetermined(f, observed, exhausted, 2);
    assert !exhausted[1];
  }

  lemma OneSeen()
    ensures Seen([[0], []]) == {0}
  {
    assert [[0], []][0][0] == 0;
  }

  function Cents(): Arithmetic {
    Arithmetic(x => if x <= 100.0 then x else 100.0, 100.0)
  }

  lemma HalfScore(a: Arithmetic)
    requires a == Cents()
    ensures PositionScore(a, 0, 2, 1.0) == 0.5
  {
    assert Denominator(a, 0, 2, 1.0) == 2.0;
  }

  lemma TwoTerms(a: Arithmetic, terms: seq<real>)
    requires |terms| == 2
    ensures Sum(a, terms) == a.round(a.round(0.0 + terms[0]) + terms[1])
  {
    assert Accumulate(a, terms, 0) == 0.0;
    assert Accumulate(a, terms, 1) == a.round(0.0 + terms[0]);
  }

  lemma CentsTerms(terms: seq<real>)
    requires terms == [0.0, 0.5] || terms == [0.5, 0.0]
    ensures Sum(Cents(), terms) == 0.5
  {
    TwoTerms(Cents(), terms);
  }

  // The state of the tie: one exhausted channel with one point, one live channel
  // of the same weight.
  ghost predicate IsTie(f: Fusion, observed: Channels, exhausted: seq<bool>) {
    f == Fusion(Cents(), 2, [1.0, 1.0]) && observed == [[0], []] && exhausted == [true, false]
  }

  lemma TieScores(f: Fusion, observed: Channels, exhausted: seq<bool>)
    requires IsTie(f, observed, exhausted)
    ensures UnseenUpper(f, observed, exhausted) == FusedScore(f, observed, 0) == 0.5
  {
    HalfScore(f.arith);
    var next, low := Next(f, observed, exhausted), Filled(Row(f, observed, 0), Zeros(2));
    assert next == [0.0, 0.5];
    assert low == [0.5, 0.0];
    CentsTerms(next);
    CentsTerms(low);
  }

  lemma TieIsKnown(f: Fusion, observed: Channels, exhausted: seq<bool>)
    requires IsTie(f, observed, exhausted)
    ensures Knowledge(f, observed, exhausted) && Seen(observed) == {0} && !exhausted[1]
  {
    ExactArithmeticIsFaithful(100.0);
    OneSeen();
  }

  lemma SingleTie(f: Fusion, observed: Channels, exhausted: seq<bool>)
    requires Knowledge(f, observed, exhausted) && Seen(observed) == {0}
    requires FusedScore(f, observed, 0) == UnseenUpper(f, observed, exhausted)
    ensures SettledByTie(f, observed, exhausted, 1, [0])
  {
    assert TiesSafely(f, observed, exhausted, [0][0]);
  }

  // Two equally weighted channels, identity 0 first in the one that has ended:
  // an unseen identity can tie with it but never precede it, so the single
  // result is settled, yet the certificate declines.
  lemma TieDeclines(f: Fusion, observed: Channels, exhausted: seq<bool>)
    requires IsTie(f, observed, exhausted)
    ensures Knowledge(f, observed, exhausted)
    ensures Unanswered(f, observed, exhausted, 1) && !Undetermined(f, observed, exhausted, 1)
  {
    TieIsKnown(f, observed, exhausted);
    TieScores(f, observed, exhausted);
    SingleTie(f, observed, exhausted);
    DeclinedThoughSettled(f, observed, exhausted, 1);
  }

  // With two results wanted the same state is declined rightly.
  lemma TieIsOpenForTwo(f: Fusion, observed: Channels, exhausted: seq<bool>)
    requires IsTie(f, observed, exhausted)
    ensures Knowledge(f, observed, exhausted)
    ensures Unanswered(f, observed, exhausted, 2) && Undetermined(f, observed, exhausted, 2)
  {
    TieIsKnown(f, observed, exhausted);
    TieScores(f, observed, exhausted);
    TooFewIsOpen(f, observed, exhausted, 2);
  }
}
