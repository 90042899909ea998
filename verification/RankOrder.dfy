// The order every exact stream uses: descending score, then ascending identity.
//
// Sources: lib/segment/src/common/reciprocal_rank_fusion/scoring.rs (rrf_order),
// lib/segment/src/index/exact_rank_stream.rs (exact_score_order)
module RankOrder {
  import opened Common

  datatype Scored = Scored(id: PointId, score: real)

  predicate Before(leftId: PointId, leftScore: real, rightId: PointId, rightScore: real) {
    leftScore > rightScore || (leftScore == rightScore && leftId < rightId)
  }

  predicate Precedes(x: Scored, y: Scored) {
    Before(x.id, x.score, y.id, y.score)
  }

  ghost predicate Ranked(xs: seq<Scored>) {
    forall i, j :: 0 <= i < j < |xs| ==> Precedes(xs[i], xs[j])
  }

  // By falling score, then by growing identity.
  lemma RankedMeans(xs: seq<Scored>)
    ensures Ranked(xs) <==> forall i, j :: 0 <= i < j < |xs| ==>
      xs[i].score > xs[j].score || (xs[i].score == xs[j].score && xs[i].id < xs[j].id)
  {
  }

  lemma ConsRanked(y: Scored, zs: seq<Scored>)
    requires Ranked(zs) && forall z :: z in zs ==> Precedes(y, z)
    ensures Ranked([y] + zs)
  {
  }

  // Inserts x at its place.
  function Insert(x: Scored, ys: seq<Scored>): (zs: seq<Scored>)
    requires Ranked(ys) && x !in ys
    ensures Ranked(zs)
    ensures forall z :: z in zs <==> z == x || z in ys
    ensures |zs| == |ys| + 1
  {
    if ys == [] || Precedes(x, ys[0]) then [x] + ys
    else
      assert ys == [ys[0]] + ys[1..];
      var rest := Insert(x, ys[1..]);
      ConsRanked(ys[0], rest);
      [ys[0]] + rest
  }

  // The library sort with this comparator.
  function RankSort(xs: seq<Scored>): (ys: seq<Scored>)
    requires Distinct(xs)
    ensures Ranked(ys)
    ensures forall y :: y in ys <==> y in xs
    ensures |ys| == |xs|
  {
    if xs == [] then []
    else
      assert xs == [xs[0]] + xs[1..];
      Insert(xs[0], RankSort(xs[1..]))
  }

  lemma RankedDistinct(xs: seq<Scored>)
    requires Ranked(xs)
    ensures Distinct(xs)
  {
    assert forall i, j :: 0 <= i < j < |xs| ==> Precedes(xs[i], xs[j]);
  }

  // Two ranked sequences with the same elements are the same sequence.
  lemma {:induction false} RankedUnique(xs: seq<Scored>, ys: seq<Scored>)
    requires Ranked(xs) && Ranked(ys)
    requires forall z :: z in xs <==> z in ys
    ensures xs == ys
  {
    assert |ys| > 0 ==> ys[0] in ys;
    if xs != [] {
      assert xs[0] in ys && ys[0] in xs;
      assert ys == [ys[0]] + ys[1..] && xs == [xs[0]] + xs[1..];
      FirstIsBest(xs, ys[0]);
      FirstIsBest(ys, xs[0]);
      assert forall z :: z in xs[1..] <==> z in xs && z != xs[0] by { TailWithoutHead(xs); }
      assert forall z :: z in ys[1..] <==> z in ys && z != ys[0] by { TailWithoutHead(ys); }
      RankedUnique(xs[1..], ys[1..]);
    }
  }

  lemma FirstIsBest(xs: seq<Scored>, z: Scored)
    requires Ranked(xs) && z in xs
    ensures z == xs[0] || Precedes(xs[0], z)
  {
  }

  lemma TailWithoutHead(xs: seq<Scored>)
    requires Ranked(xs) && xs != []
    ensures forall z :: z in xs[1..] <==> z in xs && z != xs[0]
  {
    RankedDistinct(xs);
    assert xs == [xs[0]] + xs[1..];
    forall z | z in xs[1..]
      ensures z != xs[0]
    {
      var i :| 0 <= i < |xs[1..]| && xs[1..][i] == z;
      assert xs[i + 1] == z;
    }
  }

  function Ids(scored: seq<Scored>): (ids: seq<PointId>)
    ensures |ids| == |scored| && forall i :: 0 <= i < |ids| ==> ids[i] == scored[i].id
  {
    seq(|scored|, i requires 0 <= i < |scored| => scored[i].id)
  }

  // A ranked list that leaves out only worse elements is a prefix.
  lemma {:induction false} RankedSegment(part: seq<Scored>, whole: seq<Scored>)
    requires Ranked(part) && Ranked(whole)
    requires forall x :: x in part ==> x in whole
    requires forall e, x :: e in part && x in whole && x !in part ==> Precedes(e, x)
    ensures part <= whole
    decreases |part|
  {
    if part != [] {
      assert part[0] in whole;
      FirstIsBest(whole, part[0]);
      assert whole[0] in whole;
      assert part[0] in part;
      if whole[0] in part { FirstIsBest(part, whole[0]); }
      TailWithoutHead(part);
      TailWithoutHead(whole);
      RankedSegment(part[1..], whole[1..]);
      assert part == [part[0]] + part[1..] && whole == [whole[0]] + whole[1..];
    }
  }

  lemma {:induction false} RankedSize(xs: seq<Scored>, s: set<Scored>)
    requires Ranked(xs) && forall x :: x in xs ==> x in s
    ensures |xs| <= |s|
    decreases |xs|
  {
    if xs != [] {
      TailWithoutHead(xs);
      assert xs[0] in xs;
      assert forall x :: x in xs[1..] ==> x in xs;
      RankedSize(xs[1..], s - {xs[0]});
    }
  }
}
