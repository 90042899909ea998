// Vocabulary shared by the models.
module Common {
  datatype Option<+T> = None | Some(value: T)

  datatype Result<+T, +E> = Ok(value: T) | Err(error: E)

  // Point identities are totally ordered. `ExtendedPointId` orders numeric
  // identities first and UUIDs after them, which embeds into the naturals.
  type PointId = nat

  // Operation errors: rejected input, failure or cancellation of a producer,
  // storage that contradicts itself.
  datatype Error = Validation | Producer | InconsistentStorage

  // One contiguous extension of an exact channel; `exhausted` proves that no
  // later rank exists.
  datatype RankBatch = RankBatch(startRank: nat, ids: seq<PointId>, exhausted: bool)

  ghost predicate Distinct<T>(xs: seq<T>) {
    forall i, j :: 0 <= i < j < |xs| ==> xs[i] != xs[j]
  }

  lemma DistinctPrefix<T>(xs: seq<T>, n: nat)
    requires Distinct(xs) && n <= |xs|
    ensures Distinct(xs[..n])
  {
  }

  lemma Climb(p: nat -> bool, n: nat)
    requires p(0) && forall t: nat :: t < n && p(t) ==> p(t + 1)
    ensures p(n)
  {
    for t := 0 to n
      invariant p(t)
    {
    }
  }

  // Position of the first occurrence.
  function IndexOf<T(==)>(xs: seq<T>, x: T): (i: nat)
    requires x in xs
    ensures i < |xs| && xs[i] == x
    ensures forall j :: 0 <= j < i ==> xs[j] != x
  {
    if xs[0] == x then 0 else 1 + IndexOf(xs[1..], x)
  }

  // A subset is no larger.
  lemma {:induction false} SubsetSize<T>(a: set<T>, b: set<T>)
    requires a <= b
    ensures |a| <= |b|
  {
    if a != {} {
      var x :| x in a;
      SubsetSize(a - {x}, b - {x});
    }
  }
}
