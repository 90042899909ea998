// Increasing lists of indices: sorting, removing repetitions, listing a set.
module Sorting {
  import opened Common

  predicate NonDecreasing(s: seq<nat>) {
    forall i, j :: 0 <= i < j < |s| ==> s[i] <= s[j]
  }

  predicate Increasing(s: seq<nat>) {
    forall i, j :: 0 <= i < j < |s| ==> s[i] < s[j]
  }

  ghost predicate SameMembers(a: seq<nat>, b: seq<nat>) {
    forall x :: x in a <==> x in b
  }

  function Insert(s: seq<nat>, x: nat): seq<nat> {
    if s == [] || x <= s[0] then [x] + s else [s[0]] + Insert(s[1..], x)
  }

  lemma {:induction false} InsertMembers(s: seq<nat>, x: nat)
    ensures forall y :: y in Insert(s, x) <==> y == x || y in s
    decreases |s|
  {
    if s != [] && s[0] < x {
      InsertMembers(s[1..], x);
      assert s == [s[0]] + s[1..];
    }
  }

  lemma ConsSorted(x: nat, rest: seq<nat>)
    requires NonDecreasing(rest) && forall y :: y in rest ==> x <= y
    ensures NonDecreasing([x] + rest)
    ensures Increasing(rest) && x !in rest ==> Increasing([x] + rest)
  {
    assert forall k :: 0 <= k < |rest| ==> rest[k] in rest;
  }

  lemma TailSorted(s: seq<nat>)
    requires NonDecreasing(s) && s != []
    ensures NonDecreasing(s[1..]) && forall y :: y in s[1..] ==> s[0] <= y
    ensures Increasing(s) ==> Increasing(s[1..]) && s[0] !in s[1..]
  {
  }

  lemma {:induction false} InsertSorts(s: seq<nat>, x: nat)
    requires NonDecreasing(s)
    ensures NonDecreasing(Insert(s, x))
    ensures Increasing(s) && x !in s ==> Increasing(Insert(s, x))
    decreases |s|
  {
    if s == [] || x <= s[0] {
      assert forall y :: y in s ==> x <= y;
      ConsSorted(x, s);
    } else {
      TailSorted(s);
      InsertSorts(s[1..], x);
      InsertMembers(s[1..], x);
      ConsSorted(s[0], Insert(s[1..], x));
    }
  }

  function Sort(s: seq<nat>): seq<nat> {
    if s == [] then [] else Insert(Sort(s[1..]), s[0])
  }

  lemma {:induction false} SortSorts(s: seq<nat>)
    ensures NonDecreasing(Sort(s)) && SameMembers(Sort(s), s)
    decreases |s|
  {
    if s != [] {
      SortSorts(s[1..]);
      InsertSorts(Sort(s[1..]), s[0]);
      InsertMembers(Sort(s[1..]), s[0]);
      assert s == [s[0]] + s[1..];
    }
  }

  // Drops every element equal to the one before it.
  method Dedup(s: seq<nat>) returns (r: seq<nat>)
    requires NonDecreasing(s)
    ensures Increasing(r) && SameMembers(r, s)
  {
    r := [];
    for i := 0 to |s|
      invariant Increasing(r) && SameMembers(r, s[..i])
      invariant i == 0 ==> r == []
      invariant i > 0 ==> r != [] && r[|r| - 1] == s[i - 1]
    {
      assert s[..i + 1] == s[..i] + [s[i]];
      assert i > 0 ==> s[i - 1] in s[..i];
      assert forall k :: 0 <= k < |r| ==> r[k] <= r[|r| - 1];
      if i == 0 || s[i] != s[i - 1] { r := r + [s[i]]; }
    }
    assert s[..|s|] == s;
  }

  // The members of a set in increasing order.
  method List(s: set<nat>) returns (r: seq<nat>)
    ensures Increasing(r) && forall x :: x in r <==> x in s
  {
    r := [];
    var left := s;
    while left != {}
      invariant left <= s && NonDecreasing(r)
      invariant forall x :: x in r <==> x in s && x !in left
      invariant Increasing(r)
      decreases |left|
    {
      var x :| x in left;
      InsertSorts(r, x);
      InsertMembers(r, x);
      r := Insert(r, x);
      left := left - {x};
    }
  }

  // Two increasing lists with the same members are the same list.
  lemma {:induction false} IncreasingIsUnique(a: seq<nat>, b: seq<nat>)
    requires Increasing(a) && Increasing(b) && SameMembers(a, b)
    ensures a == b
    decreases |a|
  {
    assert (a != [] ==> a[0] in b) && (b != [] ==> b[0] in a);
    if a != [] {
      HeadIsLeast(a);
      HeadIsLeast(b);
      assert a[0] in b && b[0] in a;
      assert a[0] == b[0];
      assert a == [a[0]] + a[1..] && b == [b[0]] + b[1..];
      IncreasingIsUnique(a[1..], b[1..]);
    }
  }

  lemma HeadIsLeast(s: seq<nat>)
    requires Increasing(s) && s != []
    ensures forall x :: x in s ==> s[0] <= x
    ensures forall x :: x in s[1..] <==> x in s && x != s[0]
  {
    assert s == [s[0]] + s[1..];
  }

  // A rearrangement of a list without repetitions has none either.
  lemma PermutationDistinct(a: seq<nat>, b: seq<nat>)
    requires multiset(a) == multiset(b)
    ensures Distinct(a) ==> Distinct(b)
    ensures |a| == |b| && forall p :: p in a <==> p in b
  {
    assert |multiset(a)| == |a| && |multiset(b)| == |b|;
    forall p ensures p in a <==> p in b {
      assert p in multiset(a) <==> p in a;
      assert p in multiset(b) <==> p in b;
    }
    forall i, j | Distinct(a) && 0 <= i < j < |b| ensures b[i] != b[j] {
      Repeated(b, i, j);
      OnceOnly(a, b[i]);
    }
  }

  lemma Repeated(s: seq<nat>, i: nat, j: nat)
    requires i < j < |s|
    ensures s[i] == s[j] ==> multiset(s)[s[i]] >= 2
  {
    assert s == s[..j] + [s[j]] + s[j + 1..];
    assert s[i] == s[..j][i];
    assert s[i] in multiset(s[..j]);
  }

  lemma OnceOnly(s: seq<nat>, p: nat)
    requires Distinct(s)
    ensures multiset(s)[p] <= 1
    decreases |s|
  {
    if s != [] {
      assert s == [s[0]] + s[1..];
      assert forall i, j :: 0 <= i < j < |s[1..]| ==> s[1..][i] == s[i + 1] && s[1..][j] == s[j + 1];
      OnceOnly(s[1..], p);
      assert s[0] !in s[1..];
    }
  }

  lemma {:induction false} InsertPermutes(s: seq<nat>, x: nat)
    ensures multiset(Insert(s, x)) == multiset(s) + multiset{x}
    decreases |s|
  {
    if s != [] && s[0] < x {
      InsertPermutes(s[1..], x);
      assert s == [s[0]] + s[1..];
    }
  }

  lemma {:induction false} SortPermutes(s: seq<nat>)
    ensures multiset(Sort(s)) == multiset(s)
    decreases |s|
  {
    if s != [] {
      SortPermutes(s[1..]);
      InsertPermutes(Sort(s[1..]), s[0]);
      assert s == [s[0]] + s[1..];
    }
  }

  // A list without repetitions and another sort to the same list exactly if
  // one rearranges the other.
  lemma SortIsCanonical(a: seq<nat>, b: seq<nat>)
    requires Distinct(a)
    ensures Sort(a) == Sort(b) <==> multiset(a) == multiset(b)
  {
    SortPermutes(a);
    SortPermutes(b);
    if multiset(a) == multiset(b) {
      SortSorts(a);
      SortSorts(b);
      PermutationDistinct(a, Sort(a));
      PermutationDistinct(a, Sort(b));
      IncreasingIsUnique(Sort(a), Sort(b));
    }
  }

  // Whether two neighbours of a sorted list are equal, so whether any two are.
  method HasRepetition(s: seq<nat>) returns (repeated: bool)
    requires NonDecreasing(s)
    ensures repeated <==> !Distinct(s)
  {
    for i := 0 to |s|
      invariant forall j, k :: 0 <= j < k < i ==> s[j] != s[k]
    {
      if i > 0 && s[i - 1] == s[i] { return true; }
    }
    repeated := false;
  }
}
